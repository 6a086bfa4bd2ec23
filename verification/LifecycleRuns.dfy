/** Runs of the lifecycle, and the conditions under which some of their properties hold. */
module LifecycleRuns {
  import opened Wrappers
  import opened SandboxRecords
  import opened Deadlines
  import opened Lifecycle
  import opened LifecycleLocking

  /** Which conditions the steps of a run that concern the sandbox `id` are known to meet. */
  datatype Guards = Guards(id: Id, freshIds: bool, freshSyncs: bool, distinctFires: bool)

  const NO_GUARDS := Guards(0, false, false, false)

  predicate StoresId(s: State, step: Step, id: Id)
    requires Enabled(s, step)
  {
    || (step.Restore? && step.id == id)
    || (step.Advance? && Inserts(s, s.threads[step.t], step.answer) && s.threads[step.t].id == id)
  }

  /** An unlocked deadline sync (after creation or at start-up) that works from a record the store no longer has. */
  predicate StaleSync(s: State, step: Step, id: Id)
    requires Enabled(s, step)
  {
    && step.Advance?
    && var th := s.threads[step.t];
       && th.id == id && th.pc.UnlockedSync?
       && GetRecord(s, th.id).Some?
       && var current := GetRecord(s, th.id).value;
          current.state != th.pc.rec.state || current.endAt != th.pc.rec.endAt
  }

  /** The manager would keep the timer it has because the fire times agree, although that timer's closure
      was made for another deadline. */
  predicate Collides(m: Manager, id: Id, fireAt: Time, expected: Time) {
    && !m.stopped && id in m.table && m.table[id].fireAt == fireAt
    && m.table[id].timer in m.timers && m.timers[m.table[id].timer].expected != expected
  }

  predicate CollidingSchedule(s: State, step: Step, id: Id)
    requires Enabled(s, step)
  {
    && step.Advance?
    && var th := s.threads[step.t];
       && th.id == id && th.id in s.sandboxes && TimerCall(s, th).ScheduleAt?
       && Collides(s.mgr, th.id, TimerCall(s, th).fireAt, TimerCall(s, th).expected)
  }

  predicate Obeys(s: State, step: Step, g: Guards)
    requires Enabled(s, step)
  {
    && (g.freshIds && g.id in s.born ==> !StoresId(s, step, g.id))
    && (g.freshSyncs ==> !StaleSync(s, step, g.id))
    && (g.distinctFires ==> !CollidingSchedule(s, step, g.id))
  }

  ghost predicate Run(s: State, steps: seq<Step>, g: Guards, end: State)
    decreases |steps|
  {
    if steps == [] then end == s
    else Enabled(s, steps[0]) && Obeys(s, steps[0], g) && Run(Apply(s, steps[0]), steps[1..], g, end)
  }

  lemma {:induction false} RunsCompose(s: State, xs: seq<Step>, g: Guards, mid: State, ys: seq<Step>, end: State)
    requires Run(s, xs, g, mid) && Run(mid, ys, g, end)
    ensures Run(s, xs + ys, g, end)
    decreases |xs|
  {
    if xs == [] {
      assert xs + ys == ys;
    } else {
      assert (xs + ys)[0] == xs[0] && (xs + ys)[1..] == xs[1..] + ys;
      RunsCompose(Apply(s, xs[0]), xs[1..], g, mid, ys, end);
    }
  }

  lemma {:induction false} LockingOnRuns(s: State, steps: seq<Step>, g: Guards, end: State)
    requires Locking(s) && Run(s, steps, g, end)
    ensures Locking(end)
    decreases |steps|
  {
    if steps != [] {
      LockingStep(s, steps[0]);
      LockingOnRuns(Apply(s, steps[0]), steps[1..], g, end);
    }
  }

  lemma {:induction false} StoredIdsAreBornOnRuns(s: State, steps: seq<Step>, g: Guards, end: State)
    requires s.sandboxes.Keys <= s.born && Run(s, steps, g, end)
    ensures end.sandboxes.Keys <= end.born
    decreases |steps|
  {
    if steps != [] {
      StoredIdsAreBornOnRuns(Apply(s, steps[0]), steps[1..], g, end);
    }
  }

  /** Per-ID exclusivity, also when an ID is deleted and stored again: a thread that lockSandbox let in owns exactly
      the entry the map has for the ID, nobody else owns an entry under that ID, and the record it carries
      is the stored one. */
  lemma {:induction false} LifecycleLockIsExclusive(init: State, steps: seq<Step>, s: State, t: Tid, u: Tid)
    requires Init(init) && Run(init, steps, NO_GUARDS, s)
    requires t in s.threads && u in s.threads
    requires OwnedEntry(s.threads[t]).Some? && OwnedEntry(s.threads[u]).Some?
    ensures s.threads[t].id in s.sandboxes && s.sandboxes[s.threads[t].id] == OwnedEntry(s.threads[t]).value
    ensures s.threads[t].id == s.threads[u].id ==> t == u
    ensures Snapshot(s.threads[t].pc).Some? ==> GetRecord(s, s.threads[t].id) == Snapshot(s.threads[t].pc)
  {
    LockingOnRuns(init, steps, NO_GUARDS, s);
    assert OwnerIsCurrent(s, t) && OwnerIsCurrent(s, u);
    assert ThreadLocks(s, t) && ThreadLocks(s, u);
  }

  // ---------------------------------------------------------------- no deadlock

  /** Some answer of the runtime lets a thread go on. */
  function AnAnswer(pc: Pc): Answer {
    if pc.Inspecting? then Fails else Succeeds
  }

  lemma {:induction false} AboveAll(used: set<nat>) returns (n: nat)
    ensures forall m :: m in used ==> m < n
  {
    n := 0;
    if used != {} {
      var m :| m in used;
      var above := AboveAll(used - {m});
      n := if m < above then above else m + 1;
      forall k | k in used ensures k < n {
        assert k != m ==> k in used - {m};
      }
    }
  }

  lemma CanGoOn(s: State, t: Tid, unused: nat)
    requires t in s.threads && !s.threads[t].pc.Done? && unused !in s.entries && unused !in s.mgr.timers
    requires s.threads[t].pc.Contending? ==> s.threads[t].pc.e !in s.locks
    ensures CanAdvance(s, t, AnAnswer(s.threads[t].pc), unused)
  {
  }

  /** No deadlock: in every reachable state a thread that has not finished can go on, or waits for a lock whose holder can;
      the runtime only has to answer. */
  lemma {:induction false} NoDeadlock(init: State, steps: seq<Step>, s: State, t: Tid) returns (u: Tid, unused: nat)
    requires Init(init) && Run(init, steps, NO_GUARDS, s) && t in s.threads && !s.threads[t].pc.Done?
    ensures u == t || (s.threads[t].pc.Contending? && s.threads[t].pc.e in s.locks && s.locks[s.threads[t].pc.e] == u)
    ensures u in s.threads && CanAdvance(s, u, AnAnswer(s.threads[u].pc), unused)
  {
    LockingOnRuns(init, steps, NO_GUARDS, s);
    unused := AboveAll(s.entries.Keys + s.mgr.timers.Keys);
    u := t;
    if s.threads[t].pc.Contending? && s.threads[t].pc.e in s.locks {
      u := s.locks[s.threads[t].pc.e];
      assert HeldEntry(s.threads[u].pc) == Some(s.threads[t].pc.e);
    }
    CanGoOn(s, u, unused);
  }
}
