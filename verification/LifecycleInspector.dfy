/** With a runtime that can be inspected, the manager never keeps a timer made for another deadline. */
module LifecycleInspector {
  import opened Wrappers
  import opened SandboxRecords
  import opened Deadlines
  import opened Lifecycle
  import opened LifecycleLocking
  import opened LifecycleRuns
  import opened LifecycleExpiry
  import opened LifecycleTimers
  import opened LifecycleCoverage

  /** No condition on fire times. */
  function NoTimerGuard(id: Id): Guards {
    Guards(id, true, true, false)
  }

  /** What a lock holder may rely on about its sandbox's timer after the inspection synced the deadline. */
  ghost predicate SessionFits(s: State, th: Thread) {
    !s.mgr.stopped && HasTimer(s.mgr, th.id) ==>
      match th.pc
      case Acting(_, _) => IsPlain(TimerOf(s.mgr, th.id))
      case CallingResume(_, _) => IsPlain(TimerOf(s.mgr, th.id))
      case Retiming(_, _, _, _) => IsPlain(TimerOf(s.mgr, th.id))
      case CallingPause(_, _) => th.task.Serve? ==> IsPlain(TimerOf(s.mgr, th.id))
      case MarkingPaused(_, _) => th.task.Serve? ==> IsPlain(TimerOf(s.mgr, th.id))
      case Syncing(_, rec, _) =>
        IsPlain(TimerOf(s.mgr, th.id)) || TimerOf(s.mgr, th.id).expected == rec.endAt
      case _ => true
  }

  ghost predicate Sessions(s: State, id: Id) {
    && Coverage(s, id)
    && s.inspector
    && (forall t :: t in s.threads && s.threads[t].id == id ==> SessionFits(s, s.threads[t]))
  }

  /** The table entry of a stored sandbox was made for its present deadline, or fires at the deadline it was made for. */
  lemma TimerAgrees(s: State, id: Id)
    requires Sessions(s, id) && id in s.sandboxes && !s.mgr.stopped && HasTimer(s.mgr, id)
    ensures s.sandboxes[id] in s.entries
    ensures IsPlain(TimerOf(s.mgr, id)) || TimerOf(s.mgr, id).expected == s.entries[s.sandboxes[id]].endAt
    ensures Clean(s, s.sandboxes[id]) ==> TimerOf(s.mgr, id).expected == s.entries[s.sandboxes[id]].endAt
  {
    var e := s.sandboxes[id];
    assert Tracked(s, id);
    if !Clean(s, e) {
      var c := s.locks[e];
      assert OwnerIsCurrent(s, c) && ThreadLocks(s, c) && SessionFits(s, s.threads[c]);
    }
  }

  lemma NothingCollides(s: State, step: Step, id: Id)
    requires Sessions(s, id) && Enabled(s, step) && !StaleSync(s, step, id)
    ensures !CollidingSchedule(s, step, id)
  {
    if step.Advance? && s.threads[step.t].id == id {
      var th := s.threads[step.t];
      if th.id in s.sandboxes && !s.mgr.stopped && HasTimer(s.mgr, th.id) {
        TimerAgrees(s, th.id);
        assert OwnerIsCurrent(s, step.t) && ThreadLocks(s, step.t) && ExpiryFits(s, step.t);
      }
    }
  }

  lemma NextSessionFits(s: State, t: Tid, answer: Answer, unused: nat)
    requires CanAdvance(s, t, answer, unused) && s.inspector
    requires var th := s.threads[t];
             && SessionFits(s, th) && TaskFits(th) && OwnerIsCurrent(s, t)
             && (th.pc.Checking? || th.pc.MarkingPaused? || th.pc.StoringInspection? ==> OwnedEntry(th).Some?)
             && !th.pc.Syncing? && !th.pc.Retrying?
             && (!s.mgr.stopped && HasTimer(s.mgr, th.id) && OwnedEntry(th).Some? ==>
                   TimerOf(s.mgr, th.id).expected == s.entries[s.sandboxes[th.id]].endAt)
    ensures SessionFits(AdvanceThread(s, t, answer, unused), AdvanceThread(s, t, answer, unused).threads[t])
  {
  }

  lemma OwnSessionStep(s: State, t: Tid, answer: Answer, unused: nat)
    requires CanAdvance(s, t, answer, unused) && Sessions(s, s.threads[t].id)
    requires !CollidingSchedule(s, Advance(t, answer, unused), s.threads[t].id)
    ensures SessionFits(AdvanceThread(s, t, answer, unused), AdvanceThread(s, t, answer, unused).threads[t])
  {
    var th := s.threads[t];
    assert OwnerIsCurrent(s, t) && ThreadLocks(s, t) && TaskFits(th) && SessionFits(s, th);
    if th.pc.Syncing? {
      if !s.mgr.stopped {
        SyncResult(s.mgr, th.id, th.pc.rec, unused);
      }
    } else if !th.pc.Retrying? {
      if !s.mgr.stopped && HasTimer(s.mgr, th.id) && OwnedEntry(th).Some? {
        TimerAgrees(s, th.id);
        assert Clean(s, s.sandboxes[th.id]);
      }
      NextSessionFits(s, t, answer, unused);
    }
  }

  /** What a thread that does not own the sandbox can do to its timer. */
  lemma StrangersCall(s: State, u: Tid, t: Tid)
    requires Timers(s) && t in s.threads && u in s.threads && t != u && GoneWhenCancelled(s, s.threads[t].id)
    requires OwnedEntry(s.threads[t]).Some? && s.threads[t].id == s.threads[u].id
    ensures var call := TimerCall(s, s.threads[u]);
            call.NoCall? || call.Admit? || call.Finish?
            || (s.threads[u].pc.UnlockedSync? && call == SyncCall(s.threads[u].pc.rec))
  {
    assert OwnerIsCurrent(s, t) && ThreadLocks(s, t);
    assert OwnerIsCurrent(s, u) && ThreadLocks(s, u) && ThreadIdFits(s, s.threads[u]);
  }

  lemma CallKeepsSession(m: Manager, m': Manager, id: Id, call: Call, tm: TimerId)
    requires TableFits(m) && tm !in m.timers && m' == Perform(m, id, call, tm)
    requires call.ScheduleAt? ==> call.fireAt == call.expected
    ensures HasTimer(m', id) ==>
              IsPlain(TimerOf(m', id))
              || (HasTimer(m, id) && TimerOf(m', id).fireAt == TimerOf(m, id).fireAt
                  && TimerOf(m', id).expected == TimerOf(m, id).expected)
    ensures HasTimer(m', id) && HasTimer(m, id) && IsPlain(TimerOf(m, id)) ==> IsPlain(TimerOf(m', id))
    ensures m'.stopped == m.stopped
  {
  }

  lemma OtherSessionStep(s: State, u: Tid, answer: Answer, unused: nat, t: Tid)
    requires CanAdvance(s, u, answer, unused) && t in s.threads && t != u && Sessions(s, s.threads[t].id)
    requires OwnedEntry(s.threads[t]).Some?
    ensures SessionFits(AdvanceThread(s, u, answer, unused), s.threads[t])
  {
    var th, other := s.threads[t], s.threads[u];
    assert SessionFits(s, th);
    if th.id != other.id {
      PerformElsewhere(s.mgr, other.id, TimerCall(s, other), unused, th.id);
    } else {
      StrangersCall(s, u, t);
      CallKeepsSession(s.mgr, AdvanceThread(s, u, answer, unused).mgr, th.id, TimerCall(s, other), unused);
    }
  }

  lemma EveryoneElsesSession(s: State, step: Step, t: Tid)
    requires Enabled(s, step) && t in s.threads && !IsStepOf(step, t) && Sessions(s, s.threads[t].id)
    ensures t in Apply(s, step).threads && SessionFits(Apply(s, step), Apply(s, step).threads[t])
  {
    assert SessionFits(s, s.threads[t]);
    if step.Advance? && OwnedEntry(s.threads[t]).Some? {
      OtherSessionStep(s, step.t, step.answer, step.unused, t);
    } else {
      assert ThreadLocks(s, t);
      DistantSession(s, step, t);
    }
  }

  lemma DistantSession(s: State, step: Step, t: Tid)
    requires Enabled(s, step) && t in s.threads && !IsStepOf(step, t) && (step.Advance? ==> OwnedEntry(s.threads[t]).None?)
    requires SessionFits(s, s.threads[t]) && ThreadLocks(s, t)
    ensures t in Apply(s, step).threads && SessionFits(Apply(s, step), Apply(s, step).threads[t])
  {
  }

  lemma SessionsStep(s: State, step: Step, id: Id)
    requires Sessions(s, id) && Enabled(s, step) && Obeys(s, step, NoTimerGuard(id))
    ensures Obeys(s, step, AllGuards(id)) && Sessions(Apply(s, step), id)
  {
    var s' := Apply(s, step);
    NothingCollides(s, step, id);
    CoverageStep(s, step, id);
    forall t | t in s'.threads && s'.threads[t].id == id ensures SessionFits(s', s'.threads[t]) {
      if IsStepOf(step, t) {
        OwnSessionStep(s, t, step.answer, step.unused);
      } else if t in s.threads {
        EveryoneElsesSession(s, step, t);
      }
    }
  }

  lemma {:induction false} SessionsOnRuns(s: State, steps: seq<Step>, end: State, id: Id)
    requires Sessions(s, id) && Run(s, steps, NoTimerGuard(id), end)
    ensures Sessions(end, id) && Run(s, steps, AllGuards(id), end)
    decreases |steps|
  {
    if steps != [] {
      SessionsStep(s, steps[0], id);
      SessionsOnRuns(Apply(s, steps[0]), steps[1..], end, id);
    }
  }

  /** With an inspectable runtime no assumption about coinciding fire times is needed: a run that meets the other two
      conditions for a sandbox meets this one as well. */
  lemma {:induction false} InspectorRunsNeverCollide(init: State, steps: seq<Step>, s: State, id: Id)
    requires Init(init) && init.inspector && Run(init, steps, NoTimerGuard(id), s)
    ensures Run(init, steps, AllGuards(id), s)
  {
    SessionsOnRuns(init, steps, s, id);
  }
}
