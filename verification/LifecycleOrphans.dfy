/** No sandbox is left in the runtime without anything in the gateway that stands for it. */
module LifecycleOrphans {
  import opened Wrappers
  import opened SandboxRecords
  import opened Deadlines
  import opened Lifecycle
  import opened LifecycleLocking
  import opened LifecycleRuns

  /** The sandbox was made in the runtime and its creation has neither stored nor cleaned it up yet. */
  ghost predicate CreationInFlight(s: State, id: Id) {
    exists t :: t in s.threads && s.threads[t].id == id && (s.threads[t].pc.Storing? || s.threads[t].pc.CleaningUp?)
  }

  /** The runtime has no such sandbox, or something other than a store record accounts for it. */
  ghost predicate GoneFromRuntime(s: State, id: Id) {
    id in s.runtime ==> CreationInFlight(s, id) || id in s.leaked
  }

  /** A record is on its way out only after its sandbox left the runtime. */
  ghost predicate RemovalFits(s: State, th: Thread) {
    th.pc.Dropping? || (th.pc.CallingDelete? && !th.pc.required) ==> GoneFromRuntime(s, th.id)
  }

  ghost predicate NoOrphans(s: State) {
    && Locking(s)
    && (forall id :: id in s.runtime ==> id in s.sandboxes || CreationInFlight(s, id) || id in s.leaked)
    && (forall t :: t in s.threads ==> RemovalFits(s, s.threads[t]))
  }

  lemma InFlightStays(s: State, t: Tid, answer: Answer, unused: nat, id: Id)
    requires CanAdvance(s, t, answer, unused) && CreationInFlight(s, id)
    ensures var s' := AdvanceThread(s, t, answer, unused);
            CreationInFlight(s', id) || id in s'.leaked || id !in s'.runtime || (id !in s.sandboxes && id in s'.sandboxes)
  {
    var s' := AdvanceThread(s, t, answer, unused);
    var c :| c in s.threads && s.threads[c].id == id && (s.threads[c].pc.Storing? || s.threads[c].pc.CleaningUp?);
    assert c in s'.threads;
    assert s'.threads[c].id == id;
  }

  lemma GoneStaysGone(s: State, t: Tid, answer: Answer, unused: nat, id: Id)
    requires CanAdvance(s, t, answer, unused) && GoneFromRuntime(s, id) && id in s.sandboxes
    ensures GoneFromRuntime(AdvanceThread(s, t, answer, unused), id)
  {
    var s' := AdvanceThread(s, t, answer, unused);
    if CreationInFlight(s, id) {
      InFlightStays(s, t, answer, unused, id);
    } else if id in s'.runtime && id !in s.runtime {
      assert s'.threads[t].pc.Storing?;
    }
  }

  lemma OwnRemovalFits(s: State, t: Tid, answer: Answer, unused: nat)
    requires NoOrphans(s) && CanAdvance(s, t, answer, unused)
    ensures var s' := AdvanceThread(s, t, answer, unused); RemovalFits(s', s'.threads[t])
  {
    assert OwnerIsCurrent(s, t) && ThreadLocks(s, t) && RemovalFits(s, s.threads[t]);
    RemovalStillFits(s, t, answer, unused);
  }

  lemma RemovalStillFits(s: State, t: Tid, answer: Answer, unused: nat)
    requires CanAdvance(s, t, answer, unused) && OwnerIsCurrent(s, t) && ThreadLocks(s, t) && RemovalFits(s, s.threads[t])
    ensures var s' := AdvanceThread(s, t, answer, unused); RemovalFits(s', s'.threads[t])
  {
    var s' := AdvanceThread(s, t, answer, unused);
    var th := s.threads[t];
    if s'.threads[t].pc.Dropping? || s'.threads[t].pc.CallingDelete? {
      if GoneFromRuntime(s, th.id) {
        GoneStaysGone(s, t, answer, unused, th.id);
      }
    }
  }

  lemma OtherRemovalFits(s: State, step: Step, t: Tid)
    requires NoOrphans(s) && Enabled(s, step) && t in s.threads && !IsStepOf(step, t)
    ensures t in Apply(s, step).threads && RemovalFits(Apply(s, step), Apply(s, step).threads[t])
  {
    var s' := Apply(s, step);
    var id := s.threads[t].id;
    assert OwnerIsCurrent(s, t) && ThreadLocks(s, t) && RemovalFits(s, s.threads[t]);
    if s.threads[t].pc.Dropping? || (s.threads[t].pc.CallingDelete? && !s.threads[t].pc.required) {
      assert id in s.sandboxes;
      if step.Advance? {
        GoneStaysGone(s, step.t, step.answer, step.unused, id);
      } else if id in s'.runtime && CreationInFlight(s, id) {
        StillInFlight(s, step, id);
      }
    }
  }

  lemma StillInFlight(s: State, step: Step, id: Id)
    requires Enabled(s, step) && !step.Advance? && CreationInFlight(s, id)
    ensures CreationInFlight(Apply(s, step), id)
  {
    var s' := Apply(s, step);
    var c :| c in s.threads && s.threads[c].id == id && (s.threads[c].pc.Storing? || s.threads[c].pc.CleaningUp?);
    assert c in s'.threads && s'.threads[c] == s.threads[c];
  }

  lemma AdvanceOrphansNothing(s: State, t: Tid, answer: Answer, unused: nat, id: Id)
    requires NoOrphans(s) && CanAdvance(s, t, answer, unused) && id in AdvanceThread(s, t, answer, unused).runtime
    ensures var s' := AdvanceThread(s, t, answer, unused);
            id in s'.sandboxes || CreationInFlight(s', id) || id in s'.leaked
  {
    var s' := AdvanceThread(s, t, answer, unused);
    var th := s.threads[t];
    assert RemovalFits(s, th);
    if id !in s.runtime {
      assert s'.threads[t].pc.Storing? && s'.threads[t].id == id;
    } else if CreationInFlight(s, id) {
      InFlightStays(s, t, answer, unused, id);
    }
  }

  lemma NoOrphansStep(s: State, step: Step)
    requires NoOrphans(s) && Enabled(s, step)
    ensures NoOrphans(Apply(s, step))
  {
    var s' := Apply(s, step);
    LockingStep(s, step);
    forall id | id in s'.runtime ensures id in s'.sandboxes || CreationInFlight(s', id) || id in s'.leaked {
      if step.Advance? {
        AdvanceOrphansNothing(s, step.t, step.answer, step.unused, id);
      } else if CreationInFlight(s, id) {
        StillInFlight(s, step, id);
      }
    }
    forall t | t in s'.threads ensures RemovalFits(s', s'.threads[t]) {
      if IsStepOf(step, t) {
        OwnRemovalFits(s, t, step.answer, step.unused);
      } else if t in s.threads {
        OtherRemovalFits(s, step, t);
      }
    }
  }

  lemma {:induction false} NoOrphansOnRuns(s: State, steps: seq<Step>, g: Guards, end: State)
    requires NoOrphans(s) && Run(s, steps, g, end)
    ensures NoOrphans(end)
    decreases |steps|
  {
    if steps != [] {
      NoOrphansStep(s, steps[0]);
      NoOrphansOnRuns(Apply(s, steps[0]), steps[1..], g, end);
    }
  }

  /** In every reachable state each sandbox in the runtime has a store record, or its creation is in flight, or its
      create-cleanup failed; and a thread about to drop a record, or to delete best-effort, has a sandbox that is
      gone from the runtime (unless a later creation under the same ID is what put it there). */
  lemma {:induction false} NoSandboxIsOrphaned(init: State, steps: seq<Step>, s: State, id: Id, t: Tid)
    requires Init(init) && Run(init, steps, NO_GUARDS, s) && t in s.threads
    ensures id in s.runtime ==> id in s.sandboxes || CreationInFlight(s, id) || id in s.leaked
    ensures s.threads[t].pc.Dropping? || (s.threads[t].pc.CallingDelete? && !s.threads[t].pc.required) ==>
              s.threads[t].id !in s.runtime || CreationInFlight(s, s.threads[t].id) || s.threads[t].id in s.leaked
  {
    NoOrphansOnRuns(init, steps, NO_GUARDS, s);
    assert RemovalFits(s, s.threads[t]);
  }
}
