/** Shutdown waits for every admitted expiry callback, and none runs afterwards. */
module LifecycleShutdown {
  import opened Wrappers
  import opened SandboxRecords
  import opened Deadlines
  import opened Lifecycle
  import opened LifecycleLocking
  import opened LifecycleRuns
  import opened LifecycleExpiry

  /** A callback that joined the wait group and has not left it. */
  predicate Admitted(th: Thread) {
    th.task.Expire? && !th.pc.Admitting? && !th.pc.Done?
  }

  ghost function AdmittedCallbacks(s: State): set<Tid> {
    set t | t in s.threads && Admitted(s.threads[t])
  }

  ghost predicate Counted(s: State) {
    && Expiry(s)
    && s.mgr.running == |AdmittedCallbacks(s)|
    && (s.drained ==> s.mgr.stopped && AdmittedCallbacks(s) == {})
  }

  lemma PerformCounts(m: Manager, id: Id, call: Call, tm: TimerId)
    ensures var m' := Perform(m, id, call, tm);
            && m'.stopped == m.stopped
            && (!call.Admit? && !call.Finish? ==> m'.running == m.running)
  {
  }

  /** Joining and leaving the wait group are the only ways to become or stop being an admitted callback. */
  lemma AdmissionStep(s: State, t: Tid, answer: Answer)
    requires t in s.threads && TaskFits(s.threads[t])
    ensures var th, call := s.threads[t], TimerCall(s, s.threads[t]);
            && (call.Admit? && !s.mgr.stopped && th.task.Expire? ==>
                  !Admitted(th) && Admitted(NextThread(s, th, answer)))
            && (call.Finish? && th.task.Expire? ==> Admitted(th) && !Admitted(NextThread(s, th, answer)))
            && (!(call.Admit? && !s.mgr.stopped) && !call.Finish? ==>
                  Admitted(th) == Admitted(NextThread(s, th, answer)))
            && (call.Admit? || call.Finish? ==> th.task.Expire?)
  {
  }

  lemma AdmittedAfterMove(s: State, s': State, t: Tid)
    requires OnlyMoves(s, s', t)
    ensures AdmittedCallbacks(s') ==
              if Admitted(s'.threads[t]) then AdmittedCallbacks(s) + {t} else AdmittedCallbacks(s) - {t}
    ensures t in AdmittedCallbacks(s) <==> Admitted(s.threads[t])
  {
  }

  lemma CountAfter(before: set<Tid>, t: Tid, admitted: bool)
    ensures var after := if admitted then before + {t} else before - {t};
            |after| == |before| + (if admitted && t !in before then 1 else if !admitted && t in before then -1 else 0)
  {
  }

  lemma RunningAfter(m: Manager, id: Id, call: Call, tm: TimerId)
    ensures Perform(m, id, call, tm).running ==
              if call.Admit? && !m.stopped then m.running + 1
              else if call.Finish? && m.running > 0 then m.running - 1
              else m.running
  {
  }

  lemma AdvanceKeepsCounted(s: State, t: Tid, answer: Answer, unused: nat)
    requires CanAdvance(s, t, answer, unused) && TaskFits(s.threads[t])
    requires s.mgr.running == |AdmittedCallbacks(s)| && (s.drained ==> s.mgr.stopped && AdmittedCallbacks(s) == {})
    ensures var s' := AdvanceThread(s, t, answer, unused);
            s'.mgr.running == |AdmittedCallbacks(s')| && (s'.drained ==> s'.mgr.stopped && AdmittedCallbacks(s') == {})
  {
    var s' := AdvanceThread(s, t, answer, unused);
    var th := s.threads[t];
    PerformCounts(s.mgr, th.id, TimerCall(s, th), unused);
    RunningAfter(s.mgr, th.id, TimerCall(s, th), unused);
    AdmissionStep(s, t, answer);
    AdmittedAfterMove(s, s', t);
    CountAfter(AdmittedCallbacks(s), t, Admitted(s'.threads[t]));
  }

  lemma CountedStep(s: State, step: Step)
    requires Counted(s) && Enabled(s, step)
    ensures Counted(Apply(s, step))
  {
    var s' := Apply(s, step);
    ExpiryStep(s, step);
    if step.Advance? {
      assert TaskFits(s.threads[step.t]);
      AdvanceKeepsCounted(s, step.t, step.answer, step.unused);
    } else {
      assert AdmittedCallbacks(s') == AdmittedCallbacks(s);
    }
  }

  lemma {:induction false} CountedOnRuns(s: State, steps: seq<Step>, g: Guards, end: State)
    requires Counted(s) && Run(s, steps, g, end)
    ensures Counted(end) && (s.drained ==> end.drained)
    decreases |steps|
  {
    if steps != [] {
      CountedStep(s, steps[0]);
      CountedOnRuns(Apply(s, steps[0]), steps[1..], g, end);
    }
  }

  /** The wait-group count is the number of callbacks admitted and not finished, and once shutdown has returned nil
      no callback is past its admission check in any later state, whatever fires or is rescheduled. */
  lemma {:induction false} ShutdownIsQuiescent(init: State, before: seq<Step>, s: State, after: seq<Step>, end: State)
    requires Init(init) && Run(init, before, NO_GUARDS, s) && Run(s, after, NO_GUARDS, end)
    ensures s.mgr.running == |AdmittedCallbacks(s)|
    ensures s.drained ==>
              forall t :: t in end.threads && end.threads[t].task.Expire? ==>
                end.threads[t].pc.Admitting? || end.threads[t].pc.Done?
  {
    assert AdmittedCallbacks(init) == {};
    CountedOnRuns(init, before, NO_GUARDS, s);
    CountedOnRuns(s, after, NO_GUARDS, end);
    if s.drained {
      forall t | t in end.threads && end.threads[t].task.Expire?
        ensures end.threads[t].pc.Admitting? || end.threads[t].pc.Done?
      {
        assert t !in AdmittedCallbacks(end);
      }
    }
  }

  /** From the moment shutdown returns nil, no callback is past its admission check, in any run. */
  lemma {:induction false} NothingRunsAfterShutdown(init: State, before: seq<Step>, s: State, after: seq<Step>, end: State)
    requires Init(init) && Run(init, before, NO_GUARDS, s) && Enabled(s, ShutdownReturns)
    requires Run(Apply(s, ShutdownReturns), after, NO_GUARDS, end)
    ensures forall t :: t in end.threads && end.threads[t].task.Expire? ==>
              end.threads[t].pc.Admitting? || end.threads[t].pc.Done?
  {
    assert AdmittedCallbacks(init) == {};
    CountedOnRuns(init, before, NO_GUARDS, s);
    CountedStep(s, ShutdownReturns);
    CountedOnRuns(Apply(s, ShutdownReturns), after, NO_GUARDS, end);
    forall t | t in end.threads && end.threads[t].task.Expire?
      ensures end.threads[t].pc.Admitting? || end.threads[t].pc.Done?
    {
      assert t !in AdmittedCallbacks(end);
    }
  }
}
