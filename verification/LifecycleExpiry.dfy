/** Expiry never acts on a stale deadline, and a terminal expiry cannot be undone. */
module LifecycleExpiry {
  import opened Wrappers
  import opened SandboxRecords
  import opened Deadlines
  import opened Lifecycle
  import opened LifecycleLocking
  import opened LifecycleRuns

  /** The counters each kind of thread can be at. */
  predicate TaskFits(th: Thread) {
    match th.task
    case Serve(_) =>
      !th.pc.Admitting? && !th.pc.Judging? && !th.pc.Retrying? && !th.pc.CancelOnly? && !th.pc.Finishing?
      && !IsProvisioning(th.pc)
      && (th.pc.Syncing? ==> !th.pc.next.ThenRetryUnlessPaused?)
    case Expire(_, _) =>
      !th.pc.Checking? && !th.pc.Acting? && !th.pc.CallingResume? && !th.pc.Retiming? && !IsProvisioning(th.pc)
      && (th.pc.Syncing? ==> !th.pc.next.ThenAct?)
    case Provision => IsProvisioning(th.pc) || th.pc.Done?
  }

  predicate IsProvisioning(pc: Pc) {
    pc.Creating? || pc.Storing? || pc.CleaningUp? || pc.Restored? || pc.UnlockedSync?
  }

  /** What an expiry callback knows about the record it has judged expired. */
  predicate Judged(rec: Record, expected: Time, action: TimeoutAction) {
    rec.state == Running && rec.endAt == expected && rec.onTimeout == action
  }

  ghost predicate ExpiryFits(s: State, t: Tid)
    requires t in s.threads
  {
    var th := s.threads[t];
    th.task.Expire? ==>
      var expected := th.task.expected;
      && expected <= s.now
      && match th.pc
         case CallingPause(_, rec) => Judged(rec, expected, PauseOnTimeout)
         case MarkingPaused(_, rec) => Judged(rec, expected, PauseOnTimeout)
         case Inspecting(_, rec) => Judged(rec, expected, PauseOnTimeout)
         case StoringInspection(_, rec, _) => Judged(rec, expected, PauseOnTimeout)
         case CallingDelete(_, rec, required) =>
           Judged(rec, expected, if required then KillOnTimeout else PauseOnTimeout)
         case Dropping(_, rec, required) => Judged(rec, expected, if required then KillOnTimeout else PauseOnTimeout)
         case Syncing(_, rec, next) => rec.endAt == expected && (next.ThenAnswer? ==> rec.state == Paused)
         case Retrying(e) => e in s.entries && s.entries[e].endAt == expected
         case _ => true
  }

  /** A timer never fires before the deadline it stands for. */
  ghost predicate TimersFit(m: Manager, now: Time) {
    forall tm :: tm in m.timers ==>
      m.timers[tm].expected <= m.timers[tm].fireAt && (m.timers[tm].status.Fired? ==> m.timers[tm].fireAt <= now)
  }

  ghost predicate Expiry(s: State) {
    && Locking(s)
    && TimersFit(s.mgr, s.now)
    && (forall t :: t in s.threads ==> TaskFits(s.threads[t]) && ExpiryFits(s, t))
  }

  lemma AdvanceFitsTask(s: State, t: Tid, answer: Answer, unused: nat)
    requires CanAdvance(s, t, answer, unused) && TaskFits(s.threads[t])
    ensures TaskFits(AdvanceThread(s, t, answer, unused).threads[t])
  {
    if s.threads[t].task.Serve? {
      RequestFitsTask(s, s.threads[t], answer);
    } else {
      OtherFitsTask(s, s.threads[t], answer);
    }
  }

  lemma RequestFitsTask(s: State, th: Thread, answer: Answer)
    requires th.task.Serve? && TaskFits(th)
    ensures TaskFits(NextThread(s, th, answer))
  {
  }

  lemma OtherFitsTask(s: State, th: Thread, answer: Answer)
    requires !th.task.Serve? && TaskFits(th)
    ensures TaskFits(NextThread(s, th, answer))
  {
  }

  lemma AdvanceFitsExpiry(s: State, t: Tid, answer: Answer, unused: nat)
    requires CanAdvance(s, t, answer, unused)
    requires ThreadLocks(s, t) && OwnerIsCurrent(s, t) && TaskFits(s.threads[t]) && ExpiryFits(s, t)
    requires s.threads[t].id in s.sandboxes ==> s.sandboxes[s.threads[t].id] in s.entries
    ensures ExpiryFits(AdvanceThread(s, t, answer, unused), t)
  {
  }

  lemma RetryingStaysPut(s: State, step: Step, t: Tid)
    requires Locking(s) && Enabled(s, step) && t in s.threads && !IsStepOf(step, t) && s.threads[t].pc.Retrying?
    ensures var e, s' := s.threads[t].pc.e, Apply(s, step); e in s.entries && e in s'.entries && s'.entries[e] == s.entries[e]
  {
    assert ThreadLocks(s, t);
    OwnedEntryIsUndisturbed(s, step, t);
  }

  lemma OthersFit(s: State, step: Step, t: Tid)
    requires Enabled(s, step) && t in s.threads && !IsStepOf(step, t)
    requires TaskFits(s.threads[t]) && ExpiryFits(s, t)
    requires s.threads[t].pc.Retrying? ==>
               var e, s' := s.threads[t].pc.e, Apply(s, step); e in s.entries && e in s'.entries && s'.entries[e] == s.entries[e]
    ensures t in Apply(s, step).threads && TaskFits(Apply(s, step).threads[t]) && ExpiryFits(Apply(s, step), t)
  {
    var s' := Apply(s, step);
    assert s'.threads[t] == s.threads[t] && s.now <= s'.now;
  }

  lemma PerformKeepsTimersFit(m: Manager, id: Id, call: Call, tm: TimerId, now: Time)
    requires TimersFit(m, now) && (call.ScheduleAt? ==> call.expected <= call.fireAt)
    ensures TimersFit(Perform(m, id, call, tm), now)
  {
  }

  lemma TimersStep(s: State, step: Step)
    requires TimersFit(s.mgr, s.now) && Enabled(s, step)
    requires step.Advance? ==> ExpiryFits(s, step.t)
    ensures TimersFit(Apply(s, step).mgr, Apply(s, step).now)
  {
    if step.Advance? {
      var th := s.threads[step.t];
      PerformKeepsTimersFit(s.mgr, th.id, TimerCall(s, th), step.unused, s.now);
    }
  }

  lemma ExpiryStep(s: State, step: Step)
    requires Expiry(s) && Enabled(s, step)
    ensures Expiry(Apply(s, step))
  {
    var s' := Apply(s, step);
    LockingStep(s, step);
    TimersStep(s, step);
    forall t | t in s'.threads ensures TaskFits(s'.threads[t]) && ExpiryFits(s', t) {
      if t in s.threads {
        assert TaskFits(s.threads[t]) && ExpiryFits(s, t) && ThreadLocks(s, t) && OwnerIsCurrent(s, t);
        if IsStepOf(step, t) {
          AdvanceFitsTask(s, t, step.answer, step.unused);
          AdvanceFitsExpiry(s, t, step.answer, step.unused);
        } else {
          if s.threads[t].pc.Retrying? {
            RetryingStaysPut(s, step, t);
          }
          OthersFit(s, step, t);
        }
      }
    }
  }

  lemma {:induction false} ExpiryOnRuns(s: State, steps: seq<Step>, g: Guards, end: State)
    requires Expiry(s) && Run(s, steps, g, end)
    ensures Expiry(end)
    decreases |steps|
  {
    if steps != [] {
      ExpiryStep(s, steps[0]);
      ExpiryOnRuns(Apply(s, steps[0]), steps[1..], g, end);
    }
  }

  /** No stale expiry: in every reachable state where a callback is inside a runtime pause or a runtime delete, the stored
      record is running, carries the deadline the callback was made for, that deadline has passed, and the call is the one
      the record's policy asks for: a required delete to kill, and a pause, or the best-effort delete after one that failed
      for a missing sandbox, to pause. */
  lemma {:induction false} ExpiryIsNeverStale(init: State, steps: seq<Step>, s: State, t: Tid)
    requires Init(init) && Run(init, steps, NO_GUARDS, s)
    requires t in s.threads && s.threads[t].task.Expire?
    requires s.threads[t].pc.CallingPause? || s.threads[t].pc.CallingDelete?
    ensures GetRecord(s, s.threads[t].id).Some?
    ensures var rec := GetRecord(s, s.threads[t].id).value;
            && rec.state == Running
            && rec.endAt == s.threads[t].task.expected
            && rec.endAt <= s.now
            && rec.onTimeout == if s.threads[t].pc.CallingDelete? && s.threads[t].pc.required then KillOnTimeout
                                else PauseOnTimeout
  {
    ExpiryOnRuns(init, steps, NO_GUARDS, s);
    assert OwnerIsCurrent(s, t) && ExpiryFits(s, t) && ThreadLocks(s, t);
  }
}
