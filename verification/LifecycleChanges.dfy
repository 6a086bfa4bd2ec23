/** What may change a stored record, and to what: every change is the doing of one request, of one expiry or of the runtime's
    report (internal/gateway/gateway_callbacks.go, internal/gateway/sandbox_deadlines.go). */
module LifecycleChanges {
  import opened Wrappers
  import opened SandboxRecords
  import opened Deadlines
  import opened Lifecycle
  import opened LifecycleLocking
  import opened LifecycleRuns
  import opened LifecycleExpiry

  /** The time a request asks for. */
  function Asked(request: Request): nat {
    match request
    case Resume(timeout) => timeout * SECOND
    case Connect(timeout) => timeout * SECOND
    case SetTimeout(timeout) => timeout * SECOND
    case Refresh(duration) => duration * SECOND
    case _ => 0
  }

  /** What a thread that is about to change a record has made sure of. */
  predicate RequestFits(th: Thread, now: Time) {
    match th.pc
    case CallingPause(_, rec) => rec.state == Running && (th.task.Serve? ==> th.task.request.PauseNow?)
    case MarkingPaused(_, rec) => rec.state == Running && (th.task.Serve? ==> th.task.request.PauseNow?)
    case CallingResume(_, rec) =>
      rec.state == Paused && th.task.Serve? && (th.task.request.Resume? || th.task.request.Connect?)
    case Retiming(_, rec, how, endAt) => th.task.Serve? && RetimeFits(th.task.request, rec, how, endAt, now)
    case _ => true
  }

  predicate RetimeFits(request: Request, rec: Record, how: Retime, endAt: Time, now: Time) {
    match request
    case Resume(_) => how == Restart && rec.state == Paused && endAt <= now + Asked(request)
    case Connect(_) =>
      if rec.state == Paused
      then how == Restart && rec.endAt <= endAt && (endAt == rec.endAt || endAt <= now + Asked(request))
      else how == Extend && endAt <= now + Asked(request)
    case SetTimeout(_) => how == Exact && endAt <= now + Asked(request)
    case Refresh(_) => how == Extend && endAt <= now + Asked(request)
    case _ => false
  }

  ghost predicate RequestsFit(s: State) {
    && Expiry(s)
    && (forall t :: t in s.threads ==> RequestFits(s.threads[t], s.now))
  }

  lemma NextRequestFits(s: State, t: Tid, answer: Answer, unused: nat)
    requires CanAdvance(s, t, answer, unused) && TaskFits(s.threads[t]) && RequestFits(s.threads[t], s.now)
    ensures RequestFits(NextThread(s, s.threads[t], answer), s.now)
  {
  }

  lemma WaitingFits(s: State, step: Step, t: Tid)
    requires Enabled(s, step) && t in s.threads && !IsStepOf(step, t) && RequestFits(s.threads[t], s.now)
    ensures t in Apply(s, step).threads && RequestFits(Apply(s, step).threads[t], Apply(s, step).now)
  {
  }

  lemma NewcomerFits(s: State, step: Step, t: Tid)
    requires Enabled(s, step) && t !in s.threads && t in Apply(s, step).threads
    ensures RequestFits(Apply(s, step).threads[t], Apply(s, step).now)
  {
  }

  lemma RequestsStep(s: State, step: Step)
    requires RequestsFit(s) && Enabled(s, step)
    ensures RequestsFit(Apply(s, step))
  {
    ExpiryStep(s, step);
    forall t | t in Apply(s, step).threads ensures RequestFits(Apply(s, step).threads[t], Apply(s, step).now) {
      if IsStepOf(step, t) {
        NextRequestFits(s, t, step.answer, step.unused);
      } else if t in s.threads {
        WaitingFits(s, step, t);
      } else {
        NewcomerFits(s, step, t);
      }
    }
  }

  lemma {:induction false} RequestsOnRuns(s: State, steps: seq<Step>, g: Guards, end: State)
    requires RequestsFit(s) && Run(s, steps, g, end)
    ensures RequestsFit(end)
    decreases |steps|
  {
    if steps != [] {
      RequestsStep(s, steps[0]);
      RequestsOnRuns(Apply(s, steps[0]), steps[1..], g, end);
    }
  }

  // ---------------------------------------------------------------- what a change can be

  /** Thread `th` turns record `was` into `rec`: the runtime's report of a state; a pause, asked for or due to expiry; a
      resume of a paused record; or a new deadline, set outright or extended. */
  predicate Accounts(th: Thread, was: Record, rec: Record, now: Time) {
    match th.pc
    case StoringInspection(_, _, state) => rec == was.(state := state)
    case MarkingPaused(_, _) =>
      && was.state == Running && rec == was.(state := Paused)
      && (match th.task
          case Serve(request) => request.PauseNow?
          case Expire(_, expected) => was.endAt == expected && expected <= now && was.onTimeout == PauseOnTimeout
          case Provision => false)
    case Retiming(_, _, _, _) =>
      && th.task.Serve?
      && (match th.task.request
         case Resume(_) =>
           was.state == Paused && rec == was.(state := Running, endAt := rec.endAt) && rec.endAt <= now + Asked(th.task.request)
         case Connect(_) =>
           && (was.state == Paused ==> rec.state == Running) && rec == was.(state := rec.state, endAt := rec.endAt)
           && (was.state != Paused ==> rec.state == was.state)
           && was.endAt <= rec.endAt && (rec.endAt == was.endAt || rec.endAt <= now + Asked(th.task.request))
         case SetTimeout(_) => rec == was.(endAt := rec.endAt) && rec.endAt <= now + Asked(th.task.request)
         case Refresh(_) =>
           && rec == was.(endAt := rec.endAt) && was.endAt <= rec.endAt
           && (rec.endAt == was.endAt || rec.endAt <= now + Asked(th.task.request))
         case _ => false)
    case _ => false
  }

  lemma AdvanceAccounts(s: State, t: Tid, answer: Answer, unused: nat)
    requires CanAdvance(s, t, answer, unused)
    requires RequestFits(s.threads[t], s.now) && TaskFits(s.threads[t]) && ExpiryFits(s, t)
    requires Writes(s, s.threads[t]) && GetRecord(s, s.threads[t].id) == Snapshot(s.threads[t].pc)
    ensures NextPc(s, s.threads[t], answer).Syncing?
    ensures Accounts(s.threads[t], GetRecord(s, s.threads[t].id).value, NextPc(s, s.threads[t], answer).rec, s.now)
  {
  }

  /** Only the thread that owns the entry writes its record, and only as it gave account. */
  lemma AdvanceChanges(s: State, t: Tid, answer: Answer, unused: nat, id: Id)
    requires RequestsFit(s) && CanAdvance(s, t, answer, unused)
    requires GetRecord(s, id).Some? && GetRecord(AdvanceThread(s, t, answer, unused), id).Some?
    requires GetRecord(AdvanceThread(s, t, answer, unused), id) != GetRecord(s, id)
    ensures s.threads[t].id == id
    ensures Accounts(s.threads[t], GetRecord(s, id).value, GetRecord(AdvanceThread(s, t, answer, unused), id).value, s.now)
  {
    var th := s.threads[t];
    assert RequestFits(th, s.now) && TaskFits(th) && ExpiryFits(s, t) && OwnerIsCurrent(s, t) && ThreadLocks(s, t);
    WritesOnlyOwn(s, t, answer, unused, id);
    AdvanceAccounts(s, t, answer, unused);
  }

  lemma WritesOnlyOwn(s: State, t: Tid, answer: Answer, unused: nat, id: Id)
    requires Locking(s) && CanAdvance(s, t, answer, unused)
    requires GetRecord(s, id).Some? && GetRecord(AdvanceThread(s, t, answer, unused), id).Some?
    requires GetRecord(AdvanceThread(s, t, answer, unused), id) != GetRecord(s, id)
    ensures s.threads[t].id == id && Writes(s, s.threads[t])
    ensures NextPc(s, s.threads[t], answer).Syncing?
    ensures GetRecord(AdvanceThread(s, t, answer, unused), id) == Some(NextPc(s, s.threads[t], answer).rec)
  {
  }

  /** In every run, a record that stays in the store changes only by a step of a thread on its ID, and the change is one that
      the thread's request, the expiry of its deadline or the runtime's report accounts for. */
  lemma {:induction false} ChangesAreAccountedFor(init: State, steps: seq<Step>, s: State, step: Step, id: Id)
    requires Init(init) && Run(init, steps, NO_GUARDS, s) && Enabled(s, step)
    requires GetRecord(s, id).Some? && GetRecord(Apply(s, step), id).Some?
    requires GetRecord(Apply(s, step), id) != GetRecord(s, id)
    ensures step.Advance? && s.threads[step.t].id == id
    ensures Accounts(s.threads[step.t], GetRecord(s, id).value, GetRecord(Apply(s, step), id).value, s.now)
  {
    RequestsOnRuns(init, steps, NO_GUARDS, s);
    assert step.Advance? by {
      if !step.Advance? {
        EnvironmentKeepsRecord(s, step, id);
      }
    }
    AdvanceChanges(s, step.t, step.answer, step.unused, id);
  }

  lemma EnvironmentKeepsRecord(s: State, step: Step, id: Id)
    requires Enabled(s, step) && !step.Advance? && GetRecord(s, id).Some?
    ensures GetRecord(Apply(s, step), id) == GetRecord(s, id)
  {
  }

  /** Connecting, refreshing, pausing and inspecting never bring a deadline forward: only set-timeout and resume do. And a
      paused sandbox runs again only by resume or connect, or because the runtime says so. */
  lemma {:induction false} NoRenewalShortens(init: State, steps: seq<Step>, s: State, step: Step, id: Id)
    requires Init(init) && Run(init, steps, NO_GUARDS, s) && Enabled(s, step)
    requires GetRecord(s, id).Some? && GetRecord(Apply(s, step), id).Some?
    ensures GetRecord(Apply(s, step), id).value.endAt < GetRecord(s, id).value.endAt ==>
              && step.Advance? && s.threads[step.t].id == id && s.threads[step.t].task.Serve?
              && (s.threads[step.t].task.request.SetTimeout? || s.threads[step.t].task.request.Resume?)
    ensures GetRecord(s, id).value.state == Paused && GetRecord(Apply(s, step), id).value.state == Running ==>
              && step.Advance? && s.threads[step.t].id == id
              && (s.threads[step.t].pc.StoringInspection?
                  || (s.threads[step.t].task.Serve?
                      && (s.threads[step.t].task.request.Resume? || s.threads[step.t].task.request.Connect?)))
    ensures GetRecord(Apply(s, step), id).value.onTimeout == GetRecord(s, id).value.onTimeout
    ensures GetRecord(Apply(s, step), id).value.createdAt == GetRecord(s, id).value.createdAt
  {
    if GetRecord(Apply(s, step), id) != GetRecord(s, id) {
      ChangesAreAccountedFor(init, steps, s, step, id);
    }
  }

  // ---------------------------------------------------------------- waiting does not use up the timeout

  /** The thread has not computed its new deadline, or computed one no earlier than `since` plus what was asked for. */
  predicate CountsFrom(th: Thread, since: Time) {
    th.pc.Retiming? && th.task.Serve? ==> th.pc.endAt >= since + Asked(th.task.request)
  }

  lemma NextCountsFrom(s: State, t: Tid, answer: Answer, unused: nat, since: Time)
    requires CanAdvance(s, t, answer, unused) && CountsFrom(s.threads[t], since) && since <= s.now
    requires RequestFits(s.threads[t], s.now)
    ensures CountsFrom(NextThread(s, s.threads[t], answer), since)
  {
  }

  lemma {:induction false} CountsFromOnRuns(s: State, steps: seq<Step>, g: Guards, end: State, t: Tid, since: Time)
    requires RequestsFit(s) && Run(s, steps, g, end) && since <= s.now && t in s.threads && CountsFrom(s.threads[t], since)
    ensures t in end.threads && CountsFrom(end.threads[t], since) && end.threads[t].task == s.threads[t].task
    decreases |steps|
  {
    if steps != [] {
      var step := steps[0];
      if IsStepOf(step, t) {
        NextCountsFrom(s, t, step.answer, step.unused, since);
      } else {
        StaysPut(s, step, t);
      }
      ClockRuns(s, step);
      RequestsStep(s, step);
      CountsFromOnRuns(Apply(s, step), steps[1..], g, end, t, since);
    }
  }

  lemma StaysPut(s: State, step: Step, t: Tid)
    requires Enabled(s, step) && t in s.threads && !IsStepOf(step, t)
    ensures t in Apply(s, step).threads && Apply(s, step).threads[t] == s.threads[t]
  {
  }

  lemma ClockRuns(s: State, step: Step)
    requires Enabled(s, step)
    ensures s.now <= Apply(s, step).now
  {
  }

  /** Waiting for the lock, reconciling and resuming do not use up the time a request asks for: the deadline it is about
      to store is no earlier than that time counted from any moment before it was computed, and no later than
      counted from now, unless connecting keeps a later one. */
  lemma {:induction false} WaitingIsFree(
      init: State, before: seq<Step>, s: State, after: seq<Step>, end: State, t: Tid)
    requires Init(init) && Run(init, before, NO_GUARDS, s) && Run(s, after, NO_GUARDS, end)
    requires t in s.threads && s.threads[t].task.Serve? && !s.threads[t].pc.Retiming?
    requires t in end.threads && end.threads[t].pc.Retiming?
    ensures end.threads[t].task == s.threads[t].task
    ensures s.now + Asked(s.threads[t].task.request) <= end.threads[t].pc.endAt
    ensures || end.threads[t].pc.endAt <= end.now + Asked(s.threads[t].task.request)
            || (end.threads[t].pc.how == Restart && s.threads[t].task.request.Connect?
                && Some(end.threads[t].pc.endAt) == DeadlineOf(end, end.threads[t].id))
  {
    RequestsOnRuns(init, before, NO_GUARDS, s);
    RequestsOnRuns(s, after, NO_GUARDS, end);
    CountsFromOnRuns(s, after, NO_GUARDS, end, t, s.now);
    assert RequestFits(end.threads[t], end.now) && OwnerIsCurrent(end, t) && ThreadLocks(end, t);
  }

  function DeadlineOf(s: State, id: Id): Option<Time> {
    if GetRecord(s, id).Some? then Some(GetRecord(s, id).value.endAt) else None
  }
}
