/** What the answer to a request means, in every run: what has become of the record, and what the runtime has said
    (internal/gateway/gateway_callbacks.go). */
module LifecycleRequests {
  import opened Wrappers
  import opened SandboxRecords
  import opened Deadlines
  import opened Lifecycle
  import opened LifecycleLocking
  import opened LifecycleRuns
  import opened LifecycleExpiry
  import opened LifecycleTimers
  import opened LifecycleChanges

  // ---------------------------------------------------------------- what the runtime has said

  predicate AsksRuntime(pc: Pc) {
    pc.Inspecting? || pc.CallingDelete? || pc.CallingPause? || pc.CallingResume?
  }

  /** The runtime's answers to thread `t` in a run. */
  ghost function Heard(s: State, steps: seq<Step>, t: Tid): seq<Answer>
    decreases |steps|
  {
    if steps == [] || !Enabled(s, steps[0]) then []
    else
      var step := steps[0];
      (if IsStepOf(step, t) && AsksRuntime(s.threads[t].pc) then [step.answer] else [])
      + Heard(Apply(s, step), steps[1..], t)
  }

  // ---------------------------------------------------------------- what an answer says

  predicate IsConflict(request: Request, was: Record) {
    (request.PauseNow? && was.state != Running) || (request.Resume? && was.state != Paused)
  }

  predicate NeedsRuntime(request: Request, was: Record) {
    || request.Kill? || (request.PauseNow? && was.state == Running)
    || ((request.Resume? || request.Connect?) && was.state == Paused)
  }

  /** The outcome of a request that acts on the record `was`: a conflict for the wrong state, an error if the runtime, which
      is asked at most once, has failed, and success otherwise. */
  predicate Decides(request: Request, was: Record, heard: seq<Answer>, outcome: Outcome) {
    && (outcome == Conflict <==> IsConflict(request, was))
    && (outcome == Error <==> heard == [Fails])
    && (outcome == Ok <==> !IsConflict(request, was) && heard == if NeedsRuntime(request, was) then [Succeeds] else [])
    && outcome != NotFound
  }

  predicate LaterOf(end: Time, a: Time, b: Time) {
    a <= end && b <= end && (end == a || end == b)
  }

  /** What success, with times counted from `at`, has made of the record `was`. A kill leaves none. */
  predicate Achieves(request: Request, was: Record, now: Record, at: Time) {
    match request
    case Get => now == was
    case Kill => false
    case PauseNow => now == was.(state := Paused)
    case Resume(timeout) => now == was.(state := Running, endAt := at + timeout * SECOND)
    case Connect(timeout) =>
      && now == was.(state := if was.state == Paused then Running else was.state, endAt := now.endAt)
      && LaterOf(now.endAt, was.endAt, at + timeout * SECOND)
    case SetTimeout(timeout) => now == was.(endAt := at + timeout * SECOND)
    case Refresh(duration) => now == was.(endAt := now.endAt) && LaterOf(now.endAt, was.endAt, at + duration * SECOND)
  }

  ghost predicate Achieved(request: Request, was: Record, now: Record, since: Time, until: Time) {
    exists at :: since <= at <= until && Achieves(request, was, now, at)
  }

  /** The entry is no longer that of the ID. */
  ghost predicate Gone(s: State, id: Id, e: Ref) {
    e in s.entries && (id in s.sandboxes ==> s.sandboxes[id] != e)
  }

  // ---------------------------------------------------------------- from acting to the answer

  /** Where a thread is that began to act on `was` at time `since`, and has heard these answers since. */
  ghost predicate Progress(th: Thread, current: Option<Record>, e: Ref, was: Record, since: Time, now: Time, heard: seq<Answer>) {
    th.task.Serve?
    && var request := th.task.request;
       match th.pc
       case Acting(e', rec) => e' == e && rec == was && current == Some(was) && heard == []
       case CallingDelete(e', rec, required) => e' == e && required && request.Kill? && current == Some(was) && heard == []
       case Dropping(e', rec, required) => e' == e && required && request.Kill? && current == Some(was) && heard == [Succeeds]
       case Cancelling(e', outcome) => e' == e && th.dropped && request.Kill? && outcome == Ok && heard == [Succeeds]
       case CallingPause(e', rec) =>
         e' == e && request.PauseNow? && was.state == Running && current == Some(was) && heard == []
       case MarkingPaused(e', rec) =>
         e' == e && request.PauseNow? && was.state == Running && current == Some(was) && heard == [Succeeds]
       case CallingResume(e', rec) =>
         && e' == e && (request.Resume? || request.Connect?) && was.state == Paused && rec == was
         && current == Some(was) && heard == []
       case Retiming(e', rec, how, endAt) =>
         && e' == e && current == Some(was) && Undisputed(request, was, heard)
         && Achieved(request, was, Retimed(was, how, endAt), since, now)
       case Syncing(e', rec, next) =>
         && e' == e && next == ThenAnswer(Ok) && current == Some(rec) && Undisputed(request, was, heard)
         && !request.Kill? && Achieved(request, was, rec, since, now)
       case Releasing(e', answer) =>
         && e' == e && answer.Some? && Decides(request, was, heard, answer.value)
         && (answer.value != Ok ==> !th.dropped && current == Some(was))
         && (answer.value == Ok && request.Kill? ==> th.dropped)
         && (answer.value == Ok && !request.Kill? ==>
               !th.dropped && current.Some? && Achieved(request, was, current.value, since, now))
       case Done(outcome) => Decides(request, was, heard, outcome)
       case _ => false
  }

  predicate Undisputed(request: Request, was: Record, heard: seq<Answer>) {
    !IsConflict(request, was) && heard == if NeedsRuntime(request, was) then [Succeeds] else []
  }

  ghost predicate Acts(s: State, t: Tid, e: Ref, was: Record, since: Time, heard: seq<Answer>) {
    && t in s.threads && since <= s.now
    && Progress(s.threads[t], GetRecord(s, s.threads[t].id), e, was, since, s.now, heard)
    && (s.threads[t].dropped && !s.threads[t].pc.Done? ==> Gone(s, s.threads[t].id, e))
  }

  /** What one step of the thread does to its own record. */
  lemma OwnRecord(s: State, t: Tid, answer: Answer, unused: nat)
    requires CanAdvance(s, t, answer, unused) && OwnerIsCurrent(s, t) && ThreadLocks(s, t)
    requires OwnedEntry(s.threads[t]).Some? && !s.threads[t].pc.Storing?
    ensures var s', th := AdvanceThread(s, t, answer, unused), s.threads[t];
            && (th.pc.Dropping? ==> th.id !in s'.sandboxes)
            && (!th.pc.Dropping? ==>
                  GetRecord(s', th.id) == if Writes(s, th) && NextPc(s, th, answer).Syncing?
                                          then Some(NextPc(s, th, answer).rec) else GetRecord(s, th.id))
  {
  }

  function Told(pc: Pc, heard: seq<Answer>, answer: Answer): seq<Answer> {
    if AsksRuntime(pc) then heard + [answer] else heard
  }

  lemma ActingDecides(s: State, th: Thread, e: Ref, was: Record, since: Time, heard: seq<Answer>)
    requires th.pc.Acting? && Progress(th, GetRecord(s, th.id), e, was, since, s.now, heard) && !th.dropped && since <= s.now
    ensures Progress(NextThread(s, th, Succeeds), GetRecord(s, th.id), e, was, since, s.now, heard)
  {
    var request := th.task.request;
    var next := NextPc(s, th, Succeeds);
    if next.Retiming? {
      assert Achieves(request, was, Retimed(was, next.how, next.endAt), s.now);
    }
    assert request.Get? ==> Achieves(request, was, was, s.now);
  }

  /** A request acts with the runtime's answer, or writes the record, or gives its answer. */
  lemma HeardDecides(s: State, th: Thread, answer: Answer, e: Ref, was: Record, since: Time, heard: seq<Answer>)
    requires th.pc.CallingDelete? || th.pc.CallingPause? || th.pc.CallingResume?
    requires answer == Succeeds || answer == Fails
    requires Progress(th, GetRecord(s, th.id), e, was, since, s.now, heard) && !th.dropped && since <= s.now
    ensures Progress(NextThread(s, th, answer), GetRecord(s, th.id), e, was, since, s.now, heard + [answer])
  {
    assert heard + [answer] == [answer];
    var next := NextPc(s, th, answer);
    if next.Retiming? {
      assert Achieves(th.task.request, was, Retimed(was, next.how, next.endAt), s.now);
    }
  }

  lemma WritingDecides(s: State, th: Thread, answer: Answer, e: Ref, was: Record, since: Time, heard: seq<Answer>)
    requires (th.pc.MarkingPaused? || th.pc.Retiming?) && !th.dropped && since <= s.now
    requires Progress(th, GetRecord(s, th.id), e, was, since, s.now, heard)
    ensures Writes(s, th) && NextPc(s, th, answer).Syncing?
    ensures Progress(NextThread(s, th, answer), Some(NextPc(s, th, answer).rec), e, was, since, s.now, heard)
  {
    if th.pc.MarkingPaused? {
      assert Achieves(th.task.request, was, was.(state := Paused), s.now);
    }
  }

  lemma OtherwiseDecides(s: State, th: Thread, answer: Answer, e: Ref, was: Record, since: Time, heard: seq<Answer>)
    requires th.pc.Syncing? || th.pc.Cancelling? || th.pc.Releasing?
    requires Progress(th, GetRecord(s, th.id), e, was, since, s.now, heard) && (th.pc.Syncing? ==> !th.dropped)
    ensures Progress(NextThread(s, th, answer), GetRecord(s, th.id), e, was, since, s.now, heard)
  {
  }

  lemma DroppingDecides(s: State, th: Thread, answer: Answer, e: Ref, was: Record, since: Time, heard: seq<Answer>)
    requires th.pc.Dropping? && Progress(th, GetRecord(s, th.id), e, was, since, s.now, heard)
    ensures Progress(NextThread(s, th, answer), None, e, was, since, s.now, heard)
  {
  }

  lemma GoneStays(s: State, t: Tid, answer: Answer, unused: nat, id: Id, e: Ref)
    requires CanAdvance(s, t, answer, unused) && Gone(s, id, e)
    ensures Gone(AdvanceThread(s, t, answer, unused), id, e)
  {
  }

  lemma OwnStepActs(s: State, t: Tid, answer: Answer, unused: nat, e: Ref, was: Record, since: Time, heard: seq<Answer>)
    requires CanAdvance(s, t, answer, unused) && OwnerIsCurrent(s, t) && ThreadLocks(s, t)
    requires Acts(s, t, e, was, since, heard)
    ensures Acts(AdvanceThread(s, t, answer, unused), t, e, was, since, Told(s.threads[t].pc, heard, answer))
  {
    var s', th := AdvanceThread(s, t, answer, unused), s.threads[t];
    if th.dropped {
      GoneStays(s, t, answer, unused, th.id, e);
      OtherwiseDecides(s, th, answer, e, was, since, heard);
    } else {
      OwnRecord(s, t, answer, unused);
      if th.pc.Acting? {
        ActingDecides(s, th, e, was, since, heard);
      } else if AsksRuntime(th.pc) {
        HeardDecides(s, th, answer, e, was, since, heard);
      } else if th.pc.Dropping? {
        DroppingDecides(s, th, answer, e, was, since, heard);
      } else if th.pc.MarkingPaused? || th.pc.Retiming? {
        WritingDecides(s, th, answer, e, was, since, heard);
      } else {
        OtherwiseDecides(s, th, answer, e, was, since, heard);
      }
    }
  }

  lemma WaitingProgress(th: Thread, current: Option<Record>, later: Option<Record>, e: Ref, was: Record, since: Time,
      now: Time, then_: Time, heard: seq<Answer>)
    requires Progress(th, current, e, was, since, now, heard) && now <= then_
    requires later == current || th.pc.Done? || (th.dropped && (th.pc.Cancelling? || th.pc.Releasing?))
    ensures Progress(th, later, e, was, since, then_, heard)
  {
  }

  lemma StillGone(s: State, step: Step, id: Id, e: Ref)
    requires Enabled(s, step) && Gone(s, id, e)
    ensures Gone(Apply(s, step), id, e)
  {
  }

  lemma OtherStepActs(s: State, step: Step, t: Tid, e: Ref, was: Record, since: Time, heard: seq<Answer>)
    requires Locking(s) && Enabled(s, step) && !IsStepOf(step, t) && Acts(s, t, e, was, since, heard)
    ensures Acts(Apply(s, step), t, e, was, since, heard)
  {
    var s', th := Apply(s, step), s.threads[t];
    StaysPut(s, step, t);
    ClockRuns(s, step);
    assert ThreadLocks(s, t) && OwnerIsCurrent(s, t);
    if th.pc.Done? {
    } else if th.dropped {
      StillGone(s, step, th.id, e);
    } else {
      OwnedEntryIsUndisturbed(s, step, t);
    }
    WaitingProgress(th, GetRecord(s, th.id), GetRecord(s', th.id), e, was, since, s.now, s'.now, heard);
  }

  lemma {:induction false} ActsOnRuns(s: State, steps: seq<Step>, end: State, t: Tid, e: Ref, was: Record, since: Time,
      heard: seq<Answer>)
    requires Locking(s) && Run(s, steps, NO_GUARDS, end) && Acts(s, t, e, was, since, heard)
    ensures Acts(end, t, e, was, since, heard + Heard(s, steps, t))
    decreases |steps|
  {
    if steps == [] {
      assert heard + [] == heard;
    } else {
      var step := steps[0];
      var next := if IsStepOf(step, t) then Told(s.threads[t].pc, heard, step.answer) else heard;
      if IsStepOf(step, t) {
        assert OwnerIsCurrent(s, t) && ThreadLocks(s, t);
        OwnStepActs(s, t, step.answer, step.unused, e, was, since, heard);
      } else {
        OtherStepActs(s, step, t, e, was, since, heard);
      }
      LockingStep(s, step);
      ActsOnRuns(Apply(s, step), steps[1..], end, t, e, was, since, next);
      HeardStep(s, steps, t, heard);
    }
  }

  lemma HeardStep(s: State, steps: seq<Step>, t: Tid, heard: seq<Answer>)
    requires steps != [] && Enabled(s, steps[0]) && t in s.threads
    ensures heard + Heard(s, steps, t) ==
              (if IsStepOf(steps[0], t) then Told(s.threads[t].pc, heard, steps[0].answer) else heard)
              + Heard(Apply(s, steps[0]), steps[1..], t)
  {
    Regroup(heard, if IsStepOf(steps[0], t) && AsksRuntime(s.threads[t].pc) then [steps[0].answer] else [],
            Heard(Apply(s, steps[0]), steps[1..], t));
    assert heard + [] == heard;
  }

  lemma Regroup(a: seq<Answer>, b: seq<Answer>, c: seq<Answer>)
    ensures a + (b + c) == a + b + c
  {
  }

  /** A request that has got its record `was` and acts on it, in any run to its answer: it conflicts exactly if the record is in
      the wrong state, fails exactly if the runtime, asked once if it needs to be, has failed, and succeeds in all other
      cases. While it still has the lock, success means that the record is what was asked for, with times counted from
      a moment in between, or for a kill that the entry is gone; and otherwise the record is as it was. */
  lemma {:induction false} AnswersMean(init: State, before: seq<Step>, s: State, after: seq<Step>, end: State, t: Tid)
    requires Init(init) && Run(init, before, NO_GUARDS, s) && Run(s, after, NO_GUARDS, end)
    requires t in s.threads && s.threads[t].task.Serve? && s.threads[t].pc.Acting?
    ensures t in end.threads && end.threads[t].task == s.threads[t].task && end.threads[t].id == s.threads[t].id
    ensures GetRecord(s, s.threads[t].id) == Some(s.threads[t].pc.rec)
    ensures Answers(end, t, s.threads[t].pc.e, s.threads[t].pc.rec, s.now, Heard(s, after, t))
  {
    LockingOnRuns(init, before, NO_GUARDS, s);
    StartsToAct(s, t);
    AnswersFrom(s, after, end, t, s.threads[t].pc.e, s.threads[t].pc.rec);
  }

  lemma AnswersFrom(s: State, after: seq<Step>, end: State, t: Tid, e: Ref, was: Record)
    requires Locking(s) && Run(s, after, NO_GUARDS, end) && Acts(s, t, e, was, s.now, [])
    ensures t in end.threads && end.threads[t].task == s.threads[t].task && end.threads[t].id == s.threads[t].id
    ensures Answers(end, t, e, was, s.now, Heard(s, after, t))
  {
    ActsOnRuns(s, after, end, t, e, was, s.now, []);
    assert [] + Heard(s, after, t) == Heard(s, after, t);
    SameTask(s, after, end, t);
  }

  /** What there is to say of a request's answer, if it has one. */
  ghost predicate Answers(s: State, t: Tid, e: Ref, was: Record, since: Time, heard: seq<Answer>)
    requires t in s.threads && s.threads[t].task.Serve?
  {
    var request, pc, current := s.threads[t].task.request, s.threads[t].pc, GetRecord(s, s.threads[t].id);
    && (pc.Done? ==> Decides(request, was, heard, pc.outcome))
    && (pc.Releasing? ==>
          && pc.answer.Some? && Decides(request, was, heard, pc.answer.value)
          && (pc.answer.value != Ok ==> current == Some(was))
          && (pc.answer.value == Ok && request.Kill? ==> Gone(s, s.threads[t].id, e))
          && (pc.answer.value == Ok && !request.Kill? ==>
                current.Some? && Achieved(request, was, current.value, since, s.now)))
  }

  lemma StartsToAct(s: State, t: Tid)
    requires Locking(s) && t in s.threads && s.threads[t].task.Serve? && s.threads[t].pc.Acting?
    ensures GetRecord(s, s.threads[t].id) == Some(s.threads[t].pc.rec)
    ensures Acts(s, t, s.threads[t].pc.e, s.threads[t].pc.rec, s.now, [])
  {
    assert OwnerIsCurrent(s, t) && ThreadLocks(s, t);
  }

  lemma {:induction false} SameTask(s: State, steps: seq<Step>, end: State, t: Tid)
    requires Run(s, steps, NO_GUARDS, end) && t in s.threads
    ensures t in end.threads && end.threads[t].task == s.threads[t].task && end.threads[t].id == s.threads[t].id
    decreases |steps|
  {
    if steps != [] {
      TaskStays(s, steps[0], t);
      SameTask(Apply(s, steps[0]), steps[1..], end, t);
    }
  }

  lemma TaskStays(s: State, step: Step, t: Tid)
    requires Enabled(s, step) && t in s.threads
    ensures t in Apply(s, step).threads && Apply(s, step).threads[t].task == s.threads[t].task
    ensures Apply(s, step).threads[t].id == s.threads[t].id
  {
  }

  // ---------------------------------------------------------------- from the check to acting

  /** A kill is due at `now`. */
  predicate Due(record: Record, now: Time) {
    record.state == Running && record.onTimeout == KillOnTimeout && record.endAt <= now
  }

  /** The record that a request acts on: the stored one, or with an inspector the one with the state reported. */
  predicate Finds(was: Record, inspector: bool, heard: seq<Answer>, found: Record) {
    if inspector then
      && |heard| == 1 && heard[0].Reports?
      && found == was.(state := if heard[0].state == Blank then was.state else heard[0].state)
    else heard == [] && found == was
  }

  /** Why a request is not let act: its record is due, the runtime has lost the sandbox, or cannot tell. */
  predicate TurnsAway(was: Record, inspector: bool, heard: seq<Answer>, now: Time, outcome: Outcome) {
    || (outcome == NotFound && heard == [] && Due(was, now))
    || (outcome == NotFound && inspector && |heard| == 2 && heard[0] == Missing)
    || (outcome == Error && inspector && heard == [Fails])
  }

  /** Where a thread is that found the record `was` at its check at time `since`, and does not act yet. */
  predicate Admission(th: Thread, current: Option<Record>, e: Ref, was: Record, since: Time, now: Time, inspector: bool,
      heard: seq<Answer>)
  {
    && th.task.Serve?
    && (match th.pc
        case Checking(e') => e' == e && current == Some(was) && heard == []
        case Inspecting(e', rec) => e' == e && inspector && current == Some(was) && rec == was && heard == []
        case StoringInspection(e', rec, state) =>
          && e' == e && current == Some(was) && rec == was && Finds(was, inspector, heard, was.(state := state)) && inspector
        case Syncing(e', rec, next) =>
          && e' == e && current == Some(rec)
          && ((next == ThenAct && inspector && Finds(was, inspector, heard, rec))
              || (next == ThenAnswer(NotFound) && rec == was && heard == [] && Due(was, now)))
        case CallingDelete(e', rec, required) => e' == e && !required && inspector && current == Some(was) && heard == [Missing]
        case Dropping(e', rec, required) =>
          e' == e && !required && inspector && current == Some(was) && |heard| == 2 && heard[0] == Missing
        case Cancelling(e', outcome) =>
          e' == e && th.dropped && outcome == NotFound && inspector && |heard| == 2 && heard[0] == Missing
        case Releasing(e', answer) =>
          && e' == e && answer.Some? && TurnsAway(was, inspector, heard, now, answer.value)
          && (if |heard| == 2 then th.dropped else !th.dropped && current == Some(was))
        case Done(outcome) => TurnsAway(was, inspector, heard, now, outcome)
        case _ => false)
    && (th.pc.Checking? || AwayAsDue(th.pc, heard) || !Due(was, since))
  }

  predicate AwayAsDue(pc: Pc, heard: seq<Answer>) {
    (pc.Syncing? && pc.next == ThenAnswer(NotFound)) || ((pc.Releasing? || pc.Done?) && heard == [])
  }

  ghost predicate Admits(s: State, t: Tid, e: Ref, was: Record, since: Time, heard: seq<Answer>) {
    && t in s.threads && since <= s.now && was.Settled()
    && Admission(s.threads[t], GetRecord(s, s.threads[t].id), e, was, since, s.now, s.inspector, heard)
    && (s.threads[t].dropped && !s.threads[t].pc.Done? ==> Gone(s, s.threads[t].id, e))
  }

  /** The thread is let act on the record `found`, and has heard the answers after the first `n` since. */
  ghost predicate ActsOn(s: State, t: Tid, e: Ref, was: Record, since: Time, heard: seq<Answer>, found: Record, n: nat) {
    && n <= |heard| && !Due(was, since) && Finds(was, s.inspector, heard[..n], found)
    && Acts(s, t, e, found, since, heard[n..])
  }

  ghost predicate Goes(s: State, t: Tid, e: Ref, was: Record, since: Time, heard: seq<Answer>) {
    Admits(s, t, e, was, since, heard) || exists found, n: nat :: ActsOn(s, t, e, was, since, heard, found, n)
  }

  lemma CheckDecides(s: State, th: Thread, e: Ref, was: Record, since: Time)
    requires th.pc == Checking(e) && th.task.Serve? && !th.dropped && was.Settled() && since <= s.now
    requires GetRecord(s, th.id) == Some(was)
    ensures var next := NextThread(s, th, Succeeds);
            if next.pc.Acting? then next.pc == Acting(e, was) && !s.inspector && !Due(was, since)
            else Admission(next, Some(was), e, was, since, s.now, s.inspector, [])
  {
    TerminallyExpiredMeans(was, s.now);
  }

  /** One step of a thread that does not act yet, with the record after it. */
  lemma AdmissionDecides(s: State, th: Thread, answer: Answer, current: Option<Record>, e: Ref, was: Record, since: Time,
      heard: seq<Answer>)
    requires !th.pc.Checking? && since <= s.now
    requires Admission(th, GetRecord(s, th.id), e, was, since, s.now, s.inspector, heard)
    requires th.dropped ==> th.pc.Cancelling? || th.pc.Releasing? || th.pc.Done?
    requires th.pc.Inspecting? ==> answer == Fails || answer == Missing || answer.Reports?
    requires !th.pc.Done?
    requires !th.pc.Dropping? ==>
               current == if Writes(s, th) && NextPc(s, th, answer).Syncing? then Some(NextPc(s, th, answer).rec)
                          else GetRecord(s, th.id)
    requires th.pc.Dropping? ==> th.id in s.sandboxes
    ensures var next, told := NextThread(s, th, answer), Told(th.pc, heard, answer);
            if next.pc.Acting?
            then HeldEntry(next.pc) == Some(e) && !next.dropped && Some(next.pc.rec) == current && !Due(was, since)
                 && Finds(was, s.inspector, told, next.pc.rec)
            else Admission(next, current, e, was, since, s.now, s.inspector, told)
  {
  }

  lemma OwnStepGoes(s: State, t: Tid, answer: Answer, unused: nat, e: Ref, was: Record, since: Time, heard: seq<Answer>)
    requires CanAdvance(s, t, answer, unused) && OwnerIsCurrent(s, t) && ThreadLocks(s, t)
    requires Admits(s, t, e, was, since, heard)
    ensures Goes(AdvanceThread(s, t, answer, unused), t, e, was, since, Told(s.threads[t].pc, heard, answer))
  {
    var s', th := AdvanceThread(s, t, answer, unused), s.threads[t];
    var told := Told(th.pc, heard, answer);
    if th.dropped {
      GoneStays(s, t, answer, unused, th.id, e);
    } else {
      OwnRecord(s, t, answer, unused);
    }
    if th.pc.Checking? {
      CheckDecides(s, th, e, was, since);
    } else {
      AdmissionDecides(s, th, answer, GetRecord(s', th.id), e, was, since, heard);
    }
    if s'.threads[t].pc.Acting? {
      assert told[..|told|] == told && told[|told|..] == [];
      assert ActsOn(s', t, e, was, since, told, s'.threads[t].pc.rec, |told|);
    } else {
      assert Admits(s', t, e, was, since, told);
    }
  }

  lemma WaitingAdmission(th: Thread, current: Option<Record>, later: Option<Record>, e: Ref, was: Record, since: Time,
      now: Time, then_: Time, inspector: bool, heard: seq<Answer>)
    requires Admission(th, current, e, was, since, now, inspector, heard) && now <= then_
    requires later == current || th.pc.Done? || (th.dropped && (th.pc.Cancelling? || th.pc.Releasing?))
    ensures Admission(th, later, e, was, since, then_, inspector, heard)
  {
  }

  lemma OtherStepAdmits(s: State, step: Step, t: Tid, e: Ref, was: Record, since: Time, heard: seq<Answer>)
    requires Locking(s) && Enabled(s, step) && !IsStepOf(step, t) && Admits(s, t, e, was, since, heard)
    ensures Admits(Apply(s, step), t, e, was, since, heard)
  {
    var s', th := Apply(s, step), s.threads[t];
    StaysPut(s, step, t);
    ClockRuns(s, step);
    assert ThreadLocks(s, t) && OwnerIsCurrent(s, t);
    if th.pc.Done? {
    } else if th.dropped {
      StillGone(s, step, th.id, e);
    } else {
      OwnedEntryIsUndisturbed(s, step, t);
    }
    WaitingAdmission(th, GetRecord(s, th.id), GetRecord(s', th.id), e, was, since, s.now, s'.now, s.inspector, heard);
  }

  lemma ActsOnStep(s: State, step: Step, t: Tid, e: Ref, was: Record, since: Time, heard: seq<Answer>, found: Record, n: nat)
    requires Locking(s) && Enabled(s, step) && ActsOn(s, t, e, was, since, heard, found, n)
    ensures ActsOn(Apply(s, step), t, e, was, since,
                   if IsStepOf(step, t) then Told(s.threads[t].pc, heard, step.answer) else heard, found, n)
  {
    if IsStepOf(step, t) {
      assert OwnerIsCurrent(s, t) && ThreadLocks(s, t);
      OwnStepActs(s, t, step.answer, step.unused, e, found, since, heard[n..]);
      if AsksRuntime(s.threads[t].pc) {
        assert (heard + [step.answer])[..n] == heard[..n] && (heard + [step.answer])[n..] == heard[n..] + [step.answer];
      }
    } else {
      OtherStepActs(s, step, t, e, found, since, heard[n..]);
    }
  }

  lemma GoesStep(s: State, step: Step, t: Tid, e: Ref, was: Record, since: Time, heard: seq<Answer>)
    requires Locking(s) && Enabled(s, step) && Goes(s, t, e, was, since, heard)
    ensures Goes(Apply(s, step), t, e, was, since,
                 if IsStepOf(step, t) then Told(s.threads[t].pc, heard, step.answer) else heard)
  {
    if Admits(s, t, e, was, since, heard) {
      if IsStepOf(step, t) {
        assert OwnerIsCurrent(s, t) && ThreadLocks(s, t);
        OwnStepGoes(s, t, step.answer, step.unused, e, was, since, heard);
      } else {
        OtherStepAdmits(s, step, t, e, was, since, heard);
      }
    } else {
      var found, n: nat :| ActsOn(s, t, e, was, since, heard, found, n);
      ActsOnStep(s, step, t, e, was, since, heard, found, n);
    }
  }

  lemma {:induction false} GoesOnRuns(s: State, steps: seq<Step>, end: State, t: Tid, e: Ref, was: Record, since: Time,
      heard: seq<Answer>)
    requires Locking(s) && Run(s, steps, NO_GUARDS, end) && Goes(s, t, e, was, since, heard) && t in s.threads
    ensures Goes(end, t, e, was, since, heard + Heard(s, steps, t))
    decreases |steps|
  {
    if steps == [] {
      assert heard + [] == heard;
    } else {
      var step := steps[0];
      GoesStep(s, step, t, e, was, since, heard);
      LockingStep(s, step);
      TaskStays(s, step, t);
      GoesOnRuns(Apply(s, step), steps[1..], end, t, e, was, since,
                 if IsStepOf(step, t) then Told(s.threads[t].pc, heard, step.answer) else heard);
      HeardStep(s, steps, t, heard);
    }
  }

  lemma StartsToCheck(s: State, t: Tid)
    requires Timers(s) && t in s.threads && s.threads[t].task.Serve? && s.threads[t].pc.Checking?
    ensures GetRecord(s, s.threads[t].id).Some?
    ensures Admits(s, t, s.threads[t].pc.e, GetRecord(s, s.threads[t].id).value, s.now, [])
  {
    assert OwnerIsCurrent(s, t) && ThreadLocks(s, t);
  }

  /** What there is to say of the answer of a request that found `was` at its check. */
  ghost predicate Explained(s: State, t: Tid, e: Ref, was: Record, since: Time, heard: seq<Answer>)
    requires t in s.threads && s.threads[t].task.Serve?
  {
    var pc := s.threads[t].pc;
    var outcome := if pc.Done? then Some(pc.outcome) else if pc.Releasing? then pc.answer else None;
    outcome.Some? ==>
      || (&& TurnsAway(was, s.inspector, heard, s.now, outcome.value)
          && (pc.Releasing? ==>
                if |heard| == 2 then Gone(s, s.threads[t].id, e) else GetRecord(s, s.threads[t].id) == Some(was)))
      || (!Due(was, since)
          && exists found, n: nat :: n <= |heard| && Finds(was, s.inspector, heard[..n], found)
                                && Answers(s, t, e, found, since, heard[n..]))
  }

  /** A request that has got the lock, in any run to its answer. It is turned away if the record that it finds is due to be killed,
      or if an inspection says that the sandbox is gone or fails; a record that is not due is never turned away without an
      inspection. Otherwise it acts on the record found, or with the state that the runtime reports, and AnswersMean says
      what its answer means. */
  lemma {:induction false} RequestsAreExplained(init: State, before: seq<Step>, s: State, after: seq<Step>, end: State, t: Tid)
    requires Init(init) && Run(init, before, NO_GUARDS, s) && Run(s, after, NO_GUARDS, end)
    requires t in s.threads && s.threads[t].task.Serve? && s.threads[t].pc.Checking?
    ensures t in end.threads && end.threads[t].task == s.threads[t].task && end.threads[t].id == s.threads[t].id
    ensures GetRecord(s, s.threads[t].id).Some?
    ensures Explained(end, t, s.threads[t].pc.e, GetRecord(s, s.threads[t].id).value, s.now, Heard(s, after, t))
  {
    TimersOnRuns(init, before, NO_GUARDS, s);
    StartsToCheck(s, t);
    var e, was, heard := s.threads[t].pc.e, GetRecord(s, s.threads[t].id).value, Heard(s, after, t);
    GoesOnRuns(s, after, end, t, e, was, s.now, []);
    assert [] + heard == heard;
    SameTask(s, after, end, t);
    GoesExplains(end, t, e, was, s.now, heard);
  }

  lemma GoesExplains(s: State, t: Tid, e: Ref, was: Record, since: Time, heard: seq<Answer>)
    requires Goes(s, t, e, was, since, heard) && t in s.threads && s.threads[t].task.Serve?
    ensures Explained(s, t, e, was, since, heard)
  {
    if !Admits(s, t, e, was, since, heard) {
      var found, n: nat :| ActsOn(s, t, e, was, since, heard, found, n);
      assert Answers(s, t, e, found, since, heard[n..]);
    }
  }
}
