/** A terminal expiry cannot be undone. */
module LifecycleTerminal {
  import opened Wrappers
  import opened SandboxRecords
  import opened Deadlines
  import opened Lifecycle
  import opened LifecycleLocking
  import opened LifecycleRuns
  import opened LifecycleExpiry
  import opened LifecycleTimers

  /** The counters at which a thread can hold a terminally expired entry. */
  predicate HandlesTerminal(th: Thread) {
    match th.task
    case Serve(_) => TurnedAway(th.pc)
    case Expire(_, _) =>
      th.pc.Validating? || th.pc.Releasing? || th.pc.Judging? || th.pc.CallingDelete? || th.pc.Dropping?
      || th.pc.Cancelling? || th.pc.Retrying?
    case Provision => false
  }

  /** On the way to answering not-found, or not decided yet. */
  predicate TurnedAway(pc: Pc) {
    match pc
    case Lookup => true
    case Contending(_) => true
    case Validating(_) => true
    case Checking(_) => true
    case Syncing(_, _, next) => next == ThenAnswer(NotFound)
    case Releasing(_, answer) => answer.None? || answer == Some(NotFound)
    case Done(outcome) => outcome == NotFound
    case _ => false
  }

  /** Entry `e` still holds the terminally expired `rec`, and nobody who holds its lock can change that. */
  ghost predicate Doomed(s: State, e: Ref, rec: Record) {
    && rec.TerminallyExpired(s.now)
    && e in s.entries && s.entries[e] == rec
    && (forall t :: t in s.threads && HeldEntry(s.threads[t].pc) == Some(e) ==> HandlesTerminal(s.threads[t]))
  }

  lemma DoomedEntryIsNotWritten(s: State, t: Tid, answer: Answer, unused: nat, e: Ref, rec: Record)
    requires Expiry(s) && Doomed(s, e, rec) && CanAdvance(s, t, answer, unused)
    ensures e in AdvanceThread(s, t, answer, unused).entries
    ensures AdvanceThread(s, t, answer, unused).entries[e] == rec
  {
    assert ThreadLocks(s, t) && OwnerIsCurrent(s, t);
  }

  lemma AdvanceHandlesTerminal(s: State, th: Thread, answer: Answer, e: Ref, rec: Record)
    requires rec.TerminallyExpired(s.now) && TaskFits(th)
    requires HeldEntry(th.pc) == Some(e) ==> HandlesTerminal(th)
    requires th.pc.Checking? || th.pc.Judging? ==> GetRecord(s, th.id) == Some(rec)
    requires HeldEntry(NextPc(s, th, answer)) == Some(e)
    requires HeldEntry(th.pc) == Some(e) || th.pc == Contending(e)
    ensures HandlesTerminal(NextThread(s, th, answer))
  {
  }

  lemma AdvanceKeepsDoomed(s: State, t: Tid, answer: Answer, unused: nat, e: Ref, rec: Record)
    requires Expiry(s) && Doomed(s, e, rec) && CanAdvance(s, t, answer, unused)
    ensures Doomed(AdvanceThread(s, t, answer, unused), e, rec)
  {
    var s' := AdvanceThread(s, t, answer, unused);
    var th := s.threads[t];
    DoomedEntryIsNotWritten(s, t, answer, unused, e, rec);
    assert ThreadLocks(s, t) && OwnerIsCurrent(s, t) && TaskFits(th);
    if HeldEntry(s'.threads[t].pc) == Some(e) {
      KeepsHolding(s, th, answer, e);
      AdvanceHandlesTerminal(s, th, answer, e, rec);
    }
  }

  lemma KeepsHolding(s: State, th: Thread, answer: Answer, e: Ref)
    requires HeldEntry(NextPc(s, th, answer)) == Some(e)
    ensures HeldEntry(th.pc) == Some(e) || th.pc == Contending(e)
  {
  }

  lemma DoomedStep(s: State, step: Step, e: Ref, rec: Record)
    requires Expiry(s) && Doomed(s, e, rec) && Enabled(s, step)
    ensures Doomed(Apply(s, step), e, rec)
  {
    if step.Advance? {
      AdvanceKeepsDoomed(s, step.t, step.answer, step.unused, e, rec);
    } else {
      EnvironmentKeepsDoomed(s, step, e, rec);
    }
  }

  lemma EnvironmentKeepsDoomed(s: State, step: Step, e: Ref, rec: Record)
    requires Doomed(s, e, rec) && Enabled(s, step) && !step.Advance?
    ensures Doomed(Apply(s, step), e, rec)
  {
    var s' := Apply(s, step);
    EnvironmentSparesRecord(s, step, e, rec);
    forall t | t in s'.threads && HeldEntry(s'.threads[t].pc) == Some(e) ensures HandlesTerminal(s'.threads[t]) {
      EnvironmentSparesThread(s, step, t);
    }
  }

  lemma EnvironmentSparesRecord(s: State, step: Step, e: Ref, rec: Record)
    requires Enabled(s, step) && !step.Advance?
    requires rec.TerminallyExpired(s.now) && e in s.entries && s.entries[e] == rec
    ensures var s' := Apply(s, step); rec.TerminallyExpired(s'.now) && e in s'.entries && s'.entries[e] == rec
  {
  }

  lemma EnvironmentSparesThread(s: State, step: Step, t: Tid)
    requires Enabled(s, step) && !step.Advance? && t in Apply(s, step).threads
    requires HeldEntry(Apply(s, step).threads[t].pc).Some?
    ensures t in s.threads && Apply(s, step).threads[t] == s.threads[t]
  {
  }

  lemma {:induction false} DoomedOnRuns(s: State, steps: seq<Step>, g: Guards, end: State, e: Ref, rec: Record)
    requires Expiry(s) && Doomed(s, e, rec) && Run(s, steps, g, end)
    ensures Expiry(end) && Doomed(end, e, rec)
    decreases |steps|
  {
    if steps != [] {
      ExpiryStep(s, steps[0]);
      DoomedStep(s, steps[0], e, rec);
      DoomedOnRuns(Apply(s, steps[0]), steps[1..], g, end, e, rec);
    }
  }

  /** Terminal expiry is irrevocable: from a reachable state where a running record that is to be killed is past its deadline
      and its lock is free, no run changes the record as long as the store has it; removal is the only possible change. */
  lemma {:induction false} TerminalExpiryIsIrrevocable(
      init: State, before: seq<Step>, s: State, after: seq<Step>, end: State, id: Id)
    requires Init(init) && Run(init, before, NO_GUARDS, s) && Run(s, after, NO_GUARDS, end)
    requires GetRecord(s, id).Some? && s.sandboxes[id] !in s.locks
    requires var rec := GetRecord(s, id).value;
             rec.state == Running && rec.onTimeout == KillOnTimeout && rec.endAt <= s.now
    ensures id in end.sandboxes && end.sandboxes[id] == s.sandboxes[id] ==> GetRecord(end, id) == GetRecord(s, id)
    ensures s.now <= end.now
  {
    var e, rec := s.sandboxes[id], GetRecord(s, id).value;
    ExpiredIsDoomed(init, before, s, id);
    DoomedOnRuns(s, after, NO_GUARDS, end, e, rec);
    ClockOnRuns(s, after, NO_GUARDS, end);
  }

  lemma {:induction false} ClockOnRuns(s: State, steps: seq<Step>, g: Guards, end: State)
    requires Run(s, steps, g, end)
    ensures s.now <= end.now
    decreases |steps|
  {
    if steps != [] {
      ClockOnRuns(Apply(s, steps[0]), steps[1..], g, end);
    }
  }

  lemma {:induction false} ExpiredIsDoomed(init: State, before: seq<Step>, s: State, id: Id)
    requires Init(init) && Run(init, before, NO_GUARDS, s)
    requires GetRecord(s, id).Some? && s.sandboxes[id] !in s.locks
    requires var rec := GetRecord(s, id).value;
             rec.state == Running && rec.onTimeout == KillOnTimeout && rec.endAt <= s.now
    ensures Expiry(s) && Doomed(s, s.sandboxes[id], GetRecord(s, id).value)
  {
    TimersOnRuns(init, before, NO_GUARDS, s);
    assert GetRecord(s, id).value.Settled();
    TerminallyExpiredMeans(GetRecord(s, id).value, s.now);
    FreeIsDoomed(s, id);
  }

  /** The ID was not stored anew, and every request on it that was not yet decided is being turned away. */
  ghost predicate AllTurnedAway(s: State, id: Id, e: Ref, decided: set<Tid>) {
    && id in s.born
    && (id in s.sandboxes ==> s.sandboxes[id] == e)
    && (forall t :: t in s.threads && t !in decided && s.threads[t].id == id && s.threads[t].task.Serve? ==>
          TurnedAway(s.threads[t].pc))
  }

  lemma AdvanceTurnsAway(s: State, th: Thread, answer: Answer, rec: Record)
    requires th.task.Serve? && TurnedAway(th.pc) && rec.TerminallyExpired(s.now)
    requires th.pc.Checking? ==> GetRecord(s, th.id) == Some(rec)
    ensures TurnedAway(NextPc(s, th, answer))
  {
  }

  lemma AllTurnedAwayStep(s: State, step: Step, g: Guards, id: Id, e: Ref, rec: Record, decided: set<Tid>)
    requires Expiry(s) && Doomed(s, e, rec) && AllTurnedAway(s, id, e, decided)
    requires Enabled(s, step) && Obeys(s, step, g) && g.freshIds && g.id == id
    ensures AllTurnedAway(Apply(s, step), id, e, decided)
  {
    var s' := Apply(s, step);
    assert !StoresId(s, step, id);
    forall t | t in s'.threads && t !in decided && s'.threads[t].id == id && s'.threads[t].task.Serve?
      ensures TurnedAway(s'.threads[t].pc)
    {
      if IsStepOf(step, t) {
        assert ThreadLocks(s, t) && OwnerIsCurrent(s, t);
        AdvanceTurnsAway(s, s.threads[t], step.answer, rec);
      }
    }
  }

  lemma {:induction false} AllTurnedAwayOnRuns(
      s: State, steps: seq<Step>, g: Guards, end: State, id: Id, e: Ref, rec: Record, decided: set<Tid>)
    requires Expiry(s) && Doomed(s, e, rec) && AllTurnedAway(s, id, e, decided)
    requires Run(s, steps, g, end) && g.freshIds && g.id == id
    ensures AllTurnedAway(end, id, e, decided)
    decreases |steps|
  {
    if steps != [] {
      ExpiryStep(s, steps[0]);
      DoomedStep(s, steps[0], e, rec);
      AllTurnedAwayStep(s, steps[0], g, id, e, rec, decided);
      AllTurnedAwayOnRuns(Apply(s, steps[0]), steps[1..], g, end, id, e, rec, decided);
    }
  }

  lemma FreeIsDoomed(s: State, id: Id)
    requires Locking(s) && GetRecord(s, id).Some? && GetRecord(s, id).value.TerminallyExpired(s.now)
    requires s.sandboxes[id] !in s.locks
    ensures Doomed(s, s.sandboxes[id], GetRecord(s, id).value)
  {
    forall u | u in s.threads ensures HeldEntry(s.threads[u].pc) != Some(s.sandboxes[id]) {
      assert ThreadLocks(s, u);
    }
  }

  /** The ID is not stored anew. */
  function NotStoredAnew(id: Id): Guards {
    Guards(id, true, false, false)
  }

  /** The request has not got a current entry yet. */
  predicate IsUndecided(pc: Pc) {
    pc.Lookup? || pc.Contending? || pc.Validating? || (pc.Releasing? && pc.answer.None?)
  }

  /** Every lifecycle request that was undecided when the running record to be killed was past its deadline, or arrives later,
      answers not-found, as long as no new sandbox is stored under the same ID. */
  lemma {:induction false} TerminalExpiryAnswersNotFound(
      init: State, before: seq<Step>, s: State, after: seq<Step>, end: State, id: Id, t: Tid)
    requires Init(init) && Run(init, before, NO_GUARDS, s) && Run(s, after, NotStoredAnew(id), end)
    requires GetRecord(s, id).Some? && s.sandboxes[id] !in s.locks
    requires var rec := GetRecord(s, id).value;
             rec.state == Running && rec.onTimeout == KillOnTimeout && rec.endAt <= s.now
    requires t in s.threads ==> IsUndecided(s.threads[t].pc)
    requires t in end.threads && end.threads[t].id == id && end.threads[t].task.Serve?
    ensures end.threads[t].pc.Done? ==> end.threads[t].pc.outcome == NotFound
  {
    var e, rec := s.sandboxes[id], GetRecord(s, id).value;
    ExpiredIsDoomed(init, before, s, id);
    StoredIdsAreBornOnRuns(init, before, NO_GUARDS, s);
    var decided := set u | u in s.threads && !TurnedAway(s.threads[u].pc);
    AllTurnedAwayOnRuns(s, after, NotStoredAnew(id), end, id, e, rec, decided);
  }
}
