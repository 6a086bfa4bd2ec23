/** The operations of SandboxExpiry are what the step relation does when a lock holder is not interrupted: from where an
    operation begins, the steps of that one thread lead to the records and timers that the operation promises. */
module LifecycleRefinement {
  import opened Wrappers
  import opened SandboxRecords
  import opened Deadlines
  import opened Lifecycle
  import opened LifecycleLocking
  import opened LifecycleRuns
  import opened LifecycleExpiry
  import opened LifecycleTimers
  import opened LifecycleRequests
  import opened SandboxExpiry
  import SandboxStore

  /** The stored records and the timers, without entries and locks. */
  ghost function RecordsOf(s: State): map<Id, Record> {
    RecordsIn(s.sandboxes, s.entries)
  }

  ghost function RecordsIn(sandboxes: map<Id, Ref>, entries: map<Ref, Record>): map<Id, Record> {
    map id | id in sandboxes && sandboxes[id] in entries :: entries[sandboxes[id]]
  }

  ghost function ViewOf(s: State): View {
    View(RecordsOf(s), s.mgr)
  }

  // ---------------------------------------------------------------- steps of one thread

  predicate Alone(steps: seq<Step>, t: Tid) {
    forall i :: 0 <= i < |steps| ==> IsStepOf(steps[i], t)
  }

  /** `end` is reached by steps of thread `t` only. */
  ghost predicate Solo(s: State, t: Tid, end: State) {
    exists steps :: Alone(steps, t) && Run(s, steps, NO_GUARDS, end)
  }

  lemma SoloThen(s: State, t: Tid, mid: State, end: State)
    requires Solo(s, t, mid) && Solo(mid, t, end)
    ensures Solo(s, t, end)
  {
    var xs :| Alone(xs, t) && Run(s, xs, NO_GUARDS, mid);
    var ys :| Alone(ys, t) && Run(mid, ys, NO_GUARDS, end);
    RunsCompose(s, xs, NO_GUARDS, mid, ys, end);
    assert Alone(xs + ys, t);
  }

  lemma SoloStep(s: State, t: Tid, answer: Answer, unused: nat)
    requires CanAdvance(s, t, answer, unused)
    ensures Solo(s, t, AdvanceThread(s, t, answer, unused))
  {
    var steps := [Advance(t, answer, unused)];
    assert steps[1..] == [];
    assert Run(AdvanceThread(s, t, answer, unused), [], NO_GUARDS, AdvanceThread(s, t, answer, unused));
    assert Run(s, steps, NO_GUARDS, AdvanceThread(s, t, answer, unused));
  }

  ghost predicate DistinctEntries(sandboxes: map<Id, Ref>) {
    forall i, j :: i in sandboxes && j in sandboxes && i != j ==> sandboxes[i] != sandboxes[j]
  }

  /** What Locking says of a thread that holds the lock of entry `e`. */
  predicate Owned(sandboxes: map<Id, Ref>, entries: map<Ref, Record>, th: Thread, e: Ref) {
    && HeldEntry(th.pc) == Some(e) && !th.pc.Validating? && !(th.pc.Releasing? && th.pc.answer.None?)
    && (!th.dropped ==>
          && th.id in sandboxes && sandboxes[th.id] == e && e in entries
          && (Snapshot(th.pc).Some? ==> entries[e] == Snapshot(th.pc).value))
  }

  /** The thread holds the lock of entry `e`; `u` is free for a timer. */
  ghost predicate Holds(s: State, t: Tid, e: Ref, u: nat) {
    && t in s.threads && Owned(s.sandboxes, s.entries, s.threads[t], e) && DistinctEntries(s.sandboxes)
    && u !in s.entries && u !in s.mgr.timers
  }

  lemma OwnersHold(s: State, t: Tid, e: Ref, u: nat)
    requires Locking(s) && t in s.threads && OwnedEntry(s.threads[t]) == Some(e)
    requires u !in s.entries && u !in s.mgr.timers
    ensures Holds(s, t, e, u)
  {
    assert OwnerIsCurrent(s, t);
  }

  /** A step keeps what Locking says of its thread, unless it lets go of the entry. */
  lemma OwnedStays(s: State, t: Tid, e: Ref, answer: Answer, u: nat)
    requires Holds(s, t, e, u) && CanAdvance(s, t, answer, u)
    requires HeldEntry(NextPc(s, s.threads[t], answer)) == Some(e)
    ensures var end := AdvanceThread(s, t, answer, u);
            Owned(end.sandboxes, end.entries, NextThread(s, s.threads[t], answer), e)
  {
  }

  /** What one step of an owner does to the records and the timers. */
  function NextRecords(v: View, s: State, th: Thread, answer: Answer): map<Id, Record> {
    if Removes(s, th) then v.records - {th.id}
    else if Writes(s, th) && NextPc(s, th, answer).Syncing? then v.records[th.id := NextPc(s, th, answer).rec]
    else v.records
  }

  lemma RemoveRecord(sandboxes: map<Id, Ref>, entries: map<Ref, Record>, id: Id)
    ensures RecordsIn(sandboxes - {id}, entries) == RecordsIn(sandboxes, entries) - {id}
  {
  }

  lemma WriteRecord(sandboxes: map<Id, Ref>, entries: map<Ref, Record>, id: Id, rec: Record)
    requires id in sandboxes && sandboxes[id] in entries
    requires forall i, j :: i in sandboxes && j in sandboxes && i != j ==> sandboxes[i] != sandboxes[j]
    ensures RecordsIn(sandboxes, entries[sandboxes[id] := rec]) == RecordsIn(sandboxes, entries)[id := rec]
  {
  }

  lemma OwnerWrites(s: State, th: Thread, answer: Answer, e: Ref)
    requires Owned(s.sandboxes, s.entries, th, e) && DistinctEntries(s.sandboxes)
    requires Writes(s, th) && NextPc(s, th, answer).Syncing?
    ensures var rec := NextPc(s, th, answer).rec;
            RecordsIn(s.sandboxes, s.entries[s.sandboxes[th.id] := rec]) == RecordsOf(s)[th.id := rec]
  {
    WriteRecord(s.sandboxes, s.entries, th.id, NextPc(s, th, answer).rec);
  }

  lemma OwnerMaps(s: State, th: Thread, answer: Answer, e: Ref, u: nat)
    requires Owned(s.sandboxes, s.entries, th, e) && DistinctEntries(s.sandboxes)
    ensures RecordsIn(NextSandboxes(s, th, answer, u), NextEntries(s, th, answer, u)) ==
              NextRecords(ViewOf(s), s, th, answer)
  {
    if Removes(s, th) {
      RemoveRecord(s.sandboxes, s.entries, th.id);
    } else if Writes(s, th) && NextPc(s, th, answer).Syncing? {
      OwnerWrites(s, th, answer, e);
    }
  }

  lemma OwnerRecords(s: State, t: Tid, e: Ref, answer: Answer, u: nat)
    requires Holds(s, t, e, u) && CanAdvance(s, t, answer, u)
    ensures RecordsOf(AdvanceThread(s, t, answer, u)) == NextRecords(ViewOf(s), s, s.threads[t], answer)
  {
    OwnerMaps(s, s.threads[t], answer, e, u);
  }

  /** One step of an owner: where it leads, and what it does to the view. */
  lemma OwnerStep(s: State, t: Tid, e: Ref, answer: Answer, u: nat) returns (end: State)
    requires Holds(s, t, e, u) && CanAdvance(s, t, answer, u) && HeldEntry(NextPc(s, s.threads[t], answer)) == Some(e)
    ensures Ends(s, t, e, end) && end.threads[t] == NextThread(s, s.threads[t], answer)
    ensures ViewOf(end) == View(NextRecords(ViewOf(s), s, s.threads[t], answer),
                                Perform(s.mgr, s.threads[t].id, TimerCall(s, s.threads[t]), u))
    ensures end.runtime == NextRuntime(s, s.threads[t], answer)
  {
    end := AdvanceThread(s, t, answer, u);
    SoloStep(s, t, answer, u);
    OwnedStays(s, t, e, answer, u);
    OwnerRecords(s, t, e, answer, u);
    assert !Inserts(s, s.threads[t], answer);
  }

  // ---------------------------------------------------------------- the end of an operation

  /** Where an operation leaves its thread, with the entry still locked. */
  ghost predicate Ends(s: State, t: Tid, e: Ref, end: State) {
    && Solo(s, t, end) && t in s.threads && t in end.threads
    && end.threads[t].task == s.threads[t].task && end.threads[t].id == s.threads[t].id
    && Owned(end.sandboxes, end.entries, end.threads[t], e) && DistinctEntries(end.sandboxes)
    && end.now == s.now && end.inspector == s.inspector && end.entries.Keys == s.entries.Keys
  }

  lemma EndsThen(s: State, t: Tid, e: Ref, mid: State, end: State)
    requires Ends(s, t, e, mid) && Ends(mid, t, e, end)
    ensures Ends(s, t, e, end)
  {
    SoloThen(s, t, mid, end);
  }

  predicate HasAnswer(pc: Pc) {
    pc.Releasing? && pc.answer.Some?
  }

  lemma CancelRuns(s: State, t: Tid, e: Ref, u: nat) returns (end: State)
    requires Holds(s, t, e, u) && s.threads[t].pc.Cancelling?
    ensures Ends(s, t, e, end) && end.threads[t].pc == Releasing(e, Some(s.threads[t].pc.outcome))
    ensures ViewOf(end) == View(RecordsOf(s), Cancel(s.mgr, s.threads[t].id))
  {
    end := OwnerStep(s, t, e, Succeeds, u);
  }

  function AfterSyncing(e: Ref, rec: Record, next: AfterSync): Pc {
    match next
    case ThenAct => Acting(e, rec)
    case ThenAnswer(outcome) => Releasing(e, Some(outcome))
    case ThenRetryUnlessPaused => if rec.state == Paused then Releasing(e, Some(Ok)) else Retrying(e)
  }

  lemma SyncRuns(s: State, t: Tid, e: Ref, u: nat) returns (end: State)
    requires Holds(s, t, e, u) && s.threads[t].pc.Syncing?
    ensures Ends(s, t, e, end) && end.threads[t].dropped == s.threads[t].dropped
    ensures end.threads[t].pc == AfterSyncing(e, s.threads[t].pc.rec, s.threads[t].pc.next)
    ensures ViewOf(end) == View(RecordsOf(s), Perform(s.mgr, s.threads[t].id, SyncCall(s.threads[t].pc.rec), u))
  {
    end := OwnerStep(s, t, e, Succeeds, u);
  }

  lemma RetryRuns(s: State, t: Tid, e: Ref, u: nat) returns (end: State)
    requires Holds(s, t, e, u) && s.threads[t].pc.Retrying? && s.threads[t].task.Expire? && !s.threads[t].dropped
    ensures Ends(s, t, e, end) && HasAnswer(end.threads[t].pc)
    ensures ViewOf(end) == Retried(ViewOf(s), s.threads[t].id, s.threads[t].task.expected, s.now, u)
  {
    end := OwnerStep(s, t, e, Succeeds, u);
  }

  /** DeleteSandbox. */
  lemma DeleteRuns(s: State, t: Tid, e: Ref, runtimeOk: bool, u: nat) returns (end: State)
    requires Holds(s, t, e, u) && s.threads[t].pc.CallingDelete? && !s.threads[t].dropped
    ensures Ends(s, t, e, end)
    ensures var id, required := s.threads[t].id, s.threads[t].pc.required;
            if required && !runtimeOk
            then ViewOf(end) == ViewOf(s) && end.mgr == s.mgr && end.threads[t].dropped == s.threads[t].dropped
                 && end.threads[t].pc == (if s.threads[t].task.Expire? then Retrying(e) else Releasing(e, Some(Error)))
            else ViewOf(end) == Removed(ViewOf(s), id)
                 && end.threads[t].pc == Releasing(e, Some(if required then Ok else NotFound))
  {
    var answer := if runtimeOk then Succeeds else Fails;
    end := OwnerStep(s, t, e, answer, u);
    if runtimeOk || !s.threads[t].pc.required {
      var mid := end;
      var dropped := DropRuns(mid, t, e, u);
      EndsThen(s, t, e, mid, dropped);
      end := dropped;
    }
  }

  lemma DropRuns(s: State, t: Tid, e: Ref, u: nat) returns (end: State)
    requires Holds(s, t, e, u) && s.threads[t].pc.Dropping? && !s.threads[t].dropped
    ensures Ends(s, t, e, end)
    ensures end.threads[t].pc == Releasing(e, Some(if s.threads[t].pc.required then Ok else NotFound))
    ensures ViewOf(end) == Removed(ViewOf(s), s.threads[t].id)
  {
    var mid := OwnerStep(s, t, e, Succeeds, u);
    end := CancelRuns(mid, t, e, u);
    EndsThen(s, t, e, mid, end);
  }

  /** PauseSandboxLocked. */
  lemma PauseRuns(s: State, t: Tid, e: Ref, pauseOk: bool, u: nat) returns (end: State)
    requires Holds(s, t, e, u) && s.threads[t].pc.CallingPause? && !s.threads[t].dropped
    ensures Ends(s, t, e, end)
    ensures pauseOk ==>
              && s.threads[t].id in RecordsOf(s) && end.threads[t].pc == Releasing(e, Some(Ok))
              && ViewOf(end) == Synced(ViewOf(s), s.threads[t].id, RecordsOf(s)[s.threads[t].id].(state := Paused), u)
    ensures !pauseOk ==>
              && ViewOf(end) == ViewOf(s) && !end.threads[t].dropped && end.runtime == s.runtime
              && end.threads[t].pc == NextPc(s, s.threads[t], Fails)
  {
    var mid := OwnerStep(s, t, e, if pauseOk then Succeeds else Fails, u);
    if pauseOk {
      end := MarkRuns(mid, t, e, u);
      EndsThen(s, t, e, mid, end);
    } else {
      end := mid;
    }
  }

  /** The store's part of a pause or of what an inspection found. */
  lemma WriteRuns(s: State, t: Tid, e: Ref, u: nat) returns (end: State)
    requires Holds(s, t, e, u) && (s.threads[t].pc.MarkingPaused? || s.threads[t].pc.StoringInspection?)
    requires !s.threads[t].dropped
    ensures s.threads[t].id in RecordsOf(s) && Ends(s, t, e, end) && !end.threads[t].dropped
    ensures var pc := s.threads[t].pc;
            var found := RecordsOf(s)[s.threads[t].id].(state := if pc.MarkingPaused? then Paused else pc.state);
            && RecordsOf(end) == RecordsOf(s)[s.threads[t].id := found] && end.mgr == s.mgr
            && end.threads[t].pc == Syncing(e, found, if pc.MarkingPaused? then ThenAnswer(Ok)
                                                      else if s.threads[t].task.Expire? then ThenRetryUnlessPaused
                                                      else ThenAct)
  {
    end := OwnerStep(s, t, e, Succeeds, u);
  }

  lemma MarkRuns(s: State, t: Tid, e: Ref, u: nat) returns (end: State)
    requires Holds(s, t, e, u) && s.threads[t].pc.MarkingPaused? && !s.threads[t].dropped
    ensures s.threads[t].id in RecordsOf(s)
    ensures Ends(s, t, e, end) && end.threads[t].pc == Releasing(e, Some(Ok))
    ensures ViewOf(end) == Synced(ViewOf(s), s.threads[t].id, RecordsOf(s)[s.threads[t].id].(state := Paused), u)
  {
    var mid := WriteRuns(s, t, e, u);
    end := SyncRuns(mid, t, e, u);
    EndsThen(s, t, e, mid, end);
  }

  /** What the runtime can answer to an inspection. */
  predicate CanAnswer(s: State, id: Id, inspection: Inspection) {
    match inspection
    case CannotInspect => !s.inspector
    case InspectFails => s.inspector
    case Gone => s.inspector && id !in s.runtime
    case Alive(_) => s.inspector && id in s.runtime
  }

  function AnswerOf(inspection: Inspection): Answer {
    match inspection
    case Gone => Missing
    case Alive(state) => Reports(state)
    case _ => Fails
  }

  /** ReconcileSandboxRecordWithInspector: a request goes on with the record found, an expiry ends or retries. */
  lemma ReconcileRuns(s: State, t: Tid, e: Ref, inspection: Inspection, deleteOk: bool, u: nat) returns (end: State)
    requires Holds(s, t, e, u) && s.threads[t].pc.Inspecting? && !s.threads[t].dropped
    requires CanAnswer(s, s.threads[t].id, inspection) && !inspection.CannotInspect?
    ensures s.threads[t].id in RecordsOf(s) && Ends(s, t, e, end)
    ensures ViewOf(end) == Reconciled(ViewOf(s), s.threads[t].id, inspection, u)
    ensures inspection.Gone? ==> end.threads[t].pc == Releasing(e, Some(NotFound))
    ensures !inspection.Gone? ==> !end.threads[t].dropped
    ensures inspection.InspectFails? ==>
              end.threads[t].pc == if s.threads[t].task.Expire? then Retrying(e) else Releasing(e, Some(Error))
    ensures inspection.Alive? ==>
              && s.threads[t].id in RecordsOf(end)
              && var found := RecordsOf(end)[s.threads[t].id];
                 end.threads[t].pc == if !s.threads[t].task.Expire? then Acting(e, found)
                                      else if found.state == Paused then Releasing(e, Some(Ok)) else Retrying(e)
  {
    var mid := OwnerStep(s, t, e, AnswerOf(inspection), u);
    match inspection
    case Gone =>
      end := DeleteRuns(mid, t, e, deleteOk, u);
      EndsThen(s, t, e, mid, end);
    case Alive(state) =>
      end := StoreRuns(mid, t, e, u);
      EndsThen(s, t, e, mid, end);
    case _ => end := mid;
  }

  lemma StoreRuns(s: State, t: Tid, e: Ref, u: nat) returns (end: State)
    requires Holds(s, t, e, u) && s.threads[t].pc.StoringInspection? && !s.threads[t].dropped
    ensures s.threads[t].id in RecordsOf(s) && Ends(s, t, e, end) && !end.threads[t].dropped
    ensures var found := RecordsOf(s)[s.threads[t].id].(state := s.threads[t].pc.state);
            && ViewOf(end) == Synced(ViewOf(s), s.threads[t].id, found, u)
            && end.threads[t].pc == if !s.threads[t].task.Expire? then Acting(e, found)
                                    else if found.state == Paused then Releasing(e, Some(Ok)) else Retrying(e)
  {
    var mid := WriteRuns(s, t, e, u);
    end := SyncRuns(mid, t, e, u);
    EndsThen(s, t, e, mid, end);
  }

  // ---------------------------------------------------------------- expiry

  /** ExpireSandboxLocked: a callback that judges its sandbox, uninterrupted and whatever the runtime answers, leads to the
      records and timers that the operation promises. */
  lemma ExpiryRuns(s: State, t: Tid, e: Ref, answers: SandboxExpiry.Answers, u: nat, retry: nat) returns (end: State)
    requires Holds(s, t, e, u) && s.threads[t].pc == Judging(e) && s.threads[t].task.Expire? && !s.threads[t].dropped
    requires CanAnswer(s, s.threads[t].id, answers.inspection)
    requires retry != u && retry !in s.entries && retry !in s.mgr.timers
    ensures Ends(s, t, e, end) && HasAnswer(end.threads[t].pc)
    ensures Expires(ViewOf(s), ViewOf(end), s.threads[t].id, s.threads[t].task.expected, s.now, answers, u)
  {
    var mid := JudgeRuns(s, t, e, u);
    var pc := mid.threads[t].pc;
    if pc.CallingPause? {
      end := PauseExpiryRuns(mid, t, e, answers, u, retry);
      EndsThen(s, t, e, mid, end);
    } else if pc.CallingDelete? {
      end := KillExpiryRuns(mid, t, e, answers.deleteOk, u);
      EndsThen(s, t, e, mid, end);
    } else if pc.Cancelling? {
      end := CancelRuns(mid, t, e, u);
      EndsThen(s, t, e, mid, end);
    } else {
      end := mid;
    }
  }

  /** Judging changes nothing; what it decides does not depend on the entry. */
  lemma JudgeRuns(s: State, t: Tid, e: Ref, u: nat) returns (end: State)
    requires Holds(s, t, e, u) && s.threads[t].pc == Judging(e) && s.threads[t].task.Expire? && !s.threads[t].dropped
    ensures Ends(s, t, e, end) && !end.threads[t].dropped && ViewOf(end) == ViewOf(s) && end.runtime == s.runtime
    ensures var pc, judged := end.threads[t].pc,
                              Judge(Find(ViewOf(s), s.threads[t].id), 0, s.threads[t].task.expected, s.now);
            && (pc.CallingPause? <==> judged.CallingPause?)
            && (pc.CallingDelete? <==> judged.CallingDelete?) && (pc.CallingDelete? ==> pc.required)
            && (pc.Cancelling? <==> judged.Cancelling?)
            && (!pc.CallingPause? && !pc.CallingDelete? && !pc.Cancelling? ==> HasAnswer(pc) && HasAnswer(judged))
  {
    end := OwnerStep(s, t, e, Succeeds, u);
    assert GetRecord(s, s.threads[t].id) == Find(ViewOf(s), s.threads[t].id);
  }

  lemma KillExpiryRuns(s: State, t: Tid, e: Ref, deleteOk: bool, u: nat) returns (end: State)
    requires Holds(s, t, e, u) && s.threads[t].pc.CallingDelete? && s.threads[t].pc.required
    requires s.threads[t].task.Expire? && !s.threads[t].dropped
    ensures Ends(s, t, e, end) && HasAnswer(end.threads[t].pc)
    ensures ViewOf(end) == if deleteOk then Removed(ViewOf(s), s.threads[t].id)
                           else Retried(ViewOf(s), s.threads[t].id, s.threads[t].task.expected, s.now, u)
  {
    var mid := DeleteRuns(s, t, e, deleteOk, u);
    end := mid;
    if !deleteOk {
      end := RetryRuns(mid, t, e, u);
      EndsThen(s, t, e, mid, end);
    }
  }

  lemma PauseExpiryRuns(s: State, t: Tid, e: Ref, answers: SandboxExpiry.Answers, u: nat, retry: nat) returns (end: State)
    requires Holds(s, t, e, u) && s.threads[t].pc.CallingPause? && s.threads[t].task.Expire? && !s.threads[t].dropped
    requires CanAnswer(s, s.threads[t].id, answers.inspection)
    requires retry != u && retry !in s.entries && retry !in s.mgr.timers
    ensures s.threads[t].id in RecordsOf(s) && Ends(s, t, e, end) && HasAnswer(end.threads[t].pc)
    ensures PauseExpires(ViewOf(s), ViewOf(end), s.threads[t].id, s.threads[t].task.expected, s.now, answers, u)
  {
    var mid := PauseRuns(s, t, e, answers.pauseOk, u);
    end := mid;
    if !answers.pauseOk {
      end := FailedPauseRuns(mid, t, e, answers, u, retry);
      EndsThen(s, t, e, mid, end);
    }
  }

  lemma FailedPauseRuns(s: State, t: Tid, e: Ref, answers: SandboxExpiry.Answers, u: nat, retry: nat) returns (end: State)
    requires Holds(s, t, e, u) && s.threads[t].task.Expire? && !s.threads[t].dropped && !answers.pauseOk
    requires s.threads[t].pc.Inspecting? || s.threads[t].pc.Retrying?
    requires s.inspector <==> s.threads[t].pc.Inspecting?
    requires CanAnswer(s, s.threads[t].id, answers.inspection)
    requires retry != u && retry !in s.entries && retry !in s.mgr.timers
    ensures s.threads[t].id in RecordsOf(s) && Ends(s, t, e, end) && HasAnswer(end.threads[t].pc)
    ensures PauseExpires(ViewOf(s), ViewOf(end), s.threads[t].id, s.threads[t].task.expected, s.now, answers, u)
  {
    if answers.inspection.CannotInspect? {
      end := RetryRuns(s, t, e, retry);
      assert ViewOf(end) ==
             Retried(Reconciled(ViewOf(s), s.threads[t].id, answers.inspection, u), s.threads[t].id,
                     s.threads[t].task.expected, s.now, retry);
    } else {
      var mid := ReconcileRuns(s, t, e, answers.inspection, answers.deleteOk, u);
      end := mid;
      if mid.threads[t].pc.Retrying? {
        end := RetryRuns(mid, t, e, retry);
        EndsThen(s, t, e, mid, end);
        assert ViewOf(end) == Retried(ViewOf(mid), s.threads[t].id, s.threads[t].task.expected, s.now, retry);
      }
    }
  }

  /** In every reachable state: a callback that has the lock and is about to judge can go on alone, whatever the runtime
      answers, to the very records and timers that ExpireSandboxLocked promises from there. */
  lemma {:induction false} ExpiryRefines(init: State, steps: seq<Step>, s: State, t: Tid, answers: SandboxExpiry.Answers,
      u: nat, retry: nat) returns (end: State)
    requires Init(init) && Run(init, steps, NO_GUARDS, s)
    requires t in s.threads && s.threads[t].pc.Judging? && CanAnswer(s, s.threads[t].id, answers.inspection)
    requires u !in s.entries && u !in s.mgr.timers && retry !in s.entries && retry !in s.mgr.timers && retry != u
    ensures Solo(s, t, end) && t in end.threads && HasAnswer(end.threads[t].pc) && s.threads[t].task.Expire?
    ensures Expires(ViewOf(s), ViewOf(end), s.threads[t].id, s.threads[t].task.expected, s.now, answers, u)
  {
    JudgesOwn(init, steps, s, t);
    OwnersHold(s, t, s.threads[t].pc.e, u);
    end := ExpiryRuns(s, t, s.threads[t].pc.e, answers, u, retry);
  }

  lemma {:induction false} JudgesOwn(init: State, steps: seq<Step>, s: State, t: Tid)
    requires Init(init) && Run(init, steps, NO_GUARDS, s) && t in s.threads && s.threads[t].pc.Judging?
    ensures Locking(s) && s.threads[t].task.Expire? && !s.threads[t].dropped
  {
    ExpiryOnRuns(init, steps, NO_GUARDS, s);
    assert ThreadLocks(s, t) && TaskFits(s.threads[t]);
  }

  // ---------------------------------------------------------------- what the store's methods promise

  /** SetStateAndEndAt, SetEndAt and ExtendEndAt, with the sync after them. */
  lemma RetimeRuns(s: State, t: Tid, e: Ref, u: nat) returns (end: State)
    requires Holds(s, t, e, u) && s.threads[t].pc.Retiming? && !s.threads[t].dropped
    ensures s.threads[t].id in RecordsOf(s) && Ends(s, t, e, end) && end.threads[t].pc == Releasing(e, Some(Ok))
    ensures var pc := s.threads[t].pc;
            ViewOf(end) ==
              Synced(ViewOf(s), s.threads[t].id, Retimed(RecordsOf(s)[s.threads[t].id], pc.how, pc.endAt), u)
  {
    var mid := OwnerStep(s, t, e, Succeeds, u);
    end := SyncRuns(mid, t, e, u);
    EndsThen(s, t, e, mid, end);
  }

  lemma InsertRecord(sandboxes: map<Id, Ref>, entries: map<Ref, Record>, id: Id, e: Ref, rec: Record)
    requires id !in sandboxes && e !in entries
    requires forall i :: i in sandboxes ==> sandboxes[i] in entries
    ensures RecordsIn(sandboxes[id := e], entries[e := rec]) == RecordsIn(sandboxes, entries)[id := rec]
  {
  }

  /** In every reachable state, a creation stores what Create promises: its record has nothing left to complete, and is
      added under a fresh entry exactly if the ID is free. */
  lemma {:induction false} CreationStores(init: State, steps: seq<Step>, s: State, t: Tid, e: Ref)
    requires Init(init) && Run(init, steps, NO_GUARDS, s)
    requires t in s.threads && s.threads[t].pc.Storing? && CanAdvance(s, t, Succeeds, e)
    ensures var end, id, rec := AdvanceThread(s, t, Succeeds, e), s.threads[t].id, s.threads[t].pc.rec;
            && SandboxStore.Completed(rec, s.now) == Success(rec)
            && RecordsOf(end) == (if id in RecordsOf(s) then RecordsOf(s) else RecordsOf(s)[id := rec])
            && (end.threads[t].pc.UnlockedSync? <==> id !in RecordsOf(s))
  {
    TimersOnRuns(init, steps, NO_GUARDS, s);
    assert ThreadIdFits(s, s.threads[t]);
    assert EntriesExist(s.sandboxes, s.entries);
    StoringStores(s, t, e);
  }

  predicate EntriesExist(sandboxes: map<Id, Ref>, entries: map<Ref, Record>) {
    forall i :: i in sandboxes ==> sandboxes[i] in entries
  }

  lemma StoringStores(s: State, t: Tid, e: Ref)
    requires CanAdvance(s, t, Succeeds, e) && s.threads[t].pc.Storing? && ThreadIdFits(s, s.threads[t])
    requires EntriesExist(s.sandboxes, s.entries)
    ensures var end, id, rec := AdvanceThread(s, t, Succeeds, e), s.threads[t].id, s.threads[t].pc.rec;
            && SandboxStore.Completed(rec, s.now) == Success(rec)
            && RecordsOf(end) == (if id in RecordsOf(s) then RecordsOf(s) else RecordsOf(s)[id := rec])
            && (end.threads[t].pc.UnlockedSync? <==> id !in RecordsOf(s))
  {
    if s.threads[t].id !in s.sandboxes {
      InsertRecord(s.sandboxes, s.entries, s.threads[t].id, e, s.threads[t].pc.rec);
    }
  }

  // ---------------------------------------------------------------- whole requests

  /** The timers after the record has been stored and synced: with a running record a timer for its deadline, newly armed or
      kept if it fires then; with any other none. */
  predicate TimerFollows(m: Manager, m': Manager, id: Id, record: Record, u: nat) {
    && m'.stopped == m.stopped
    && (record.state != Running ==> id !in m'.table)
    && (record.state == Running && record.endAt != UNSET_TIME && !m.stopped ==>
          if id in m.table && m.table[id].fireAt == record.endAt then m' == m
          else id in m'.table && m'.table[id] == Slot(u, record.endAt)
               && u in m'.timers && m'.timers[u] == Timer(id, record.endAt, record.endAt, Armed))
  }

  lemma SyncFollows(v: View, id: Id, record: Record, u: nat)
    ensures TimerFollows(v.mgr, Synced(v, id, record, u).mgr, id, record, u)
  {
  }

  /** What a lock holder's request leaves: an answer that it decides by the runtime's, and on success the record asked for,
      with its timer; or no record and no timer. */
  ghost predicate Serves(v: View, v': View, id: Id, request: Request, was: Record, now: Time, heard: seq<Answer>, pc: Pc, u: nat) {
    && HasAnswer(pc) && Decides(request, was, heard, pc.answer.value)
    && (if pc.answer.value != Ok || request.Get? then v' == v
        else if request.Kill? then v'.records == v.records - {id} && id !in v'.mgr.table
        else
          && id in v'.records && v'.records == v.records[id := v'.records[id]]
          && Achieves(request, was, v'.records[id], now) && TimerFollows(v.mgr, v'.mgr, id, v'.records[id], u))
  }

  lemma WrittenServes(v: View, id: Id, request: Request, was: Record, rec: Record, now: Time, heard: seq<Answer>, e: Ref, u: nat)
    requires Undisputed(request, was, heard) && !request.Get? && !request.Kill? && Achieves(request, was, rec, now)
    ensures Serves(v, Synced(v, id, rec, u), id, request, was, now, heard, Releasing(e, Some(Ok)), u)
  {
    SyncFollows(v, id, rec, u);
  }

  lemma KilledServes(v: View, id: Id, was: Record, now: Time, e: Ref, u: nat)
    requires id in v.records
    ensures Serves(v, Removed(v, id), id, Kill, was, now, [Succeeds], Releasing(e, Some(Ok)), u)
  {
  }

  /** Which request goes where from Acting. */
  lemma ActingGoes(th: Thread, next: Pc, e: Ref, was: Record, now: Time)
    requires th.pc == Acting(e, was) && th.task.Serve? && next == Act(th.task.request, e, was, now)
    ensures next.CallingDelete? ==> next.required && next.rec == was && th.task.request.Kill?
    ensures next.CallingPause? ==> next.rec == was && th.task.request.PauseNow? && was.state == Running
    ensures next.CallingResume? ==> next.rec == was && (th.task.request.Resume? || th.task.request.Connect?) && was.state == Paused
    ensures next.Retiming? ==>
              && Undisputed(th.task.request, was, []) && !th.task.request.Get? && !th.task.request.Kill?
              && Achieves(th.task.request, was, Retimed(was, next.how, next.endAt), now)
    ensures !next.CallingDelete? && !next.CallingPause? && !next.CallingResume? && !next.Retiming? ==>
              next.Releasing? && next.answer.Some? && Decides(th.task.request, was, [], next.answer.value)
              && !NeedsRuntime(th.task.request, was) && (next.answer.value == Ok ==> th.task.request.Get?)
  {
  }

  /** From acting, the steps of a lock holder lead to its answer, and to the record and timer that this says. */
  lemma RequestRuns(s: State, t: Tid, e: Ref, ok: bool, u: nat) returns (end: State)
    requires Holds(s, t, e, u) && s.threads[t].pc.Acting? && s.threads[t].task.Serve? && !s.threads[t].dropped
    ensures Ends(s, t, e, end)
    ensures var request, was := s.threads[t].task.request, s.threads[t].pc.rec;
            Serves(ViewOf(s), ViewOf(end), s.threads[t].id, request, was, s.now,
                   if NeedsRuntime(request, was) then [if ok then Succeeds else Fails] else [], end.threads[t].pc, u)
  {
    var th := s.threads[t];
    var mid := OwnerStep(s, t, e, Succeeds, u);
    var next := mid.threads[t].pc;
    ActingGoes(th, next, e, th.pc.rec, s.now);
    end := mid;
    if next.CallingDelete? {
      end := KillRuns(mid, t, e, ok, u);
    } else if next.CallingPause? {
      end := PauseRequestRuns(mid, t, e, ok, u);
    } else if next.CallingResume? {
      end := ResumeRuns(mid, t, e, ok, u);
    } else if next.Retiming? {
      end := RenewalRuns(mid, t, e, u);
    }
    if end != mid {
      EndsThen(s, t, e, mid, end);
    }
  }

  lemma KillRuns(s: State, t: Tid, e: Ref, ok: bool, u: nat) returns (end: State)
    requires Holds(s, t, e, u) && s.threads[t].pc.CallingDelete? && !s.threads[t].dropped
    requires s.threads[t].task == Serve(Kill) && s.threads[t].pc.required
    ensures Ends(s, t, e, end)
    ensures Serves(ViewOf(s), ViewOf(end), s.threads[t].id, Kill, s.threads[t].pc.rec, s.now,
                   [if ok then Succeeds else Fails], end.threads[t].pc, u)
  {
    end := DeleteRuns(s, t, e, ok, u);
    if ok {
      KilledServes(ViewOf(s), s.threads[t].id, s.threads[t].pc.rec, s.now, e, u);
    }
  }

  lemma PauseRequestRuns(s: State, t: Tid, e: Ref, ok: bool, u: nat) returns (end: State)
    requires Holds(s, t, e, u) && s.threads[t].pc.CallingPause? && !s.threads[t].dropped
    requires s.threads[t].task == Serve(PauseNow) && s.threads[t].pc.rec.state == Running
    ensures Ends(s, t, e, end)
    ensures Serves(ViewOf(s), ViewOf(end), s.threads[t].id, PauseNow, s.threads[t].pc.rec, s.now,
                   [if ok then Succeeds else Fails], end.threads[t].pc, u)
  {
    var was := s.threads[t].pc.rec;
    end := PauseRuns(s, t, e, ok, u);
    if ok {
      WrittenServes(ViewOf(s), s.threads[t].id, PauseNow, was, was.(state := Paused), s.now, [Succeeds], e, u);
    }
  }

  lemma RenewalRuns(s: State, t: Tid, e: Ref, u: nat) returns (end: State)
    requires Holds(s, t, e, u) && s.threads[t].pc.Retiming? && s.threads[t].task.Serve? && !s.threads[t].dropped
    requires var request, pc := s.threads[t].task.request, s.threads[t].pc;
             && !request.Get? && !request.Kill? && Achieves(request, pc.rec, Retimed(pc.rec, pc.how, pc.endAt), s.now)
             && !IsConflict(request, pc.rec)
    ensures Ends(s, t, e, end)
    ensures var request, was := s.threads[t].task.request, s.threads[t].pc.rec;
            Serves(ViewOf(s), ViewOf(end), s.threads[t].id, request, was, s.now,
                   if NeedsRuntime(request, was) then [Succeeds] else [], end.threads[t].pc, u)
  {
    var request, pc := s.threads[t].task.request, s.threads[t].pc;
    end := RetimeRuns(s, t, e, u);
    WrittenServes(ViewOf(s), s.threads[t].id, request, pc.rec, Retimed(pc.rec, pc.how, pc.endAt), s.now,
                  if NeedsRuntime(request, pc.rec) then [Succeeds] else [], e, u);
  }

  lemma ResumeRuns(s: State, t: Tid, e: Ref, ok: bool, u: nat) returns (end: State)
    requires Holds(s, t, e, u) && s.threads[t].pc.CallingResume? && s.threads[t].task.Serve? && !s.threads[t].dropped
    requires s.threads[t].task.request.Resume? || s.threads[t].task.request.Connect?
    requires s.threads[t].pc.rec.state == Paused
    ensures Ends(s, t, e, end)
    ensures Serves(ViewOf(s), ViewOf(end), s.threads[t].id, s.threads[t].task.request, s.threads[t].pc.rec, s.now,
                   [if ok then Succeeds else Fails], end.threads[t].pc, u)
  {
    end := OwnerStep(s, t, e, if ok then Succeeds else Fails, u);
    if ok {
      var mid := end;
      var renewed := RenewalRuns(mid, t, e, u);
      EndsThen(s, t, e, mid, renewed);
      end := renewed;
    }
  }
}
