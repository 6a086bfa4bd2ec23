/** Where the no-lost-expiry guarantee ends: at the step that each of its three conditions is about, a timer is there after
    the step if and only if the condition is met. */
module LifecycleLimits {
  import opened Wrappers
  import opened SandboxRecords
  import opened Deadlines
  import opened Lifecycle
  import opened LifecycleLocking
  import opened LifecycleRuns
  import opened LifecycleExpiry
  import opened LifecycleTimers
  import opened LifecycleCoverage

  /** The table has a live timer that was made for this deadline. */
  ghost predicate TimedFor(s: State, id: Id, endAt: Time) {
    HasTimer(s.mgr, id) && TimerOf(s.mgr, id).expected == endAt && Live(s, s.mgr.table[id].timer)
  }

  /** Every armed timer is in the table, so a table entry made for another deadline leaves this one without a timer. */
  lemma ArmedMeansTimed(s: State, id: Id, endAt: Time)
    requires TableFits(s.mgr) && ArmedFor(s, id, endAt)
    ensures TimedFor(s, id, endAt)
  {
  }

  /** A lock holder's sync of a running record leaves a live timer for its deadline exactly when the schedule
      does not collide with a timer kept for another deadline. */
  lemma LockedSyncCoversExactly(s: State, t: Tid, answer: Answer, unused: nat)
    requires CanAdvance(s, t, answer, unused) && Coverage(s, s.threads[t].id) && !s.mgr.stopped
    requires s.threads[t].pc.Syncing? && s.threads[t].pc.rec.state == Running
    ensures var s', id, endAt := AdvanceThread(s, t, answer, unused), s.threads[t].id, s.threads[t].pc.rec.endAt;
            && (TimedFor(s', id, endAt) <==> !CollidingSchedule(s, Advance(t, answer, unused), s.threads[t].id))
            && (ArmedFor(s', id, endAt) ==> !CollidingSchedule(s, Advance(t, answer, unused), s.threads[t].id))
  {
    var s', th := AdvanceThread(s, t, answer, unused), s.threads[t];
    assert ThreadLocks(s, t) && OwnerIsCurrent(s, t) && TaskFits(th) && ExpiryFits(s, t);
    TableStep(s, Advance(t, answer, unused));
    if CollidingSchedule(s, Advance(t, answer, unused), s.threads[t].id) {
      assert s'.mgr == s.mgr;
      if ArmedFor(s', th.id, th.pc.rec.endAt) {
        ArmedMeansTimed(s', th.id, th.pc.rec.endAt);
      }
    } else {
      SyncingStaysTracked(s, t, answer, unused);
      SyncResult(s.mgr, th.id, th.pc.rec, unused);
    }
  }

  /** The unlocked sync of a creation, met by a running record, leaves a live timer for the stored deadline exactly when the
      record it works from is not stale; or, if a timer made for another deadline is kept, when there was one before. */
  lemma UnlockedSyncCoversExactly(s: State, t: Tid, answer: Answer, unused: nat)
    requires CanAdvance(s, t, answer, unused) && Coverage(s, s.threads[t].id) && !s.mgr.stopped
    requires s.threads[t].pc.UnlockedSync?
    requires GetRecord(s, s.threads[t].id).Some? && GetRecord(s, s.threads[t].id).value.state == Running
    ensures var s', id, step := AdvanceThread(s, t, answer, unused), s.threads[t].id, Advance(t, answer, unused);
            var endAt := GetRecord(s, id).value.endAt;
            && GetRecord(s', id) == GetRecord(s, id)
            && (CollidingSchedule(s, step, id) ==> s'.mgr == s.mgr && (TimedFor(s', id, endAt) <==> TimedFor(s, id, endAt)))
            && (!CollidingSchedule(s, step, id) ==> (TimedFor(s', id, endAt) <==> !StaleSync(s, step, id)))
            && (!CollidingSchedule(s, step, id) && ArmedFor(s', id, endAt) ==> !StaleSync(s, step, id))
  {
    if CollidingSchedule(s, Advance(t, answer, unused), s.threads[t].id) {
      assert TaskFits(s.threads[t]);
      CollisionKeepsTimers(s, t, answer, unused, GetRecord(s, s.threads[t].id).value.endAt);
    } else {
      CleanUnlockedSync(s, t, answer, unused);
    }
  }

  lemma CollisionKeepsTimers(s: State, t: Tid, answer: Answer, unused: nat, endAt: Time)
    requires CanAdvance(s, t, answer, unused) && s.threads[t].pc.UnlockedSync? && TaskFits(s.threads[t]) && CallbacksFit(s)
    requires CollidingSchedule(s, Advance(t, answer, unused), s.threads[t].id)
    ensures AdvanceThread(s, t, answer, unused).mgr == s.mgr
    ensures TimedFor(AdvanceThread(s, t, answer, unused), s.threads[t].id, endAt) <==> TimedFor(s, s.threads[t].id, endAt)
  {
  }

  lemma CleanUnlockedSync(s: State, t: Tid, answer: Answer, unused: nat)
    requires CanAdvance(s, t, answer, unused) && Coverage(s, s.threads[t].id) && !s.mgr.stopped
    requires s.threads[t].pc.UnlockedSync?
    requires GetRecord(s, s.threads[t].id).Some? && GetRecord(s, s.threads[t].id).value.state == Running
    requires !CollidingSchedule(s, Advance(t, answer, unused), s.threads[t].id)
    ensures var s', id := AdvanceThread(s, t, answer, unused), s.threads[t].id;
            var endAt := GetRecord(s, id).value.endAt;
            && GetRecord(s', id) == GetRecord(s, id)
            && (TimedFor(s', id, endAt) <==> !StaleSync(s, Advance(t, answer, unused), s.threads[t].id))
            && (ArmedFor(s', id, endAt) ==> !StaleSync(s, Advance(t, answer, unused), s.threads[t].id))
  {
    var s', th := AdvanceThread(s, t, answer, unused), s.threads[t];
    assert ThreadIdFits(s, th);
    TableStep(s, Advance(t, answer, unused));
    SyncResult(s.mgr, th.id, th.pc.rec, unused);
    var endAt := GetRecord(s, th.id).value.endAt;
    if StaleSync(s, Advance(t, answer, unused), s.threads[t].id) {
      if ArmedFor(s', th.id, endAt) {
        ArmedMeansTimed(s', th.id, endAt);
      }
    } else {
      UnlockedSyncStaysTracked(s, t, answer, unused);
    }
  }

  /** Whether a running record stored under the ID has a live timer for its deadline. */
  ghost predicate RunningIsTimed(s: State, id: Id) {
    GetRecord(s, id).Some? && GetRecord(s, id).value.state == Running ==> TimedFor(s, id, GetRecord(s, id).value.endAt)
  }

  /** The cancel that follows a removal, and the one of a callback that finds no entry and so has no lock, leave no timer armed
      under the ID, whoever it was armed for. So each leaves no running record without a timer exactly when the ID has not
      been stored anew, and runs, in between. */
  lemma CancelCoversExactly(s: State, t: Tid, answer: Answer, unused: nat)
    requires TableFits(s.mgr) && CanAdvance(s, t, answer, unused)
    requires s.threads[t].pc.Cancelling? || s.threads[t].pc.CancelOnly?
    ensures var s', id := AdvanceThread(s, t, answer, unused), s.threads[t].id;
            && GetRecord(s', id) == GetRecord(s, id)
            && (forall endAt :: !ArmedFor(s', id, endAt))
            && (RunningIsTimed(s', id) <==> !(GetRecord(s, id).Some? && GetRecord(s, id).value.state == Running))
  {
    PerformKeepsTable(s.mgr, s.threads[t].id, CancelTimer, unused);
    var s', id := AdvanceThread(s, t, answer, unused), s.threads[t].id;
    forall endAt ensures !ArmedFor(s', id, endAt) {
      if ArmedFor(s', id, endAt) {
        ArmedMeansTimed(s', id, endAt);
      }
    }
  }
}
