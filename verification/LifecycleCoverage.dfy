/** No lost expiry: every running sandbox keeps a timer or a callback for its own deadline. */
module LifecycleCoverage {
  import opened Wrappers
  import opened SandboxRecords
  import opened Deadlines
  import opened Lifecycle
  import opened LifecycleLocking
  import opened LifecycleRuns
  import opened LifecycleExpiry
  import opened LifecycleTimers

  /** A callback at one of these counters may still expire the sandbox, schedule a retry, or sync its deadline. */
  predicate Unspent(pc: Pc) {
    !pc.Cancelling? && !pc.CancelOnly? && !pc.Finishing? && !pc.Done? && !(pc.Releasing? && pc.answer.Some?)
  }

  ghost predicate Live(s: State, tm: TimerId) {
    && tm in s.mgr.timers
    && match s.mgr.timers[tm].status
       case Armed => true
       case Stopped => false
       case Fired(c) => c in s.threads && Unspent(s.threads[c].pc)
  }

  /** The timer in the table for `id`. */
  ghost predicate HasTimer(m: Manager, id: Id) {
    id in m.table && m.table[id].timer in m.timers
  }

  ghost function TimerOf(m: Manager, id: Id): Timer
    requires HasTimer(m, id)
  {
    m.timers[m.table[id].timer]
  }

  /** A timer made by a deadline sync fires at the deadline itself; a retry fires later. */
  ghost predicate IsPlain(timer: Timer) {
    timer.fireAt == timer.expected
  }

  /** No lock holder is between a store access and its deadline sync. */
  ghost predicate Clean(s: State, e: Ref) {
    e in s.locks && s.locks[e] in s.threads ==> !s.threads[s.locks[e]].pc.Syncing?
  }

  ghost predicate PlainIsLive(s: State, id: Id) {
    HasTimer(s.mgr, id) && IsPlain(TimerOf(s.mgr, id)) ==> Live(s, s.mgr.table[id].timer)
  }

  ghost predicate InStep(s: State, id: Id, rec: Record) {
    && (HasTimer(s.mgr, id) ==> TimerOf(s.mgr, id).expected == rec.endAt)
    && (rec.state == Running ==>
          if HasTimer(s.mgr, id) then Live(s, s.mgr.table[id].timer) else id in s.unsynced)
    && (rec.state != Running && HasTimer(s.mgr, id) ==> !IsPlain(TimerOf(s.mgr, id)))
  }

  ghost predicate Tracked(s: State, id: Id) {
    id in s.sandboxes && s.sandboxes[id] in s.entries && !s.mgr.stopped ==>
      PlainIsLive(s, id) && (Clean(s, s.sandboxes[id]) ==> InStep(s, id, s.entries[s.sandboxes[id]]))
  }

  ghost predicate Coverage(s: State, id: Id) {
    && Timers(s)
    && GoneWhenCancelled(s, id)
    && Tracked(s, id)
  }

  /** A step that neither touches this sandbox's record and timer nor spends the timer's callback. */
  lemma UntouchedStaysTracked(s: State, s': State, id: Id)
    requires Tracked(s, id)
    requires id in s.sandboxes && id in s'.sandboxes && s'.sandboxes[id] == s.sandboxes[id]
    requires s.sandboxes[id] in s.entries && s.sandboxes[id] in s'.entries
    requires s'.entries[s.sandboxes[id]] == s.entries[s.sandboxes[id]]
    requires !s'.mgr.stopped ==>
               && !s.mgr.stopped
               && (HasTimer(s'.mgr, id) <==> HasTimer(s.mgr, id))
               && (HasTimer(s.mgr, id) ==>
                     && s'.mgr.table[id] == s.mgr.table[id]
                     && TimerOf(s'.mgr, id).expected == TimerOf(s.mgr, id).expected
                     && TimerOf(s'.mgr, id).fireAt == TimerOf(s.mgr, id).fireAt
                     && ((Live(s, s.mgr.table[id].timer) ==> Live(s', s.mgr.table[id].timer))
                         || (s.entries[s.sandboxes[id]].state != Running && !IsPlain(TimerOf(s.mgr, id)))))
               && (Clean(s', s.sandboxes[id]) ==> Clean(s, s.sandboxes[id]))
               && (id in s.unsynced ==> id in s'.unsynced)
    ensures Tracked(s', id)
  {
  }

  /** Only the lock holder's own sync makes an entry clean again. */
  lemma CleanBefore(s: State, t: Tid, answer: Answer, unused: nat, e: Ref)
    requires Locking(s) && CanAdvance(s, t, answer, unused)
    requires Clean(AdvanceThread(s, t, answer, unused), e)
    ensures Clean(s, e) || (s.threads[t].pc.Syncing? && s.threads[t].pc.e == e)
  {
    if e in s.locks {
      assert s.locks[e] in s.threads && HeldEntry(s.threads[s.locks[e]].pc) == Some(e);
      assert ThreadLocks(s, t);
    }
  }

  lemma StoreElsewhere(s: State, t: Tid, answer: Answer, unused: nat, id: Id)
    requires Locking(s) && CanAdvance(s, t, answer, unused)
    requires id in s.sandboxes && id != s.threads[t].id
    ensures var s' := AdvanceThread(s, t, answer, unused);
            && id in s'.sandboxes && s'.sandboxes[id] == s.sandboxes[id]
            && s.sandboxes[id] in s.entries && s.sandboxes[id] in s'.entries
            && s'.entries[s.sandboxes[id]] == s.entries[s.sandboxes[id]]
            && (id in s.unsynced ==> id in s'.unsynced)
  {
  }

  lemma TimerElsewhere(s: State, t: Tid, answer: Answer, unused: nat, id: Id)
    requires TableFits(s.mgr) && CallbacksFit(s) && CanAdvance(s, t, answer, unused)
    requires id != s.threads[t].id
    ensures var s' := AdvanceThread(s, t, answer, unused);
            && (HasTimer(s'.mgr, id) <==> HasTimer(s.mgr, id))
            && (HasTimer(s.mgr, id) ==>
                  && s'.mgr.table[id] == s.mgr.table[id]
                  && TimerOf(s'.mgr, id) == TimerOf(s.mgr, id)
                  && (Live(s, s.mgr.table[id].timer) ==> Live(s', s.mgr.table[id].timer)))
  {
    var th := s.threads[t];
    PerformElsewhere(s.mgr, th.id, TimerCall(s, th), unused, id);
  }

  lemma PerformElsewhere(m: Manager, id: Id, call: Call, tm: TimerId, other: Id)
    requires TableFits(m) && tm !in m.timers && other != id
    ensures var m' := Perform(m, id, call, tm);
            && m'.stopped == m.stopped
            && (HasTimer(m', other) <==> HasTimer(m, other))
            && (HasTimer(m, other) ==> m'.table[other] == m.table[other] && TimerOf(m', other) == TimerOf(m, other))
  {
  }

  lemma CleanElsewhere(s: State, t: Tid, answer: Answer, unused: nat, id: Id)
    requires Locking(s) && CanAdvance(s, t, answer, unused) && TaskFits(s.threads[t])
    requires id in s.sandboxes && id != s.threads[t].id
    requires Clean(AdvanceThread(s, t, answer, unused), s.sandboxes[id])
    ensures Clean(s, s.sandboxes[id])
  {
    CleanBefore(s, t, answer, unused, s.sandboxes[id]);
    assert ThreadLocks(s, t) && OwnerIsCurrent(s, t);
  }

  lemma OtherSandboxStaysTracked(s: State, t: Tid, answer: Answer, unused: nat, id: Id)
    requires Timers(s) && Tracked(s, id) && CanAdvance(s, t, answer, unused)
    requires id in s.sandboxes && id != s.threads[t].id
    ensures Tracked(AdvanceThread(s, t, answer, unused), id)
  {
    var s' := AdvanceThread(s, t, answer, unused);
    StoreElsewhere(s, t, answer, unused, id);
    TimerElsewhere(s, t, answer, unused, id);
    if Clean(s', s.sandboxes[id]) {
      assert TaskFits(s.threads[t]);
      CleanElsewhere(s, t, answer, unused, id);
    }
    StoppedStays(s, t, answer, unused);
    UntouchedStaysTracked(s, s', id);
  }

  lemma StoppedStays(s: State, t: Tid, answer: Answer, unused: nat)
    requires CanAdvance(s, t, answer, unused)
    ensures AdvanceThread(s, t, answer, unused).mgr.stopped == s.mgr.stopped
  {
  }

  // ---------------------------------------------------------------- steps of a thread on its own sandbox

  /** A callback gives up its timer's cause only when it finds the sandbox gone, the manager stopped,
      or after judging, syncing or retrying under the lock. */
  lemma SpendsOnlyUnderLock(s: State, t: Tid, answer: Answer)
    requires t in s.threads && TaskFits(s.threads[t]) && OwnerIsCurrent(s, t) && ThreadLocks(s, t)
    requires s.threads[t].task.Expire? && s.threads[t].id in s.sandboxes && s.sandboxes[s.threads[t].id] in s.entries
    requires !s.mgr.stopped && !s.threads[t].pc.Dropping?
    requires Unspent(s.threads[t].pc) && !Unspent(NextPc(s, s.threads[t], answer))
    ensures s.threads[t].pc.Judging? || s.threads[t].pc.Syncing? || s.threads[t].pc.Retrying?
  {
  }

  predicate LeavesTimersAlone(s: State, th: Thread) {
    !TimerCall(s, th).ScheduleAt? && !TimerCall(s, th).CancelTimer?
  }

  lemma LocalMoveStaysTracked(s: State, t: Tid, answer: Answer, unused: nat)
    requires CanAdvance(s, t, answer, unused) && Coverage(s, s.threads[t].id)
    requires var th := s.threads[t];
             && th.id in s.sandboxes && !th.pc.Dropping? && !th.pc.Judging? && !th.pc.UnlockedSync?
             && LeavesTimersAlone(s, th) && !th.pc.Syncing? && !Writes(s, th)
    ensures Tracked(AdvanceThread(s, t, answer, unused), s.threads[t].id)
  {
    var s' := AdvanceThread(s, t, answer, unused);
    var th := s.threads[t];
    assert ThreadLocks(s, t) && OwnerIsCurrent(s, t);
    LocalMoveStaysLive(s, t, answer, unused);
    if Clean(s', s.sandboxes[th.id]) {
      CleanBefore(s, t, answer, unused, s.sandboxes[th.id]);
    }
    UntouchedStaysTracked(s, s', th.id);
  }

  lemma LocalMoveStaysLive(s: State, t: Tid, answer: Answer, unused: nat)
    requires Timers(s) && CanAdvance(s, t, answer, unused)
    requires var th := s.threads[t];
             && th.id in s.sandboxes && !th.pc.Dropping? && !th.pc.Judging? && !th.pc.UnlockedSync?
             && LeavesTimersAlone(s, th) && !th.pc.Syncing?
    ensures var s', id := AdvanceThread(s, t, answer, unused), s.threads[t].id;
            && s'.mgr.timers == s.mgr.timers && s'.mgr.table == s.mgr.table && s'.mgr.stopped == s.mgr.stopped
            && (HasTimer(s.mgr, id) && Live(s, s.mgr.table[id].timer) && !s.mgr.stopped ==> Live(s', s.mgr.table[id].timer))
  {
    var s', th := AdvanceThread(s, t, answer, unused), s.threads[t];
    assert ThreadLocks(s, t) && OwnerIsCurrent(s, t) && TaskFits(th);
    if HasTimer(s.mgr, th.id) && TimerOf(s.mgr, th.id).status == Fired(t) && Unspent(th.pc) && !s.mgr.stopped {
      if !Unspent(s'.threads[t].pc) {
        SpendsOnlyUnderLock(s, t, answer);
      }
    }
  }

  /** A judging callback that does not act leaves a table entry that needs no callback. */
  lemma JudgingLeavesNothing(s: State, t: Tid, answer: Answer, id: Id, rec: Record)
    requires t in s.threads && s.threads[t].pc.Judging? && s.threads[t].task.Expire? && s.threads[t].id == id
    requires GetRecord(s, id) == Some(rec) && rec.Settled() && s.threads[t].task.expected <= s.now
    requires HasTimer(s.mgr, id) && s.mgr.table[id].timer == s.threads[t].task.timer
    requires TimerOf(s.mgr, id).expected == s.threads[t].task.expected && InStep(s, id, rec)
    ensures Unspent(NextPc(s, s.threads[t], answer)) || (rec.state != Running && !IsPlain(TimerOf(s.mgr, id)))
  {
  }

  lemma JudgingKeepsTimer(s: State, t: Tid, answer: Answer, unused: nat)
    requires CanAdvance(s, t, answer, unused) && s.threads[t].pc.Judging? && s.threads[t].task.Expire?
    requires var id := s.threads[t].id;
             && GetRecord(s, id).Some? && GetRecord(s, id).value.Settled() && s.threads[t].task.expected <= s.now
             && Tracked(s, id) && Clean(s, s.sandboxes[id])
             && (HasTimer(s.mgr, id) && TimerOf(s.mgr, id).status == Fired(t) ==>
                   s.threads[t].task == Expire(s.mgr.table[id].timer, TimerOf(s.mgr, id).expected))
    ensures Tracked(AdvanceThread(s, t, answer, unused), s.threads[t].id)
  {
    var id := s.threads[t].id;
    if !s.mgr.stopped && HasTimer(s.mgr, id) && TimerOf(s.mgr, id).status == Fired(t) {
      JudgingLeavesNothing(s, t, answer, id, GetRecord(s, id).value);
    }
    UntouchedStaysTracked(s, AdvanceThread(s, t, answer, unused), id);
  }

  lemma JudgingStaysTracked(s: State, t: Tid, answer: Answer, unused: nat)
    requires CanAdvance(s, t, answer, unused) && Coverage(s, s.threads[t].id)
    requires s.threads[t].pc.Judging?
    ensures Tracked(AdvanceThread(s, t, answer, unused), s.threads[t].id)
  {
    JudgingFacts(s, t);
    JudgingKeepsTimer(s, t, answer, unused);
  }

  /** What a judging callback knows before it judges. */
  lemma JudgingFacts(s: State, t: Tid)
    requires Timers(s) && t in s.threads && s.threads[t].pc.Judging?
    ensures s.threads[t].task.Expire? && s.threads[t].task.expected <= s.now
    ensures var id := s.threads[t].id;
            && GetRecord(s, id).Some? && GetRecord(s, id).value.Settled() && Clean(s, s.sandboxes[id])
            && (HasTimer(s.mgr, id) && TimerOf(s.mgr, id).status == Fired(t) ==>
                  s.threads[t].task == Expire(s.mgr.table[id].timer, TimerOf(s.mgr, id).expected))
  {
    assert ThreadLocks(s, t) && OwnerIsCurrent(s, t) && TaskFits(s.threads[t]) && ExpiryFits(s, t);
  }

  lemma WritingStaysTracked(s: State, t: Tid, answer: Answer, unused: nat)
    requires CanAdvance(s, t, answer, unused) && Coverage(s, s.threads[t].id)
    requires Writes(s, s.threads[t])
    ensures Tracked(AdvanceThread(s, t, answer, unused), s.threads[t].id)
  {
    var s' := AdvanceThread(s, t, answer, unused);
    var th := s.threads[t];
    assert ThreadLocks(s, t) && OwnerIsCurrent(s, t) && Tracked(s, th.id);
    assert s'.mgr == s.mgr && s'.threads[t].pc.Syncing?;
    assert !Clean(s', s.sandboxes[th.id]);
  }

  lemma SyncResult(m: Manager, id: Id, rec: Record, tm: TimerId)
    requires TableFits(m) && !m.stopped && tm !in m.timers && rec.Settled()
    requires rec.state == Running ==> !Collides(m, id, rec.endAt, rec.endAt)
    ensures var m' := Perform(m, id, SyncCall(rec), tm);
            if rec.state == Running then
              && HasTimer(m', id) && TimerOf(m', id).expected == rec.endAt && IsPlain(TimerOf(m', id))
              && (TimerOf(m', id).status.Armed? || m' == m)
            else !HasTimer(m', id)
  {
  }

  lemma SyncingStaysTracked(s: State, t: Tid, answer: Answer, unused: nat)
    requires CanAdvance(s, t, answer, unused) && Coverage(s, s.threads[t].id)
    requires s.threads[t].pc.Syncing? && !CollidingSchedule(s, Advance(t, answer, unused), s.threads[t].id)
    ensures Tracked(AdvanceThread(s, t, answer, unused), s.threads[t].id)
  {
    var s' := AdvanceThread(s, t, answer, unused);
    var th := s.threads[t];
    assert ThreadLocks(s, t) && OwnerIsCurrent(s, t) && TaskFits(th) && ExpiryFits(s, t) && Tracked(s, th.id);
    if !s.mgr.stopped {
      SyncResult(s.mgr, th.id, th.pc.rec, unused);
    }
  }

  lemma FreshTimerTracks(s: State, id: Id)
    requires GetRecord(s, id).Some? && HasTimer(s.mgr, id) && TimerOf(s.mgr, id).status.Armed?
    requires TimerOf(s.mgr, id).expected == GetRecord(s, id).value.endAt
    requires GetRecord(s, id).value.state == Running || !IsPlain(TimerOf(s.mgr, id))
    ensures Tracked(s, id)
  {
  }

  lemma RetryResult(m: Manager, id: Id, now: Time, expected: Time, tm: TimerId)
    requires TableFits(m) && TimersFit(m, now) && !m.stopped && tm !in m.timers && expected <= now
    requires !Collides(m, id, now + RETRY_DELAY, expected)
    ensures var m' := Schedule(m, id, now + RETRY_DELAY, expected, tm);
            && HasTimer(m', id) && TimerOf(m', id).expected == expected && !IsPlain(TimerOf(m', id))
            && TimerOf(m', id).status.Armed? && m'.stopped == m.stopped
  {
  }

  lemma RetryTracks(s: State, t: Tid, answer: Answer, unused: nat)
    requires CanAdvance(s, t, answer, unused) && s.threads[t].pc.Retrying? && s.threads[t].task.Expire?
    requires GetRecord(s, s.threads[t].id).Some?
    requires GetRecord(s, s.threads[t].id).value.endAt == s.threads[t].task.expected <= s.now
    requires TableFits(s.mgr) && TimersFit(s.mgr, s.now) && !CollidingSchedule(s, Advance(t, answer, unused), s.threads[t].id)
    ensures Tracked(AdvanceThread(s, t, answer, unused), s.threads[t].id)
  {
    if !s.mgr.stopped {
      RetryResult(s.mgr, s.threads[t].id, s.now, s.threads[t].task.expected, unused);
      FreshTimerTracks(AdvanceThread(s, t, answer, unused), s.threads[t].id);
    }
  }

  lemma RetryFacts(s: State, t: Tid)
    requires Expiry(s) && t in s.threads && s.threads[t].pc.Retrying?
    ensures s.threads[t].task.Expire? && GetRecord(s, s.threads[t].id).Some?
    ensures GetRecord(s, s.threads[t].id).value.endAt == s.threads[t].task.expected <= s.now
  {
    assert ThreadLocks(s, t) && OwnerIsCurrent(s, t) && TaskFits(s.threads[t]) && ExpiryFits(s, t);
  }

  lemma RetryingStaysTracked(s: State, t: Tid, answer: Answer, unused: nat)
    requires CanAdvance(s, t, answer, unused) && Coverage(s, s.threads[t].id)
    requires s.threads[t].pc.Retrying? && !CollidingSchedule(s, Advance(t, answer, unused), s.threads[t].id)
    ensures Tracked(AdvanceThread(s, t, answer, unused), s.threads[t].id)
  {
    RetryFacts(s, t);
    RetryTracks(s, t, answer, unused);
  }

  lemma UnlockedSyncStaysTracked(s: State, t: Tid, answer: Answer, unused: nat)
    requires CanAdvance(s, t, answer, unused) && Coverage(s, s.threads[t].id)
    requires s.threads[t].pc.UnlockedSync?
    requires !CollidingSchedule(s, Advance(t, answer, unused), s.threads[t].id) && !StaleSync(s, Advance(t, answer, unused), s.threads[t].id)
    requires s.threads[t].id in s.sandboxes
    ensures Tracked(AdvanceThread(s, t, answer, unused), s.threads[t].id)
  {
    var th := s.threads[t];
    assert ThreadIdFits(s, th) && TaskFits(th);
    if Clean(AdvanceThread(s, t, answer, unused), s.sandboxes[th.id]) {
      CleanBefore(s, t, answer, unused, s.sandboxes[th.id]);
    }
    UnlockedSyncTracks(s, t, answer, unused);
  }

  lemma UnlockedSyncTracks(s: State, t: Tid, answer: Answer, unused: nat)
    requires CanAdvance(s, t, answer, unused) && s.threads[t].pc.UnlockedSync? && s.threads[t].pc.rec.Settled()
    requires !CollidingSchedule(s, Advance(t, answer, unused), s.threads[t].id)
    requires !StaleSync(s, Advance(t, answer, unused), s.threads[t].id)
    requires var id := s.threads[t].id;
             && Tracked(s, id) && GetRecord(s, id).Some? && TableFits(s.mgr)
             && (Clean(AdvanceThread(s, t, answer, unused), s.sandboxes[id]) ==> Clean(s, s.sandboxes[id]))
             && (HasTimer(s.mgr, id) && TimerOf(s.mgr, id).status.Fired? ==> TimerOf(s.mgr, id).status.callback != t)
    ensures Tracked(AdvanceThread(s, t, answer, unused), s.threads[t].id)
  {
    if !s.mgr.stopped {
      SyncResult(s.mgr, s.threads[t].id, s.threads[t].pc.rec, unused);
    }
  }

  // ---------------------------------------------------------------- every step

  lemma StoredAnewIsTracked(s: State, s': State, id: Id, e: Ref, rec: Record)
    requires Timers(s) && id !in s.born
    requires s'.sandboxes == s.sandboxes[id := e] && s'.entries == s.entries[e := rec] && s'.mgr == s.mgr
    requires id in s'.unsynced
    ensures Tracked(s', id)
  {
    assert forall tm :: tm in s.mgr.timers ==> s.mgr.timers[tm].id != id;
  }

  lemma AdvanceKeepsTracked(s: State, t: Tid, answer: Answer, unused: nat, id: Id)
    requires Coverage(s, id) && CanAdvance(s, t, answer, unused)
    requires var step := Advance(t, answer, unused); !StaleSync(s, step, id) && !CollidingSchedule(s, step, id)
    requires Inserts(s, s.threads[t], answer) && s.threads[t].id == id ==> id !in s.born
    requires id in AdvanceThread(s, t, answer, unused).sandboxes
    ensures Tracked(AdvanceThread(s, t, answer, unused), id)
  {
    var s' := AdvanceThread(s, t, answer, unused);
    var th := s.threads[t];
    if id != th.id {
      OtherSandboxStaysTracked(s, t, answer, unused, id);
    } else if Inserts(s, th, answer) {
      assert ThreadIdFits(s, th);
      StoredAnewIsTracked(s, s', id, unused, th.pc.rec);
    } else if Writes(s, th) {
      WritingStaysTracked(s, t, answer, unused);
    } else if th.pc.Judging? {
      JudgingStaysTracked(s, t, answer, unused);
    } else if th.pc.Syncing? {
      SyncingStaysTracked(s, t, answer, unused);
    } else if th.pc.Retrying? {
      RetryingStaysTracked(s, t, answer, unused);
    } else if th.pc.UnlockedSync? {
      UnlockedSyncStaysTracked(s, t, answer, unused);
    } else {
      LocalMoveStaysTracked(s, t, answer, unused);
    }
  }

  function AllGuards(id: Id): Guards {
    Guards(id, true, true, true)
  }

  lemma FireKeepsTracked(s: State, tm: TimerId, t: Tid, id: Id)
    requires Tracked(s, id) && Enabled(s, Fire(tm, t)) && id in s.sandboxes && s.sandboxes[id] in s.entries
    requires HasTimer(s.mgr, id) && TimerOf(s.mgr, id).status.Fired? ==> TimerOf(s.mgr, id).status.callback in s.threads
    ensures Tracked(Apply(s, Fire(tm, t)), id)
  {
    var s' := Apply(s, Fire(tm, t));
    assert Live(s', tm);
    UntouchedStaysTracked(s, s', id);
  }

  lemma EnvironmentKeepsTracked(s: State, step: Step, id: Id)
    requires Tracked(s, id) && Enabled(s, step) && !step.Advance? && !step.Restore? && !step.Fire?
    requires id in s.sandboxes && s.sandboxes[id] in s.entries
    requires s.sandboxes[id] in s.locks ==> s.locks[s.sandboxes[id]] in s.threads
    ensures Tracked(Apply(s, step), id)
  {
    UntouchedStaysTracked(s, Apply(s, step), id);
  }

  lemma RestoreKeepsTracked(s: State, step: Step, id: Id)
    requires Coverage(s, id) && Enabled(s, step) && step.Restore? && (step.id == id ==> id !in s.born)
    requires id in Apply(s, step).sandboxes
    ensures Tracked(Apply(s, step), id)
  {
    var s' := Apply(s, step);
    if id == step.id {
      StoredAnewIsTracked(s, s', id, step.e, Enrich(step.raw, s.now).value);
    } else {
      RestoreElsewhere(s, step, id);
    }
  }

  lemma RestoreElsewhere(s: State, step: Step, id: Id)
    requires Tracked(s, id) && Enabled(s, step) && step.Restore? && step.id != id
    requires id in s.sandboxes && s.sandboxes[id] in s.entries
    requires s.sandboxes[id] in s.locks ==> s.locks[s.sandboxes[id]] in s.threads
    ensures Tracked(Apply(s, step), id)
  {
    UntouchedStaysTracked(s, Apply(s, step), id);
  }

  lemma CoverageStep(s: State, step: Step, id: Id)
    requires Coverage(s, id) && Enabled(s, step) && Obeys(s, step, AllGuards(id))
    ensures Coverage(Apply(s, step), id)
  {
    TimersStepKeeps(s, step);
    GoneStep(s, step, id);
    if id in Apply(s, step).sandboxes {
      if step.Advance? {
        AdvanceKeepsTracked(s, step.t, step.answer, step.unused, id);
      } else if step.Restore? {
        RestoreKeepsTracked(s, step, id);
      } else if step.Fire? {
        FireKeepsTracked(s, step.tm, step.t, id);
      } else {
        EnvironmentKeepsTracked(s, step, id);
      }
    }
  }

  lemma {:induction false} CoverageOnRuns(s: State, steps: seq<Step>, end: State, id: Id)
    requires Coverage(s, id) && Run(s, steps, AllGuards(id), end)
    ensures Coverage(end, id)
    decreases |steps|
  {
    if steps != [] {
      CoverageStep(s, steps[0], id);
      CoverageOnRuns(Apply(s, steps[0]), steps[1..], end, id);
    }
  }

  /** An armed timer for exactly this sandbox and deadline. */
  ghost predicate ArmedFor(s: State, id: Id, endAt: Time) {
    exists tm :: tm in s.mgr.timers && s.mgr.timers[tm].status.Armed?
                 && s.mgr.timers[tm].id == id && s.mgr.timers[tm].expected == endAt
  }

  /** A callback in flight for exactly this sandbox and deadline that has not judged the record yet. */
  ghost predicate InFlightFor(s: State, id: Id, endAt: Time) {
    exists t :: t in s.threads && s.threads[t].id == id && s.threads[t].task.Expire?
                && s.threads[t].task.expected == endAt && HasNotJudged(s.threads[t].pc)
  }

  predicate HasNotJudged(pc: Pc) {
    pc.Admitting? || pc.Lookup? || pc.Contending? || pc.Validating? || (pc.Releasing? && pc.answer.None?) || pc.Judging?
  }

  /** No lost expiry: while the manager is not stopped, a running sandbox whose lock is free has an armed timer or
      a callback in flight for its present deadline, unless the sync of its own creation is still to come. */
  lemma {:induction false} NoExpiryIsLost(init: State, steps: seq<Step>, s: State, id: Id)
    requires Init(init) && Run(init, steps, AllGuards(id), s)
    requires !s.mgr.stopped && GetRecord(s, id).Some? && s.sandboxes[id] !in s.locks
    requires GetRecord(s, id).value.state == Running && id !in s.unsynced
    ensures ArmedFor(s, id, GetRecord(s, id).value.endAt) || InFlightFor(s, id, GetRecord(s, id).value.endAt)
  {
    CoverageOnRuns(init, steps, s, id);
    CoveredWhenFree(s, id);
  }

  lemma CoveredWhenFree(s: State, id: Id)
    requires Coverage(s, id)
    requires !s.mgr.stopped && GetRecord(s, id).Some? && s.sandboxes[id] !in s.locks
    requires GetRecord(s, id).value.state == Running && id !in s.unsynced
    ensures ArmedFor(s, id, GetRecord(s, id).value.endAt) || InFlightFor(s, id, GetRecord(s, id).value.endAt)
  {
    assert Tracked(s, id) && Clean(s, s.sandboxes[id]);
    var tm := s.mgr.table[id].timer;
    if s.mgr.timers[tm].status.Fired? {
      var c := s.mgr.timers[tm].status.callback;
      assert TaskFits(s.threads[c]) && ThreadLocks(s, c) && OwnerIsCurrent(s, c);
      assert HasNotJudged(s.threads[c].pc);
    }
  }
}
