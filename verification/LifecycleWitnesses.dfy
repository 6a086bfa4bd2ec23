/** Concrete runs in which a running sandbox is left without a timer: one in which a creation syncs its deadline too late, and
    one in which a retry's timer is kept for a later deadline. */
module LifecycleWitnesses {
  import opened Wrappers
  import opened SandboxRecords
  import opened Deadlines
  import opened Lifecycle
  import opened LifecycleLocking
  import opened LifecycleRuns
  import opened LifecycleCoverage

  const BOX: Id := 7
  const START: State :=
    State(1, false, map[], map[], map[], Manager(map[], map[], false, 0), map[], {}, false, {}, {}, {})

  ghost predicate Reachable(s: State, g: Guards) {
    exists steps :: Run(START, steps, g, s)
  }

  /** A free, running sandbox that has neither an armed timer nor a callback in flight for its deadline. */
  ghost predicate Lost(s: State, id: Id) {
    && !s.mgr.stopped && GetRecord(s, id).Some? && s.sandboxes[id] !in s.locks && id !in s.unsynced
    && GetRecord(s, id).value.state == Running
    && !ArmedFor(s, id, GetRecord(s, id).value.endAt) && !InFlightFor(s, id, GetRecord(s, id).value.endAt)
  }

  // ---------------------------------------------------------------- one step at a time

  lemma Then(g: Guards, mid: State, step: Step)
    requires Reachable(mid, g) && Enabled(mid, step) && Obeys(mid, step, g)
    ensures Reachable(Apply(mid, step), g)
  {
    var xs :| Run(START, xs, g, mid);
    var end := Apply(mid, step);
    assert [step][1..] == [];
    assert Run(end, [], g, end);
    RunsCompose(START, xs, g, mid, [step], end);
  }

  function At(s: State, t: Tid, pc: Pc): State
    requires t in s.threads
  {
    s.(threads := s.threads[t := s.threads[t].(pc := pc)])
  }

  /** The counters whose step changes nothing but the counter itself. */
  predicate IsLocal(pc: Pc) {
    pc.Lookup? || pc.Validating? || pc.Checking? || pc.Acting? || pc.Judging? || pc.CallingPause?
  }

  predicate Ready(s: State, t: Tid, unused: nat) {
    t in s.threads && unused !in s.entries && unused !in s.mgr.timers
  }

  lemma MoveIsLocal(s: State, t: Tid, answer: Answer, unused: nat)
    requires Ready(s, t, unused) && IsLocal(s.threads[t].pc)
    requires answer == Succeeds || answer == Fails
    ensures CanAdvance(s, t, answer, unused)
    ensures AdvanceThread(s, t, answer, unused) == At(s, t, NextPc(s, s.threads[t], answer))
  {
  }

  lemma Move(g: Guards, s: State, t: Tid, answer: Answer, unused: nat, pc: Pc)
    requires Reachable(s, g) && Ready(s, t, unused) && IsLocal(s.threads[t].pc)
    requires answer == Succeeds || answer == Fails
    requires NextPc(s, s.threads[t], answer) == pc
    ensures Reachable(At(s, t, pc), g)
  {
    MoveIsLocal(s, t, answer, unused);
    Then(g, s, Advance(t, answer, unused));
  }

  lemma Acquire(g: Guards, s: State, t: Tid, unused: nat, e: Ref)
    requires Reachable(s, g) && Ready(s, t, unused) && s.threads[t].pc == Contending(e) && e !in s.locks
    ensures Reachable(At(s.(locks := s.locks[e := t]), t, Validating(e)), g)
  {
    Then(g, s, Advance(t, Succeeds, unused));
    assert Apply(s, Advance(t, Succeeds, unused)) == At(s.(locks := s.locks[e := t]), t, Validating(e));
  }

  lemma Unlock(g: Guards, s: State, t: Tid, unused: nat, e: Ref, pc: Pc)
    requires Reachable(s, g) && Ready(s, t, unused) && s.threads[t].pc == Releasing(e, Some(Ok))
    requires pc == if s.threads[t].task.Expire? then Finishing else Done(Ok)
    ensures Reachable(At(s.(locks := s.locks - {e}), t, pc), g)
  {
    Then(g, s, Advance(t, Succeeds, unused));
    assert Apply(s, Advance(t, Succeeds, unused)) == At(s.(locks := s.locks - {e}), t, pc);
  }

  lemma Write(g: Guards, s: State, t: Tid, unused: nat, pc: Pc)
    requires Reachable(s, g) && Ready(s, t, unused) && s.threads[t].pc.Retiming? && Writes(s, s.threads[t])
    requires pc == NextPc(s, s.threads[t], Succeeds) && pc.Syncing?
    ensures Reachable(At(s.(entries := s.entries[s.sandboxes[s.threads[t].id] := pc.rec]), t, pc), g)
  {
    Then(g, s, Advance(t, Succeeds, unused));
    assert Apply(s, Advance(t, Succeeds, unused))
        == At(s.(entries := s.entries[s.sandboxes[s.threads[t].id] := pc.rec]), t, pc);
  }

  predicate CallsManager(pc: Pc) {
    pc.Syncing? || pc.Retrying? || pc.Admitting? || pc.Finishing? || pc.Cancelling?
  }

  lemma CallIsAll(s: State, t: Tid, unused: nat, mgr: Manager, pc: Pc)
    requires Ready(s, t, unused) && CallsManager(s.threads[t].pc)
    requires pc == NextPc(s, s.threads[t], Succeeds)
    requires mgr == Perform(s.mgr, s.threads[t].id, TimerCall(s, s.threads[t]), unused)
    ensures CanAdvance(s, t, Succeeds, unused)
    ensures AdvanceThread(s, t, Succeeds, unused) == At(s.(mgr := mgr), t, pc)
  {
  }

  /** A step that calls the manager and nothing else. */
  lemma CallManager(g: Guards, s: State, t: Tid, unused: nat, mgr: Manager, pc: Pc)
    requires Reachable(s, g) && Ready(s, t, unused) && CallsManager(s.threads[t].pc)
    requires g.distinctFires ==> !CollidingSchedule(s, Advance(t, Succeeds, unused), g.id)
    requires pc == NextPc(s, s.threads[t], Succeeds)
    requires mgr == Perform(s.mgr, s.threads[t].id, TimerCall(s, s.threads[t]), unused)
    ensures Reachable(At(s.(mgr := mgr), t, pc), g)
  {
    CallIsAll(s, t, unused, mgr, pc);
    Then(g, s, Advance(t, Succeeds, unused));
  }

  lemma Ask(g: Guards, s: State, t: Tid, id: Id, request: Request)
    requires Reachable(s, g) && t !in s.threads
    ensures Reachable(s.(threads := s.threads[t := Thread(id, Serve(request), Lookup, false)]), g)
  {
    Then(g, s, Arrive(t, id, request));
  }

  lemma SyncUnlocked(g: Guards, s: State, t: Tid, unused: nat, mgr: Manager)
    requires Reachable(s, g) && Ready(s, t, unused) && s.threads[t].pc.UnlockedSync?
    requires g.distinctFires ==> !CollidingSchedule(s, Advance(t, Succeeds, unused), g.id)
    requires g.freshSyncs ==> !StaleSync(s, Advance(t, Succeeds, unused), g.id)
    requires mgr == Perform(s.mgr, s.threads[t].id, SyncCall(s.threads[t].pc.rec), unused)
    ensures Reachable(At(s.(mgr := mgr, unsynced := s.unsynced - {s.threads[t].id}), t, Done(Ok)), g)
  {
    Then(g, s, Advance(t, Succeeds, unused));
    assert Apply(s, Advance(t, Succeeds, unused))
        == At(s.(mgr := mgr, unsynced := s.unsynced - {s.threads[t].id}), t, Done(Ok));
  }

  // ---------------------------------------------------------------- longer pieces

  /** A thread at Lookup takes the free lock of its sandbox's entry and finds it current. */
  lemma TakeLock(g: Guards, s: State, t: Tid, unused: nat, e: Ref, pc: Pc)
    requires Reachable(s, g) && Ready(s, t, unused) && s.threads[t].pc == Lookup
    requires s.threads[t].id in s.sandboxes && s.sandboxes[s.threads[t].id] == e && e !in s.locks
    requires pc == if s.threads[t].task.Expire? then Judging(e) else Checking(e)
    ensures Reachable(At(s.(locks := s.locks[e := t]), t, pc), g)
  {
    Contend(g, s, t, unused, e);
    var locked := At(s.(locks := s.locks[e := t]), t, Validating(e));
    Move(g, locked, t, Succeeds, unused, pc);
    assert At(locked, t, pc) == At(s.(locks := s.locks[e := t]), t, pc);
  }

  lemma Contend(g: Guards, s: State, t: Tid, unused: nat, e: Ref)
    requires Reachable(s, g) && Ready(s, t, unused) && s.threads[t].pc == Lookup
    requires s.threads[t].id in s.sandboxes && s.sandboxes[s.threads[t].id] == e && e !in s.locks
    ensures Reachable(At(s.(locks := s.locks[e := t]), t, Validating(e)), g)
  {
    Move(g, s, t, Succeeds, unused, Contending(e));
    var waiting := At(s, t, Contending(e));
    Acquire(g, waiting, t, unused, e);
    assert At(waiting.(locks := waiting.locks[e := t]), t, Validating(e)) == At(s.(locks := s.locks[e := t]), t, Validating(e));
  }

  const SHORT: Record := Record(Running, 1, 1 + 10 * SECOND, PauseOnTimeout)

  const CREATED: Thread := Thread(BOX, Provision, Done(Ok), false)

  /** States in which the sandbox is stored as `rec` under entry 0. */
  function Snap(now: Time, rec: Record, locks: map<Ref, Tid>, mgr: Manager, threads: map<Tid, Thread>, unsynced: set<Id>)
    : State
  {
    State(now, false, map[BOX := 0], map[0 := rec], locks, mgr, threads, {BOX}, false, {BOX}, unsynced, {})
  }

  /** The sandbox is stored; its creating thread 1 has not synced the deadline yet. */
  const STORED: State :=
    Snap(1, SHORT, map[], START.mgr, map[1 := Thread(BOX, Provision, UnlockedSync(SHORT), false)], {BOX})
  const CREATING: State := START.(threads := map[1 := Thread(BOX, Provision, Creating(SHORT), false)])
  const MADE: State := START.(threads := map[1 := Thread(BOX, Provision, Storing(SHORT), false)], runtime := {BOX})

  lemma Make(g: Guards)
    ensures Reachable(MADE, g)
  {
    assert Run(START, [], g, START);
    Then(g, START, BeginCreate(1, BOX, 10, PauseOnTimeout));
    assert Apply(START, BeginCreate(1, BOX, 10, PauseOnTimeout)) == CREATING;
    Then(g, CREATING, Advance(1, Succeeds, 0));
    assert Apply(CREATING, Advance(1, Succeeds, 0)) == MADE;
  }

  lemma Create(g: Guards)
    ensures Reachable(STORED, g)
  {
    Make(g);
    Then(g, MADE, Advance(1, Succeeds, 0));
    assert Apply(MADE, Advance(1, Succeeds, 0)) == STORED;
  }

  lemma DecideToRetime(g: Guards, s: State, t: Tid, unused: nat, e: Ref, rec: Record, timeout: nat, pc: Pc)
    requires Reachable(s, g) && Ready(s, t, unused) && s.threads[t].pc == Checking(e) && !s.inspector
    requires s.threads[t].task == Serve(SetTimeout(timeout)) && GetRecord(s, s.threads[t].id) == Some(rec)
    requires !rec.TerminallyExpired(s.now)
    requires pc == Retiming(e, rec, Exact, s.now + timeout * SECOND)
    ensures Reachable(At(s, t, pc), g)
  {
    Move(g, s, t, Succeeds, unused, Acting(e, rec));
    var acting := At(s, t, Acting(e, rec));
    Move(g, acting, t, Succeeds, unused, pc);
    assert At(acting, t, pc) == At(s, t, pc);
  }

  /** A request to retime that holds the lock of a usable record writes the new deadline (no inspector). */
  lemma RetimeLocked(g: Guards, s: State, t: Tid, unused: nat, e: Ref, rec: Record, timeout: nat, updated: Record)
    requires Reachable(s, g) && Ready(s, t, unused) && s.threads[t].pc == Checking(e) && !s.inspector
    requires s.threads[t].task == Serve(SetTimeout(timeout)) && GetRecord(s, s.threads[t].id) == Some(rec)
    requires s.sandboxes[s.threads[t].id] == e && !rec.TerminallyExpired(s.now)
    requires updated == rec.(endAt := s.now + timeout * SECOND)
    ensures Reachable(At(s.(entries := s.entries[e := updated]), t, Syncing(e, updated, ThenAnswer(Ok))), g)
  {
    var pc := Retiming(e, rec, Exact, updated.endAt);
    DecideToRetime(g, s, t, unused, e, rec, timeout, pc);
    Write(g, At(s, t, pc), t, unused, Syncing(e, updated, ThenAnswer(Ok)));
    assert At(At(s, t, pc).(entries := s.entries[e := updated]), t, Syncing(e, updated, ThenAnswer(Ok)))
        == At(s.(entries := s.entries[e := updated]), t, Syncing(e, updated, ThenAnswer(Ok)));
  }

  // ---------------------------------------------------------------- a creation's sync that comes too late

  const LONG: Record := SHORT.(endAt := 1 + 100 * SECOND)
  const SETTER: Thread := Thread(BOX, Serve(SetTimeout(100)), Lookup, false)
  const LONG_TIMER: Manager :=
    Manager(map[5 := Timer(BOX, LONG.endAt, LONG.endAt, Armed)], map[BOX := Slot(5, LONG.endAt)], false, 0)
  const SHORT_TIMER: Manager :=
    Manager(map[5 := Timer(BOX, LONG.endAt, LONG.endAt, Stopped), 6 := Timer(BOX, SHORT.endAt, SHORT.endAt, Armed)],
            map[BOX := Slot(6, SHORT.endAt)], false, 0)

  const LATE_CREATOR: Thread := Thread(BOX, Provision, UnlockedSync(SHORT), false)

  const LATE: State := Snap(1, LONG, map[], SHORT_TIMER, map[1 := CREATED, 2 := SETTER.(pc := Done(Ok))], {})

  /** Thread 2 sets the timeout before thread 1 has synced. */
  function Setting(rec: Record, pc: Pc, locks: map<Ref, Tid>, mgr: Manager): State {
    Snap(1, rec, locks, mgr, map[1 := LATE_CREATOR, 2 := SETTER.(pc := pc)], {BOX})
  }

  lemma SetterAsks(g: Guards)
    ensures Reachable(Setting(SHORT, Lookup, map[], START.mgr), g)
  {
    Create(g);
    Ask(g, STORED, 2, BOX, SetTimeout(100));
  }

  lemma SetterHoldsLock(g: Guards)
    ensures Reachable(Setting(SHORT, Checking(0), map[0 := 2], START.mgr), g)
  {
    SetterAsks(g);
    var asked := Setting(SHORT, Lookup, map[], START.mgr);
    TakeLock(g, asked, 2, 5, 0, Checking(0));
    assert At(asked.(locks := asked.locks[0 := 2]), 2, Checking(0))
        == Setting(SHORT, Checking(0), map[0 := 2], START.mgr);
  }

  lemma RetimeBeforeSync(g: Guards)
    ensures Reachable(Setting(LONG, Syncing(0, LONG, ThenAnswer(Ok)), map[0 := 2], START.mgr), g)
  {
    SetterHoldsLock(g);
    var locked := Setting(SHORT, Checking(0), map[0 := 2], START.mgr);
    RetimeLocked(g, locked, 2, 5, 0, SHORT, 100, LONG);
    assert At(locked.(entries := locked.entries[0 := LONG]), 2, Syncing(0, LONG, ThenAnswer(Ok)))
        == Setting(LONG, Syncing(0, LONG, ThenAnswer(Ok)), map[0 := 2], START.mgr);
  }

  lemma RetimedAndSynced(g: Guards)
    ensures Reachable(Setting(LONG, Releasing(0, Some(Ok)), map[0 := 2], LONG_TIMER), g)
  {
    RetimeBeforeSync(g);
    var retimed := Setting(LONG, Syncing(0, LONG, ThenAnswer(Ok)), map[0 := 2], START.mgr);
    CallManager(g, retimed, 2, 5, LONG_TIMER, Releasing(0, Some(Ok)));
    assert At(retimed.(mgr := LONG_TIMER), 2, Releasing(0, Some(Ok)))
        == Setting(LONG, Releasing(0, Some(Ok)), map[0 := 2], LONG_TIMER);
  }

  lemma RetimedAndFree(g: Guards)
    ensures Reachable(Setting(LONG, Done(Ok), map[], LONG_TIMER), g)
  {
    RetimedAndSynced(g);
    var synced := Setting(LONG, Releasing(0, Some(Ok)), map[0 := 2], LONG_TIMER);
    Unlock(g, synced, 2, 6, 0, Done(Ok));
    assert At(synced.(locks := synced.locks - {0}), 2, Done(Ok)) == Setting(LONG, Done(Ok), map[], LONG_TIMER);
  }

  /** Condition freshSyncs is needed: a retime between a creation's store write and its deadline sync
      loses the expiry. */
  lemma LateCreationSyncLosesExpiry()
    ensures Init(START) && Reachable(LATE, Guards(BOX, true, false, true)) && Lost(LATE, BOX)
  {
    var g := Guards(BOX, true, false, true);
    RetimedAndFree(g);
    var free := Setting(LONG, Done(Ok), map[], LONG_TIMER);
    SyncUnlocked(g, free, 1, 6, SHORT_TIMER);
    assert At(free.(mgr := SHORT_TIMER, unsynced := free.unsynced - {BOX}), 1, Done(Ok)) == LATE;
  }

  // ---------------------------------------------------------------- a retry that fires at the new deadline

  const DUE: Time := SHORT.endAt
  const RETRY: Time := SHORT.endAt + RETRY_DELAY
  const LATER: Record := SHORT.(endAt := RETRY)
  const FIRED: Timer := Timer(BOX, DUE, DUE, Fired(3))
  const ONE_TIMER: Manager := Manager(map[5 := Timer(BOX, DUE, DUE, Armed)], map[BOX := Slot(5, DUE)], false, 0)
  const RETRY_TIMER: Manager :=
    Manager(map[5 := FIRED, 6 := Timer(BOX, RETRY, DUE, Armed)], map[BOX := Slot(6, RETRY)], false, 0)

  function FiredTimer(running: nat): Manager {
    Manager(map[5 := FIRED], map[BOX := Slot(5, DUE)], false, running)
  }

  /** The deadline has come; thread 3 is the timer's callback. */
  function Expiring(pc: Pc, locks: map<Ref, Tid>, mgr: Manager): State {
    Snap(DUE, SHORT, locks, mgr, map[1 := CREATED, 3 := Thread(BOX, Expire(5, DUE), pc, false)], {})
  }

  lemma CreatedAndSynced(g: Guards)
    ensures Reachable(Snap(1, SHORT, map[], ONE_TIMER, map[1 := CREATED], {}), g)
  {
    Create(g);
    SyncUnlocked(g, STORED, 1, 5, ONE_TIMER);
    assert At(STORED.(mgr := ONE_TIMER, unsynced := STORED.unsynced - {BOX}), 1, Done(Ok))
        == Snap(1, SHORT, map[], ONE_TIMER, map[1 := CREATED], {});
  }

  lemma DeadlineComes(g: Guards)
    ensures Reachable(Snap(DUE, SHORT, map[], ONE_TIMER, map[1 := CREATED], {}), g)
  {
    CreatedAndSynced(g);
    Then(g, Snap(1, SHORT, map[], ONE_TIMER, map[1 := CREATED], {}), Tick(10 * SECOND));
  }

  lemma TimerFires(g: Guards)
    ensures Reachable(Expiring(Admitting, map[], FiredTimer(0)), g)
  {
    DeadlineComes(g);
    var due := Snap(DUE, SHORT, map[], ONE_TIMER, map[1 := CREATED], {});
    Then(g, due, Fire(5, 3));
    assert Apply(due, Fire(5, 3)) == Expiring(Admitting, map[], FiredTimer(0));
  }

  lemma CallbackIsAdmitted(g: Guards)
    ensures Reachable(Expiring(Lookup, map[], FiredTimer(1)), g)
  {
    TimerFires(g);
    var fired := Expiring(Admitting, map[], FiredTimer(0));
    CallManager(g, fired, 3, 6, FiredTimer(1), Lookup);
    assert At(fired.(mgr := FiredTimer(1)), 3, Lookup) == Expiring(Lookup, map[], FiredTimer(1));
  }

  lemma CallbackHoldsLock(g: Guards)
    ensures Reachable(Expiring(Judging(0), map[0 := 3], FiredTimer(1)), g)
  {
    CallbackIsAdmitted(g);
    var admitted := Expiring(Lookup, map[], FiredTimer(1));
    TakeLock(g, admitted, 3, 6, 0, Judging(0));
    assert At(admitted.(locks := admitted.locks[0 := 3]), 3, Judging(0)) == Expiring(Judging(0), map[0 := 3], FiredTimer(1));
  }

  lemma PauseFails(g: Guards)
    ensures Reachable(Expiring(Retrying(0), map[0 := 3], FiredTimer(1)), g)
  {
    CallbackHoldsLock(g);
    Move(g, Expiring(Judging(0), map[0 := 3], FiredTimer(1)), 3, Succeeds, 6, CallingPause(0, SHORT));
    var pausing := Expiring(CallingPause(0, SHORT), map[0 := 3], FiredTimer(1));
    assert At(Expiring(Judging(0), map[0 := 3], FiredTimer(1)), 3, CallingPause(0, SHORT)) == pausing;
    Move(g, pausing, 3, Fails, 6, Retrying(0));
    assert At(pausing, 3, Retrying(0)) == Expiring(Retrying(0), map[0 := 3], FiredTimer(1));
  }

  lemma RetryIsScheduled(g: Guards)
    ensures Reachable(Expiring(Releasing(0, Some(Ok)), map[0 := 3], RETRY_TIMER.(running := 1)), g)
  {
    PauseFails(g);
    var retrying := Expiring(Retrying(0), map[0 := 3], FiredTimer(1));
    CallManager(g, retrying, 3, 6, RETRY_TIMER.(running := 1), Releasing(0, Some(Ok)));
    assert At(retrying.(mgr := RETRY_TIMER.(running := 1)), 3, Releasing(0, Some(Ok)))
        == Expiring(Releasing(0, Some(Ok)), map[0 := 3], RETRY_TIMER.(running := 1));
  }

  lemma CallbackUnlocks(g: Guards)
    ensures Reachable(Expiring(Finishing, map[], RETRY_TIMER.(running := 1)), g)
  {
    RetryIsScheduled(g);
    var scheduled := Expiring(Releasing(0, Some(Ok)), map[0 := 3], RETRY_TIMER.(running := 1));
    Unlock(g, scheduled, 3, 7, 0, Finishing);
    assert At(scheduled.(locks := scheduled.locks - {0}), 3, Finishing)
        == Expiring(Finishing, map[], RETRY_TIMER.(running := 1));
  }

  lemma CallbackFinishes(g: Guards)
    ensures Reachable(Expiring(Done(Ok), map[], RETRY_TIMER), g)
  {
    CallbackUnlocks(g);
    var finishing := Expiring(Finishing, map[], RETRY_TIMER.(running := 1));
    CallManager(g, finishing, 3, 7, RETRY_TIMER, Done(Ok));
    assert At(finishing.(mgr := RETRY_TIMER), 3, Done(Ok)) == Expiring(Done(Ok), map[], RETRY_TIMER);
  }

  /** Afterwards thread 4 sets the timeout to five seconds. */
  function Extending(rec: Record, pc: Pc, locks: map<Ref, Tid>): State {
    Snap(DUE, rec, locks, RETRY_TIMER,
         map[1 := CREATED, 3 := Thread(BOX, Expire(5, DUE), Done(Ok), false),
             4 := Thread(BOX, Serve(SetTimeout(5)), pc, false)], {})
  }

  lemma ExtenderAsks(g: Guards)
    ensures Reachable(Extending(SHORT, Lookup, map[]), g)
  {
    CallbackFinishes(g);
    Ask(g, Expiring(Done(Ok), map[], RETRY_TIMER), 4, BOX, SetTimeout(5));
  }

  lemma ExtenderHoldsLock(g: Guards)
    ensures Reachable(Extending(SHORT, Checking(0), map[0 := 4]), g)
  {
    ExtenderAsks(g);
    var asked := Extending(SHORT, Lookup, map[]);
    TakeLock(g, asked, 4, 7, 0, Checking(0));
    assert At(asked.(locks := asked.locks[0 := 4]), 4, Checking(0)) == Extending(SHORT, Checking(0), map[0 := 4]);
  }

  lemma RetimeOntoRetry(g: Guards)
    ensures Reachable(Extending(LATER, Syncing(0, LATER, ThenAnswer(Ok)), map[0 := 4]), g)
  {
    ExtenderHoldsLock(g);
    var locked := Extending(SHORT, Checking(0), map[0 := 4]);
    RetimeLocked(g, locked, 4, 7, 0, SHORT, 5, LATER);
    assert At(locked.(entries := locked.entries[0 := LATER]), 4, Syncing(0, LATER, ThenAnswer(Ok)))
        == Extending(LATER, Syncing(0, LATER, ThenAnswer(Ok)), map[0 := 4]);
  }

  lemma CollidingSync(g: Guards)
    requires !g.distinctFires
    ensures Reachable(Extending(LATER, Releasing(0, Some(Ok)), map[0 := 4]), g)
  {
    RetimeOntoRetry(g);
    var syncing := Extending(LATER, Syncing(0, LATER, ThenAnswer(Ok)), map[0 := 4]);
    CallManager(g, syncing, 4, 7, RETRY_TIMER, Releasing(0, Some(Ok)));
    assert At(syncing.(mgr := RETRY_TIMER), 4, Releasing(0, Some(Ok)))
        == Extending(LATER, Releasing(0, Some(Ok)), map[0 := 4]);
  }

  /** Condition distinctFires is needed when the runtime cannot be inspected: a deadline set to the very instant at which
      a retry is due keeps the retry's timer, whose callback will not recognise the new deadline. */
  lemma CollidingRetryLosesExpiry()
    ensures Init(START) && Reachable(Extending(LATER, Done(Ok), map[]), Guards(BOX, true, true, false))
    ensures Lost(Extending(LATER, Done(Ok), map[]), BOX)
  {
    var g := Guards(BOX, true, true, false);
    CollidingSync(g);
    var synced := Extending(LATER, Releasing(0, Some(Ok)), map[0 := 4]);
    Unlock(g, synced, 4, 7, 0, Done(Ok));
    assert At(synced.(locks := synced.locks - {0}), 4, Done(Ok)) == Extending(LATER, Done(Ok), map[]);
  }
}
