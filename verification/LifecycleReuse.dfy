/** An ID that is stored anew loses its expiry to the cancel that ends an earlier removal: a concrete run. */
module LifecycleReuse {
  import opened Wrappers
  import opened SandboxRecords
  import opened Deadlines
  import opened Lifecycle
  import opened LifecycleRuns
  import opened LifecycleCoverage
  import opened LifecycleWitnesses

  /** IDs may be stored anew; the other two conditions hold. */
  const REUSE := Guards(BOX, false, true, true)

  const SECOND_TIMER: Manager :=
    Manager(map[5 := Timer(BOX, DUE, DUE, Stopped), 8 := Timer(BOX, LONG.endAt, LONG.endAt, Armed)],
            map[BOX := Slot(8, LONG.endAt)], false, 0)
  const NO_TIMER: Manager :=
    Manager(map[5 := Timer(BOX, DUE, DUE, Stopped), 8 := Timer(BOX, LONG.endAt, LONG.endAt, Stopped)], map[], false, 0)

  /** Thread 2 kills the sandbox that is stored under entry 0. */
  function Killing(pc: Pc, locks: map<Ref, Tid>, runtime: set<Id>): State {
    Snap(1, SHORT, locks, ONE_TIMER, map[1 := CREATED, 2 := Thread(BOX, Serve(Kill), pc, false)], {}).(runtime := runtime)
  }

  lemma KillerHoldsLock()
    ensures Reachable(Killing(Checking(0), map[0 := 2], {BOX}), REUSE)
  {
    CreatedAndSynced(REUSE);
    var created := Snap(1, SHORT, map[], ONE_TIMER, map[1 := CREATED], {});
    Ask(REUSE, created, 2, BOX, Kill);
    var asked := Killing(Lookup, map[], {BOX});
    assert created.(threads := created.threads[2 := Thread(BOX, Serve(Kill), Lookup, false)]) == asked;
    TakeLock(REUSE, asked, 2, 7, 0, Checking(0));
    assert At(asked.(locks := asked.locks[0 := 2]), 2, Checking(0)) == Killing(Checking(0), map[0 := 2], {BOX});
  }

  lemma KillerActs()
    ensures Reachable(Killing(Acting(0, SHORT), map[0 := 2], {BOX}), REUSE)
  {
    KillerHoldsLock();
    var checking := Killing(Checking(0), map[0 := 2], {BOX});
    Move(REUSE, checking, 2, Succeeds, 7, Acting(0, SHORT));
    assert At(checking, 2, Acting(0, SHORT)) == Killing(Acting(0, SHORT), map[0 := 2], {BOX});
  }

  lemma KillerDecides()
    ensures Reachable(Killing(CallingDelete(0, SHORT, true), map[0 := 2], {BOX}), REUSE)
  {
    KillerActs();
    var acting := Killing(Acting(0, SHORT), map[0 := 2], {BOX});
    Move(REUSE, acting, 2, Succeeds, 7, CallingDelete(0, SHORT, true));
    assert At(acting, 2, CallingDelete(0, SHORT, true)) == Killing(CallingDelete(0, SHORT, true), map[0 := 2], {BOX});
  }

  lemma RuntimeDeletes()
    ensures Reachable(Killing(Dropping(0, SHORT, true), map[0 := 2], {}), REUSE)
  {
    KillerDecides();
    var calling := Killing(CallingDelete(0, SHORT, true), map[0 := 2], {BOX});
    Then(REUSE, calling, Advance(2, Succeeds, 7));
    assert Apply(calling, Advance(2, Succeeds, 7)) == Killing(Dropping(0, SHORT, true), map[0 := 2], {});
  }

  /** Thread 2 has removed the record and is about to cancel the timer; thread 3 creates the ID anew. */
  function Renewing(killer: Pc, sandboxes: map<Id, Ref>, entries: map<Ref, Record>, mgr: Manager, creator: map<Tid, Thread>,
      runtime: set<Id>, unsynced: set<Id>): State
  {
    State(1, false, sandboxes, entries, map[0 := 2], mgr,
          map[1 := CREATED, 2 := Thread(BOX, Serve(Kill), killer, true)] + creator,
          runtime, false, {BOX}, unsynced, {})
  }

  const CANCELLING: Pc := Cancelling(0, Ok)

  function Creator(pc: Pc): map<Tid, Thread> {
    map[3 := Thread(BOX, Provision, pc, false)]
  }

  lemma RecordIsRemoved()
    ensures Reachable(Renewing(CANCELLING, map[], map[0 := SHORT], ONE_TIMER, map[], {}, {}), REUSE)
  {
    RuntimeDeletes();
    var dropping := Killing(Dropping(0, SHORT, true), map[0 := 2], {});
    Then(REUSE, dropping, Advance(2, Succeeds, 7));
    assert Apply(dropping, Advance(2, Succeeds, 7)) == Renewing(CANCELLING, map[], map[0 := SHORT], ONE_TIMER, map[], {}, {});
  }

  lemma CreationBegins()
    ensures Reachable(Renewing(CANCELLING, map[], map[0 := SHORT], ONE_TIMER, Creator(Creating(LONG)), {}, {}), REUSE)
  {
    RecordIsRemoved();
    var removed := Renewing(CANCELLING, map[], map[0 := SHORT], ONE_TIMER, map[], {}, {});
    Then(REUSE, removed, BeginCreate(3, BOX, 100, PauseOnTimeout));
    assert Apply(removed, BeginCreate(3, BOX, 100, PauseOnTimeout))
        == Renewing(CANCELLING, map[], map[0 := SHORT], ONE_TIMER, Creator(Creating(LONG)), {}, {});
  }

  lemma CreatedAnew()
    ensures Reachable(Renewing(CANCELLING, map[], map[0 := SHORT], ONE_TIMER, Creator(Storing(LONG)), {BOX}, {}), REUSE)
  {
    CreationBegins();
    var creating := Renewing(CANCELLING, map[], map[0 := SHORT], ONE_TIMER, Creator(Creating(LONG)), {}, {});
    Then(REUSE, creating, Advance(3, Succeeds, 7));
    assert Apply(creating, Advance(3, Succeeds, 7))
        == Renewing(CANCELLING, map[], map[0 := SHORT], ONE_TIMER, Creator(Storing(LONG)), {BOX}, {});
  }

  const TWO_ENTRIES: map<Ref, Record> := map[0 := SHORT, 7 := LONG]

  lemma StoredAnew()
    ensures Reachable(Renewing(CANCELLING, map[BOX := 7], TWO_ENTRIES, ONE_TIMER, Creator(UnlockedSync(LONG)), {BOX}, {BOX}),
                      REUSE)
  {
    CreatedAnew();
    var storing := Renewing(CANCELLING, map[], map[0 := SHORT], ONE_TIMER, Creator(Storing(LONG)), {BOX}, {});
    StoringStores(storing);
    Then(REUSE, storing, Advance(3, Succeeds, 7));
  }

  lemma StoringStores(storing: State)
    requires storing == Renewing(CANCELLING, map[], map[0 := SHORT], ONE_TIMER, Creator(Storing(LONG)), {BOX}, {})
    ensures Enabled(storing, Advance(3, Succeeds, 7))
    ensures Apply(storing, Advance(3, Succeeds, 7))
         == Renewing(CANCELLING, map[BOX := 7], TWO_ENTRIES, ONE_TIMER, Creator(UnlockedSync(LONG)), {BOX}, {BOX})
  {
  }

  function Renewed(killer: Pc, mgr: Manager): State {
    Renewing(killer, map[BOX := 7], TWO_ENTRIES, mgr, Creator(Done(Ok)), {BOX}, {})
  }

  lemma SyncedAnew()
    ensures Reachable(Renewed(CANCELLING, SECOND_TIMER), REUSE)
  {
    StoredAnew();
    var stored := Renewing(CANCELLING, map[BOX := 7], TWO_ENTRIES, ONE_TIMER, Creator(UnlockedSync(LONG)), {BOX}, {BOX});
    SyncUnlocked(REUSE, stored, 3, 8, SECOND_TIMER);
    assert At(stored.(mgr := SECOND_TIMER, unsynced := stored.unsynced - {BOX}), 3, Done(Ok))
        == Renewed(CANCELLING, SECOND_TIMER);
  }

  lemma CancelStopsSecond()
    ensures Cancel(SECOND_TIMER, BOX) == NO_TIMER
  {
    var timers := SECOND_TIMER.timers;
    assert Stop(timers, 8) == timers[8 := timers[8].(status := Stopped)] == NO_TIMER.timers;
  }

  lemma TimerCancelled()
    ensures Reachable(Renewed(Releasing(0, Some(Ok)), NO_TIMER), REUSE)
  {
    SyncedAnew();
    var synced := Renewed(CANCELLING, SECOND_TIMER);
    CancelStopsSecond();
    CallManager(REUSE, synced, 2, 9, NO_TIMER, Releasing(0, Some(Ok)));
    KillerMoves(CANCELLING, SECOND_TIMER, NO_TIMER, Releasing(0, Some(Ok)));
  }

  lemma KillerMoves(pc: Pc, mgr: Manager, mgr': Manager, pc': Pc)
    ensures At(Renewed(pc, mgr).(mgr := mgr'), 2, pc') == Renewed(pc', mgr')
  {
  }

  /** The kill of the first sandbox ends by cancelling the timer of the second, which is left running without one. */
  lemma ReusedIdLosesExpiry()
    ensures Init(START) && Reachable(Renewed(Releasing(0, Some(Ok)), NO_TIMER), REUSE)
    ensures Lost(Renewed(Releasing(0, Some(Ok)), NO_TIMER), BOX)
  {
    TimerCancelled();
  }
}
