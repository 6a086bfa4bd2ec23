/** The reply rendezvous of xpc_bridge_send: a waiter and an asynchronous callback share a reference-counted cell
    (internal/backends/applecontainer/xpc_bridge.c). */
module XpcRendezvous {

  datatype Side = Waiter | Callback

  datatype Mutex = Unlocked | HeldBy(side: Side)

  datatype Wake = Signalled | TimedOut | WaitFailed

  /** Both sides end in reply_state_release; Freeing is reached by the side that dropped the last reference. */
  datatype RefPc = LockingRef | DroppingRef | UnlockingRef(last: bool) | Freeing | Gone

  datatype WaiterPc =
    | ComputingDeadline
    | LockingToFail | MarkingFailed | UnlockingFailed
    | LockingToWait | Testing | Sleeping | Woken(wake: Wake) | GivingUp
    | Taking | UnlockingTaken
    | Leaving(ok: bool, ref: RefPc)

  datatype CallbackPc =
    | NotCalled
    | LockingReply | Deciding
    | UnlockingLate | ReleasingLate
    | Signalling | UnlockingStored
    | LeavingCallback(ref: RefPc)

  /** `event` and `wanted` say whether the reply event and the caller's reply pointer are non-null. `reply` says whether
      the cell holds a retained reply. The last four fields count xpc_retain and xpc_release calls on the reply,
      replies handed to the caller, and frees of the cell. */
  datatype State = State(
    event: bool,
    wanted: bool,
    refs: int,
    completed: bool,
    timedOut: bool,
    reply: bool,
    mutex: Mutex,
    waiter: WaiterPc,
    callback: CallbackPc,
    retains: nat,
    releases: nat,
    handed: nat,
    frees: nat)

  /** `choice` resolves what the environment decides: a wake-up reason, or whether the clock could be read. */
  datatype Step = WaiterStep(wake: Wake, clockOk: bool) | CallbackStep

  predicate Init(s: State) {
    && s.refs == 2 && !s.completed && !s.timedOut && !s.reply && s.mutex == Unlocked
    && s.waiter == ComputingDeadline && s.callback == NotCalled
    && s.retains == 0 && s.releases == 0 && s.handed == 0 && s.frees == 0
  }

  // ---------------------------------------------------------------- reply_state_release

  /** Where a side is in reply_state_release; LockingRef also stands for not having come to it yet. */
  function WaiterRef(pc: WaiterPc): RefPc {
    if pc.Leaving? then pc.ref else LockingRef
  }

  function CallbackRef(pc: CallbackPc): RefPc {
    if pc.LeavingCallback? then pc.ref else LockingRef
  }

  function NextRef(ref: RefPc, refs: int): RefPc {
    match ref
    case LockingRef => DroppingRef
    case DroppingRef => UnlockingRef(refs == 1)
    case UnlockingRef(last) => if last then Freeing else Gone
    case Freeing => Gone
    case Gone => Gone
  }

  // ---------------------------------------------------------------- the waiter

  predicate WaiterLocks(pc: WaiterPc) {
    pc.LockingToFail? || pc.LockingToWait? || pc.Sleeping? || pc == Leaving(true, LockingRef) || pc == Leaving(false, LockingRef)
  }

  predicate WaiterUnlocks(s: State) {
    || s.waiter.UnlockingFailed? || s.waiter.GivingUp? || s.waiter.UnlockingTaken?
    || (s.waiter.Testing? && !s.completed)
    || WaiterRef(s.waiter).UnlockingRef?
  }

  function NextWaiter(s: State, wake: Wake, clockOk: bool): WaiterPc {
    match s.waiter
    case ComputingDeadline => if clockOk then LockingToWait else LockingToFail
    case LockingToFail => MarkingFailed
    case MarkingFailed => UnlockingFailed
    case UnlockingFailed => Leaving(false, LockingRef)
    case LockingToWait => Testing
    case Testing => if s.completed then Taking else Sleeping
    case Sleeping => Woken(wake)
    case Woken(reason) => if reason == Signalled then Testing else GivingUp
    case GivingUp => Leaving(false, LockingRef)
    case Taking => UnlockingTaken
    case UnlockingTaken => Leaving(true, LockingRef)
    case Leaving(ok, ref) => Leaving(ok, NextRef(ref, s.refs))
  }

  function ApplyWaiter(s: State, wake: Wake, clockOk: bool): State {
    var hands := s.waiter.Taking? && s.wanted;
    var frees := WaiterRef(s.waiter).Freeing?;
    s.(waiter := NextWaiter(s, wake, clockOk),
       mutex := if WaiterLocks(s.waiter) then HeldBy(Waiter) else if WaiterUnlocks(s) then Unlocked else s.mutex,
       timedOut := s.timedOut || s.waiter.MarkingFailed? || (s.waiter.Woken? && s.waiter.wake != Signalled),
       refs := if WaiterRef(s.waiter).DroppingRef? then s.refs - 1 else s.refs,
       handed := s.handed + Count(hands && s.reply),
       releases := s.releases + Count(frees && s.reply),
       reply := s.reply && !hands && !frees,
       frees := s.frees + Count(frees))
  }

  // ---------------------------------------------------------------- the callback

  predicate CallbackLocks(pc: CallbackPc) {
    pc.LockingReply? || pc == LeavingCallback(LockingRef)
  }

  predicate CallbackUnlocks(pc: CallbackPc) {
    pc.UnlockingLate? || pc.UnlockingStored? || CallbackRef(pc).UnlockingRef?
  }

  function NextCallback(s: State): CallbackPc {
    match s.callback
    case NotCalled => LockingReply
    case LockingReply => Deciding
    case Deciding => if s.timedOut then UnlockingLate else Signalling
    case UnlockingLate => ReleasingLate
    case ReleasingLate => LeavingCallback(LockingRef)
    case Signalling => UnlockingStored
    case UnlockingStored => LeavingCallback(LockingRef)
    case LeavingCallback(ref) => LeavingCallback(NextRef(ref, s.refs))
  }

  function ApplyCallback(s: State): State {
    var stores := s.callback.Deciding? && !s.timedOut;
    var frees := CallbackRef(s.callback).Freeing?;
    s.(callback := NextCallback(s),
       mutex := if CallbackLocks(s.callback) then HeldBy(Callback)
                else if CallbackUnlocks(s.callback) then Unlocked else s.mutex,
       completed := s.completed || stores,
       refs := if CallbackRef(s.callback).DroppingRef? then s.refs - 1 else s.refs,
       retains := s.retains + Count(s.callback.NotCalled? && s.event),
       releases := s.releases + Count(s.callback.ReleasingLate? && s.event) + Count(frees && s.reply),
       reply := if stores then s.event else s.reply && !frees,
       frees := s.frees + Count(frees))
  }

  // ---------------------------------------------------------------- steps

  function Count(b: bool): nat {
    if b then 1 else 0
  }

  predicate Enabled(s: State, step: Step) {
    if step.WaiterStep?
    then (WaiterLocks(s.waiter) ==> s.mutex == Unlocked) && WaiterRef(s.waiter) != Gone
    else (CallbackLocks(s.callback) ==> s.mutex == Unlocked) && CallbackRef(s.callback) != Gone
  }

  function Apply(s: State, step: Step): State {
    match step
    case WaiterStep(wake, clockOk) => ApplyWaiter(s, wake, clockOk)
    case CallbackStep => ApplyCallback(s)
  }

  ghost predicate Run(s: State, steps: seq<Step>, end: State)
    decreases |steps|
  {
    if steps == [] then end == s else Enabled(s, steps[0]) && Run(Apply(s, steps[0]), steps[1..], end)
  }

  // ---------------------------------------------------------------- what every interleaving keeps

  predicate WaiterHolds(pc: WaiterPc) {
    match pc
    case Leaving(_, ref) => ref.DroppingRef? || ref.UnlockingRef?
    case _ => pc.MarkingFailed? || pc.UnlockingFailed? || pc.Testing? || pc.Woken? || pc.GivingUp? || pc.Taking?
              || pc.UnlockingTaken?
  }

  predicate CallbackHolds(pc: CallbackPc) {
    match pc
    case LeavingCallback(ref) => ref.DroppingRef? || ref.UnlockingRef?
    case _ => pc.Deciding? || pc.UnlockingLate? || pc.Signalling? || pc.UnlockingStored?
  }

  predicate HasRef(ref: RefPc) {
    ref.LockingRef? || ref.DroppingRef?
  }

  predicate LastOne(ref: RefPc) {
    ref.Freeing? || (ref.UnlockingRef? && ref.last)
  }

  /** The thread may still access the cell: it has not finished reply_state_release. */
  predicate WaiterMayAccess(pc: WaiterPc) {
    pc.Leaving? ==> !pc.ref.Gone?
  }

  predicate CallbackMayAccess(pc: CallbackPc) {
    pc.LeavingCallback? ==> !pc.ref.Gone?
  }

  /** The callback still carries the retained reply itself. */
  predicate CallbackCarries(pc: CallbackPc) {
    pc.LockingReply? || pc.Deciding? || pc.UnlockingLate? || pc.ReleasingLate?
  }

  predicate Stored(pc: CallbackPc) {
    pc.Signalling? || pc.UnlockingStored? || pc.LeavingCallback?
  }

  predicate GaveUp(pc: WaiterPc) {
    pc.UnlockingFailed? || pc.GivingUp? || (pc.Leaving? && !pc.ok)
  }

  predicate Took(pc: WaiterPc) {
    pc.UnlockingTaken? || (pc.Leaving? && pc.ok)
  }

  predicate MutexInv(s: State) {
    && (WaiterHolds(s.waiter) <==> s.mutex == HeldBy(Waiter))
    && (CallbackHolds(s.callback) <==> s.mutex == HeldBy(Callback))
  }

  /** The side that drops the last reference finds the other side gone, and frees. */
  predicate RefInv(s: State) {
    var w, c := WaiterRef(s.waiter), CallbackRef(s.callback);
    && s.refs == Count(HasRef(w)) + Count(HasRef(c))
    && (LastOne(w) ==> c == Gone && s.frees == 0)
    && (LastOne(c) ==> w == Gone && s.frees == 0)
    && (w == UnlockingRef(false) ==> HasRef(c))
    && (c == UnlockingRef(false) ==> HasRef(w))
    && s.frees == Count(w == Gone && c == Gone)
  }

  predicate FlagInv(s: State) {
    && s.timedOut == GaveUp(s.waiter)
    && (s.completed ==> Stored(s.callback))
    && (s.callback.Signalling? || s.callback.UnlockingStored? ==> s.completed)
    && (s.callback.UnlockingLate? || s.callback.ReleasingLate? ==> s.timedOut && !s.completed)
    && (s.callback.LeavingCallback? && !s.completed ==> s.timedOut)
    && (s.waiter.Taking? || Took(s.waiter) ==> s.completed)
  }

  predicate LedgerInv(s: State) {
    && s.retains == Count(s.event && !s.callback.NotCalled?)
    && s.handed == Count(s.event && s.wanted && Took(s.waiter))
    && s.reply == (s.event && s.completed && s.frees == 0 && !(s.wanted && Took(s.waiter)))
    && s.retains == s.releases + s.handed + Count(s.reply) + Count(s.event && CallbackCarries(s.callback))
  }

  predicate Inv(s: State) {
    MutexInv(s) && RefInv(s) && FlagInv(s) && LedgerInv(s)
  }

  lemma WaiterMutex(s: State, wake: Wake, clockOk: bool)
    requires MutexInv(s) && Enabled(s, WaiterStep(wake, clockOk))
    ensures MutexInv(ApplyWaiter(s, wake, clockOk))
  {
  }

  lemma CallbackMutex(s: State)
    requires MutexInv(s) && Enabled(s, CallbackStep)
    ensures MutexInv(ApplyCallback(s))
  {
  }

  lemma WaiterRefCount(s: State, wake: Wake, clockOk: bool)
    requires MutexInv(s) && RefInv(s) && Enabled(s, WaiterStep(wake, clockOk))
    ensures RefInv(ApplyWaiter(s, wake, clockOk))
  {
  }

  lemma CallbackRefCount(s: State)
    requires MutexInv(s) && RefInv(s) && Enabled(s, CallbackStep)
    ensures RefInv(ApplyCallback(s))
  {
  }

  lemma WaiterFlag(s: State, wake: Wake, clockOk: bool)
    requires MutexInv(s) && FlagInv(s) && Enabled(s, WaiterStep(wake, clockOk))
    ensures FlagInv(ApplyWaiter(s, wake, clockOk))
  {
  }

  lemma CallbackFlag(s: State)
    requires MutexInv(s) && FlagInv(s) && Enabled(s, CallbackStep)
    ensures FlagInv(ApplyCallback(s))
  {
  }

  lemma WaiterLedger(s: State, wake: Wake, clockOk: bool)
    requires Inv(s) && Enabled(s, WaiterStep(wake, clockOk))
    ensures LedgerInv(ApplyWaiter(s, wake, clockOk))
  {
  }

  lemma CallbackLedger(s: State)
    requires Inv(s) && Enabled(s, CallbackStep)
    ensures LedgerInv(ApplyCallback(s))
  {
  }

  lemma InvStep(s: State, step: Step)
    requires Inv(s) && Enabled(s, step)
    ensures Inv(Apply(s, step))
  {
    if step.WaiterStep? {
      WaiterMutex(s, step.wake, step.clockOk);
      WaiterRefCount(s, step.wake, step.clockOk);
      WaiterFlag(s, step.wake, step.clockOk);
      WaiterLedger(s, step.wake, step.clockOk);
    } else {
      CallbackMutex(s);
      CallbackRefCount(s);
      CallbackFlag(s);
      CallbackLedger(s);
    }
  }

  lemma {:induction false} InvOnRuns(s: State, steps: seq<Step>, end: State)
    requires Inv(s) && Run(s, steps, end)
    ensures Inv(end)
    decreases |steps|
  {
    if steps != [] {
      InvStep(s, steps[0]);
      InvOnRuns(Apply(s, steps[0]), steps[1..], end);
    }
  }

  /** Reached by some interleaving of the two threads, from a fresh cell. */
  ghost predicate Reachable(s: State) {
    exists init: State, steps :: Init(init) && Run(init, steps, s)
  }

  lemma {:induction false} ReachableKeepsInv(s: State)
    requires Reachable(s)
    ensures Inv(s)
  {
    var init: State, steps :| Init(init) && Run(init, steps, s);
    InitHasInv(init);
    InvOnRuns(init, steps, s);
  }

  lemma InitHasInv(s: State)
    requires Init(s)
    ensures Inv(s)
  {
  }

  /** The cell is never accessed after it was freed, and is freed at most once. */
  lemma {:induction false} NoUseAfterFree(s: State)
    requires Reachable(s)
    ensures s.frees <= 1
    ensures s.frees == 1 ==> !WaiterMayAccess(s.waiter) && !CallbackMayAccess(s.callback)
  {
    ReachableKeepsInv(s);
  }

  predicate BothDone(s: State) {
    !WaiterMayAccess(s.waiter) && !CallbackMayAccess(s.callback)
  }

  lemma DoneMeansFreed(s: State)
    requires BothDone(s) && RefInv(s)
    ensures s.frees == 1
  {
  }

  lemma DoneFlags(s: State)
    requires BothDone(s) && FlagInv(s)
    ensures s.waiter.ok ==> s.completed && !s.timedOut
  {
  }

  lemma DoneLedger(s: State)
    requires BothDone(s) && LedgerInv(s) && s.frees == 1
    ensures s.retains == Count(s.event) && s.handed == Count(s.event && s.wanted && s.waiter.ok)
    ensures s.handed + s.releases == s.retains
  {
    assert !s.reply && !CallbackCarries(s.callback);
    assert Took(s.waiter) <==> s.waiter.ok;
  }

  /** When both sides are done the cell was freed exactly once and every retained reply was either handed to the caller
      or released, exactly once and never both. It is handed over exactly when the send succeeded, the caller asked
      for it and there was one; and the send succeeds only after the callback completed. */
  lemma {:induction false} LedgerBalances(s: State)
    requires Reachable(s) && BothDone(s)
    ensures s.frees == 1 && s.retains == Count(s.event) && s.handed + s.releases == s.retains
    ensures s.handed == Count(s.event && s.wanted && s.waiter.ok)
    ensures s.waiter.ok ==> s.completed && !s.timedOut
  {
    ReachableKeepsInv(s);
    DoneMeansFreed(s);
    DoneFlags(s);
    DoneLedger(s);
  }

  /** Whether in a run the waiter could not read the clock, or has been woken by anything but the signal. */
  ghost predicate Troubled(s: State, steps: seq<Step>)
    decreases |steps|
  {
    steps != []
    && ((steps[0].WaiterStep?
         && ((s.waiter.ComputingDeadline? && !steps[0].clockOk) || (s.waiter.Sleeping? && steps[0].wake != Signalled)))
        || Troubled(Apply(s, steps[0]), steps[1..]))
  }

  /** The waiter is on its way to giving up. */
  predicate Failing(pc: WaiterPc) {
    pc.LockingToFail? || pc.MarkingFailed? || (pc.Woken? && pc.wake != Signalled) || GaveUp(pc)
  }

  lemma {:induction false} FailingOnRuns(s: State, steps: seq<Step>, end: State)
    requires Run(s, steps, end)
    ensures Failing(end.waiter) <==> Failing(s.waiter) || Troubled(s, steps)
    decreases |steps|
  {
    if steps != [] {
      FailingStep(s, steps[0]);
      FailingOnRuns(Apply(s, steps[0]), steps[1..], end);
    }
  }

  lemma FailingStep(s: State, step: Step)
    ensures Failing(Apply(s, step).waiter) <==>
              || Failing(s.waiter)
              || (step.WaiterStep?
                  && ((s.waiter.ComputingDeadline? && !step.clockOk) || (s.waiter.Sleeping? && step.wake != Signalled)))
  {
  }

  lemma {:induction false} TroubleDecides(init: State, steps: seq<Step>, s: State)
    requires init.waiter.ComputingDeadline? && Run(init, steps, s) && s.waiter.Leaving?
    ensures s.waiter.ok <==> !Troubled(init, steps)
  {
    FailingOnRuns(init, steps, s);
  }

  lemma {:induction false} RunReaches(init: State, steps: seq<Step>, s: State)
    requires Init(init) && Run(init, steps, s)
    ensures Inv(s)
  {
    InitHasInv(init);
    InvOnRuns(init, steps, s);
  }

  lemma SuccessIsCompleted(s: State)
    requires FlagInv(s) && s.waiter.Leaving? && s.waiter.ok
    ensures s.completed && !s.timedOut
  {
  }

  /** The send fails exactly if the deadline could not be computed, or a wait has timed out or failed; it succeeds only after
      the callback has completed, and however often it is woken before. */
  lemma {:induction false} SendFailsExactlyWhen(init: State, steps: seq<Step>, s: State)
    requires Init(init) && Run(init, steps, s) && s.waiter.Leaving?
    ensures s.waiter.ok <==> !Troubled(init, steps)
    ensures s.waiter.ok ==> s.completed && !s.timedOut
  {
    TroubleDecides(init, steps, s);
    if s.waiter.ok {
      RunReaches(init, steps, s);
      SuccessIsCompleted(s);
    }
  }

  /** A timed wait may time out although the callback has completed; then the send fails, the reply stays in the cell
      and whoever drops the last reference releases it. */
  lemma {:induction false} CompletionLosesToTimeout(s: State)
    requires Reachable(s) && s.completed && s.timedOut
    ensures GaveUp(s.waiter) && s.handed == 0
    ensures s.reply <==> s.event && s.frees == 0
  {
    ReachableKeepsInv(s);
    CellKeepsReply(s);
  }

  lemma CellKeepsReply(s: State)
    requires FlagInv(s) && LedgerInv(s) && s.completed && s.timedOut
    ensures GaveUp(s.waiter) && s.handed == 0
    ensures s.reply <==> s.event && s.frees == 0
  {
  }

  /** The protocol is never stuck: while a side is not done, some step is possible, whatever the environment decides. */
  lemma {:induction false} NeverStuck(s: State, wake: Wake, clockOk: bool)
    requires Reachable(s)
    requires WaiterMayAccess(s.waiter) || CallbackMayAccess(s.callback)
    ensures Enabled(s, WaiterStep(wake, clockOk)) || Enabled(s, CallbackStep)
  {
    ReachableKeepsInv(s);
    HolderCanStep(s, wake, clockOk);
  }

  lemma HolderCanStep(s: State, wake: Wake, clockOk: bool)
    requires MutexInv(s)
    requires WaiterMayAccess(s.waiter) || CallbackMayAccess(s.callback)
    ensures Enabled(s, WaiterStep(wake, clockOk)) || Enabled(s, CallbackStep)
  {
    match s.mutex
    case Unlocked =>
    case HeldBy(side) =>
      match side {
        case Waiter => assert WaiterHolds(s.waiter);
        case Callback => assert CallbackHolds(s.callback);
      }
  }
}
