/** The sandbox lifecycle as a step relation: request handlers, expiry callbacks, creation and start-up
    restoration interleave at every mutex-protected action and every runtime call. */
module Lifecycle {
  import opened Wrappers
  import opened SandboxRecords
  import opened Deadlines

  /** Identity of a store entry; a new entry always gets a new reference. */
  type Ref = nat

  datatype Request =
    | Get | Kill | PauseNow
    | Resume(timeout: nat) | Connect(timeout: nat) | SetTimeout(timeout: nat) | Refresh(duration: nat)

  /** What a thread runs: a client request, a fired timer's callback, or creation and restoration. */
  datatype Task = Serve(request: Request) | Expire(timer: TimerId, expected: Time) | Provision

  datatype Outcome = Ok | NotFound | Conflict | Error

  datatype Retime = Restart | Exact | Extend

  datatype AfterSync = ThenAct | ThenAnswer(outcome: Outcome) | ThenRetryUnlessPaused

  /** Program counters. A counter that carries `e` and is not Contending holds e's lifecycle lock. */
  datatype Pc =
    // lockSandbox
    | Lookup
    | Contending(e: Ref)
    | Validating(e: Ref)
    | Releasing(e: Ref, answer: Option<Outcome>)  // None: the entry was stale, look it up again
    // reconciliation
    | Checking(e: Ref)
    | Inspecting(e: Ref, rec: Record)
    | StoringInspection(e: Ref, rec: Record, state: SandboxState)
    | Syncing(e: Ref, rec: Record, next: AfterSync)
    // the request itself
    | Acting(e: Ref, rec: Record)
    | CallingDelete(e: Ref, rec: Record, required: bool)
    | Dropping(e: Ref, rec: Record, required: bool)
    | Cancelling(e: Ref, outcome: Outcome)
    | CallingPause(e: Ref, rec: Record)
    | MarkingPaused(e: Ref, rec: Record)
    | CallingResume(e: Ref, rec: Record)
    | Retiming(e: Ref, rec: Record, how: Retime, endAt: Time)
    // expiry callback
    | Admitting
    | Judging(e: Ref)
    | Retrying(e: Ref)
    | CancelOnly
    | Finishing
    // creation and restoration
    | Creating(rec: Record)
    | Storing(rec: Record)
    | CleaningUp
    | Restored
    | UnlockedSync(rec: Record)
    | Done(outcome: Outcome)

  /** `dropped` records that the thread itself has removed its entry from the store. */
  datatype Thread = Thread(id: Id, task: Task, pc: Pc, dropped: bool)

  /** Answers of the runtime, the environment of the protocol. */
  datatype Answer = Succeeds | Fails | Missing | Reports(state: SandboxState)

  /** `sandboxes` is the store's map and `entries` every entry ever made, with its record.
      The last three fields only record history: IDs ever stored, IDs stored whose own unlocked
      deadline sync is still to come, and IDs whose create-cleanup failed. */
  datatype State = State(
    now: Time,
    inspector: bool,
    sandboxes: map<Id, Ref>,
    entries: map<Ref, Record>,
    locks: map<Ref, Tid>,
    mgr: Manager,
    threads: map<Tid, Thread>,
    runtime: set<Id>,
    drained: bool,
    born: set<Id>,
    unsynced: set<Id>,
    leaked: set<Id>)

  datatype Step =
    | Tick(elapsed: nat)
    | RuntimeLoses(id: Id)
    | Arrive(t: Tid, id: Id, request: Request)
    | Fire(tm: TimerId, t: Tid)
    | BeginCreate(t: Tid, id: Id, timeout: nat, policy: TimeoutAction)
    | Restore(t: Tid, id: Id, raw: Record, e: Ref)
    | Shutdown
    | ShutdownReturns
    | Advance(t: Tid, answer: Answer, unused: nat)

  // ---------------------------------------------------------------- store accesses

  function GetRecord(s: State, id: Id): Option<Record> {
    if id in s.sandboxes && s.sandboxes[id] in s.entries then Some(s.entries[s.sandboxes[id]]) else None
  }

  function Retimed(rec: Record, how: Retime, endAt: Time): Record {
    match how
    case Restart => rec.(state := Running, endAt := endAt)
    case Exact => rec.(endAt := endAt)
    case Extend => rec.(endAt := Later(rec.endAt, endAt))
  }

  function Answering(e: Ref, outcome: Outcome): Pc {
    Releasing(e, Some(outcome))
  }

  // ---------------------------------------------------------------- decisions

  /** The request body once the record is known to be usable (or was just reconciled). */
  function Act(request: Request, e: Ref, rec: Record, now: Time): Pc {
    match request
    case Get => Answering(e, Ok)
    case Kill => CallingDelete(e, rec, true)
    case PauseNow => if rec.state != Running then Answering(e, Conflict) else CallingPause(e, rec)
    case Resume(timeout) => if rec.state != Paused then Answering(e, Conflict) else CallingResume(e, rec)
    case Connect(timeout) =>
      if rec.state == Paused then CallingResume(e, rec) else Retiming(e, rec, Extend, now + timeout * SECOND)
    case SetTimeout(timeout) => Retiming(e, rec, Exact, now + timeout * SECOND)
    case Refresh(duration) => Retiming(e, rec, Extend, now + duration * SECOND)
  }

  function ResumedEndAt(request: Request, rec: Record, now: Time): Time {
    match request
    case Resume(timeout) => now + timeout * SECOND
    case Connect(timeout) => Later(rec.endAt, now + timeout * SECOND)
    case _ => now
  }

  /** expireSandboxLocked up to its runtime call. */
  function Judge(current: Option<Record>, e: Ref, expected: Time, now: Time): Pc {
    match current
    case None => Cancelling(e, Ok)
    case Some(rec) =>
      if rec.state != Running || rec.endAt != expected || now < rec.endAt then Answering(e, Ok)
      else match rec.onTimeout
        case PauseOnTimeout => CallingPause(e, rec)
        case KillOnTimeout => CallingDelete(e, rec, true)
        case _ => Cancelling(e, Ok)
  }

  // ---------------------------------------------------------------- one thread step

  predicate CanAdvance(s: State, t: Tid, answer: Answer, unused: nat) {
    && t in s.threads
    && unused !in s.entries && unused !in s.mgr.timers
    && var id := s.threads[t].id;
       match s.threads[t].pc
       case Contending(e) => e !in s.locks
       case Inspecting(e, rec) =>
         answer == Fails || (answer == Missing && id !in s.runtime) || (answer.Reports? && id in s.runtime)
       case CallingDelete(_, _, _) => answer == Succeeds || answer == Fails
       case CallingPause(_, _) => answer == Succeeds || answer == Fails
       case CallingResume(_, _) => answer == Succeeds || answer == Fails
       case Creating(_) => answer == Succeeds || answer == Fails
       case Storing(_) => answer == Succeeds || answer == Fails
       case CleaningUp => answer == Succeeds || answer == Fails
       case Done(_) => false
       case _ => true
  }

  /** What the thread does next. */
  function NextPc(s: State, th: Thread, answer: Answer): Pc {
    var current := GetRecord(s, th.id);
    match th.pc
    case Lookup =>
      if th.id in s.sandboxes then Contending(s.sandboxes[th.id])
      else if th.task.Expire? then CancelOnly else Done(NotFound)
    case Contending(e) => Validating(e)
    case Validating(e) =>
      if th.id in s.sandboxes && s.sandboxes[th.id] == e
      then if th.task.Expire? then Judging(e) else Checking(e)
      else Releasing(e, None)
    case Releasing(e, outcome) =>
      if outcome.None? then Lookup else if th.task.Expire? then Finishing else Done(outcome.value)
    case Checking(e) =>
      if current.None? then Answering(e, NotFound)
      else if current.value.TerminallyExpired(s.now) then Syncing(e, current.value, ThenAnswer(NotFound))
      else if s.inspector then Inspecting(e, current.value)
      else Acting(e, current.value)
    case Inspecting(e, rec) =>
      (match answer
       case Missing => CallingDelete(e, rec, false)
       case Reports(state) => StoringInspection(e, rec, if state == Blank then rec.state else state)
       case _ => if th.task.Expire? then Retrying(e) else Answering(e, Error))
    case StoringInspection(e, rec, state) =>
      if current.None? then Answering(e, NotFound)
      else Syncing(e, current.value.(state := state), if th.task.Expire? then ThenRetryUnlessPaused else ThenAct)
    case Syncing(e, rec, next) =>
      (match next
       case ThenAct => Acting(e, rec)
       case ThenAnswer(outcome) => Answering(e, outcome)
       case ThenRetryUnlessPaused => if rec.state == Paused then Answering(e, Ok) else Retrying(e))
    case Acting(e, rec) => if th.task.Serve? then Act(th.task.request, e, rec, s.now) else Answering(e, Ok)
    case CallingDelete(e, rec, required) =>
      if answer == Succeeds || !required then Dropping(e, rec, required)
      else if th.task.Expire? then Retrying(e) else Answering(e, Error)
    case Dropping(e, rec, required) =>
      if th.id in s.sandboxes then Cancelling(e, if required then Ok else NotFound) else Answering(e, NotFound)
    case Cancelling(e, outcome) => Answering(e, outcome)
    case CallingPause(e, rec) =>
      if answer == Succeeds then MarkingPaused(e, rec)
      else if !th.task.Expire? then Answering(e, Error)
      else if s.inspector then Inspecting(e, rec)
      else Retrying(e)
    case MarkingPaused(e, rec) =>
      if current.Some? then Syncing(e, current.value.(state := Paused), ThenAnswer(Ok))
      else if th.task.Expire? then Cancelling(e, Ok) else Answering(e, NotFound)
    case CallingResume(e, rec) =>
      if answer == Succeeds && th.task.Serve?
      then Retiming(e, rec, Restart, ResumedEndAt(th.task.request, rec, s.now))
      else Answering(e, Error)
    case Retiming(e, rec, how, endAt) =>
      if current.None? then Answering(e, NotFound)
      else Syncing(e, Retimed(current.value, how, endAt), ThenAnswer(Ok))
    case Admitting => if s.mgr.stopped then Done(Ok) else Lookup
    case Judging(e) => if th.task.Expire? then Judge(current, e, th.task.expected, s.now) else Answering(e, Ok)
    case Retrying(e) => if current.None? then Cancelling(e, Ok) else Answering(e, Ok)
    case CancelOnly => Finishing
    case Finishing => Done(Ok)
    case Creating(rec) => if answer == Succeeds then Storing(rec) else Done(Error)
    case Storing(rec) =>
      if answer == Succeeds && th.id !in s.sandboxes then UnlockedSync(rec) else CleaningUp
    case CleaningUp => Done(Error)
    case Restored => if current.None? then Done(Ok) else UnlockedSync(current.value)
    case UnlockedSync(rec) => Done(Ok)
    case Done(outcome) => Done(outcome)
  }

  /** Store.SetState, SetStateRuntimeInfoAndEndAt, SetEndAt and ExtendEndAt: the record that is written, if any. */
  predicate Writes(s: State, th: Thread) {
    (th.pc.StoringInspection? || th.pc.MarkingPaused? || th.pc.Retiming?) && GetRecord(s, th.id).Some?
  }

  predicate Removes(s: State, th: Thread) {
    th.pc.Dropping? && th.id in s.sandboxes
  }

  predicate Inserts(s: State, th: Thread, answer: Answer) {
    th.pc.Storing? && answer == Succeeds && th.id !in s.sandboxes
  }

  function NextSandboxes(s: State, th: Thread, answer: Answer, unused: nat): map<Id, Ref> {
    if Removes(s, th) then s.sandboxes - {th.id}
    else if Inserts(s, th, answer) then s.sandboxes[th.id := unused]
    else s.sandboxes
  }

  function NextEntries(s: State, th: Thread, answer: Answer, unused: nat): map<Ref, Record> {
    if Inserts(s, th, answer) then s.entries[unused := th.pc.rec]
    else if Writes(s, th) && NextPc(s, th, answer).Syncing?
    then s.entries[s.sandboxes[th.id] := NextPc(s, th, answer).rec]
    else s.entries
  }

  function NextLocks(s: State, t: Tid, th: Thread): map<Ref, Tid> {
    match th.pc
    case Contending(e) => s.locks[e := t]
    case Releasing(e, _) => s.locks - {e}
    case _ => s.locks
  }

  function TimerCall(s: State, th: Thread): Call {
    match th.pc
    case Syncing(_, rec, _) => SyncCall(rec)
    case UnlockedSync(rec) => SyncCall(rec)
    case Retrying(_) =>
      if th.task.Expire? && GetRecord(s, th.id).Some? then ScheduleAt(s.now + RETRY_DELAY, th.task.expected)
      else NoCall
    case Cancelling(_, _) => CancelTimer
    case CancelOnly => CancelTimer
    case Admitting => Admit
    case Finishing => Finish
    case _ => NoCall
  }

  function NextRuntime(s: State, th: Thread, answer: Answer): set<Id> {
    if answer != Succeeds then s.runtime
    else if th.pc.Creating? then s.runtime + {th.id}
    else if th.pc.CallingDelete? || th.pc.CleaningUp? then s.runtime - {th.id}
    else s.runtime
  }

  function NextThread(s: State, th: Thread, answer: Answer): Thread {
    th.(pc := NextPc(s, th, answer), dropped := th.dropped || Removes(s, th))
  }

  function AdvanceThread(s: State, t: Tid, answer: Answer, unused: nat): State
    requires CanAdvance(s, t, answer, unused)
  {
    var th := s.threads[t];
    s.(sandboxes := NextSandboxes(s, th, answer, unused),
       entries := NextEntries(s, th, answer, unused),
       locks := NextLocks(s, t, th),
       mgr := Perform(s.mgr, th.id, TimerCall(s, th), unused),
       runtime := NextRuntime(s, th, answer),
       threads := s.threads[t := NextThread(s, th, answer)],
       born := if Inserts(s, th, answer) then s.born + {th.id} else s.born,
       unsynced := if Inserts(s, th, answer) then s.unsynced + {th.id}
                   else if th.pc.UnlockedSync? then s.unsynced - {th.id}
                   else s.unsynced,
       leaked := if th.pc.CleaningUp? && answer != Succeeds then s.leaked + {th.id} else s.leaked)
  }

  // ---------------------------------------------------------------- all steps

  predicate Enabled(s: State, step: Step) {
    match step
    case Tick(_) => true
    case RuntimeLoses(id) => true
    case Arrive(t, id, request) => t !in s.threads
    case Fire(tm, t) =>
      tm in s.mgr.timers && s.mgr.timers[tm].status.Armed? && s.mgr.timers[tm].fireAt <= s.now && t !in s.threads
    case BeginCreate(t, id, timeout, policy) =>
      t !in s.threads && (policy == KillOnTimeout || policy == PauseOnTimeout)
    case Restore(t, id, raw, e) =>
      t !in s.threads && e !in s.entries && id !in s.sandboxes && s.now > UNSET_TIME && Enrich(raw, s.now).Success?
    case Shutdown => true
    case ShutdownReturns => s.mgr.stopped && s.mgr.running == 0
    case Advance(t, answer, unused) => CanAdvance(s, t, answer, unused)
  }

  function Apply(s: State, step: Step): State
    requires Enabled(s, step)
  {
    match step
    case Tick(elapsed) => s.(now := s.now + elapsed)
    case RuntimeLoses(id) => s.(runtime := s.runtime - {id})
    case Arrive(t, id, request) => s.(threads := s.threads[t := Thread(id, Serve(request), Lookup, false)])
    case Fire(tm, t) =>
      var timer := s.mgr.timers[tm];
      s.(mgr := s.mgr.(timers := s.mgr.timers[tm := timer.(status := Fired(t))]),
         threads := s.threads[t := Thread(timer.id, Expire(tm, timer.expected), Admitting, false)])
    case BeginCreate(t, id, timeout, policy) =>
      s.(threads := s.threads[t := Thread(id, Provision, Creating(Record(Running, s.now, s.now + timeout * SECOND, policy)), false)])
    case Restore(t, id, raw, e) =>
      s.(sandboxes := s.sandboxes[id := e],
         entries := s.entries[e := Enrich(raw, s.now).value],
         born := s.born + {id},
         unsynced := s.unsynced + {id},
         runtime := s.runtime + {id},
         threads := s.threads[t := Thread(id, Provision, Restored, false)])
    case Shutdown => s.(mgr := BeginShutdown(s.mgr))
    case ShutdownReturns => s.(drained := true)
    case Advance(t, answer, unused) => AdvanceThread(s, t, answer, unused)
  }

  predicate Init(s: State) {
    && s.now > UNSET_TIME
    && s.sandboxes == map[] && s.entries == map[] && s.locks == map[] && s.threads == map[]
    && s.mgr == Manager(map[], map[], false, 0)
    && s.runtime == {} && !s.drained
    && s.born == {} && s.unsynced == {} && s.leaked == {}
  }
}
