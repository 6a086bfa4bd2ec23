/** The timer table that actively expires sandboxes (internal/gateway/sandbox_deadlines.go). */
module Deadlines {
  import opened Wrappers
  import opened SandboxRecords

  type TimerId = nat
  type Tid = nat

  /** A timer is armed until it is stopped or fires; firing hands it to the thread `callback`. */
  datatype TimerStatus = Armed | Stopped | Fired(callback: Tid)

  /** `expected` is the deadline captured by the timer's closure. */
  datatype Timer = Timer(id: Id, fireAt: Time, expected: Time, status: TimerStatus)

  datatype Slot = Slot(timer: TimerId, fireAt: Time)

  /** `timers` holds every timer ever made; `table` is the manager's map; `running` is the wait-group count. */
  datatype Manager = Manager(timers: map<TimerId, Timer>, table: map<Id, Slot>, stopped: bool, running: nat)

  const RETRY_DELAY: nat := 5 * SECOND

  /** time.Timer.Stop: a timer that already fired is not affected. */
  function Stop(timers: map<TimerId, Timer>, tm: TimerId): map<TimerId, Timer> {
    if tm in timers && timers[tm].status.Armed? then timers[tm := timers[tm].(status := Stopped)] else timers
  }

  function Schedule(m: Manager, id: Id, fireAt: Time, expected: Time, tm: TimerId): Manager {
    if m.stopped then m
    else if id in m.table && m.table[id].fireAt == fireAt then m
    else
      var timers := if id in m.table then Stop(m.timers, m.table[id].timer) else m.timers;
      m.(timers := timers[tm := Timer(id, fireAt, expected, Armed)], table := m.table[id := Slot(tm, fireAt)])
  }

  function Cancel(m: Manager, id: Id): Manager {
    if id in m.table then m.(timers := Stop(m.timers, m.table[id].timer), table := m.table - {id}) else m
  }

  function StopAll(timers: map<TimerId, Timer>, tms: set<TimerId>): map<TimerId, Timer> {
    map tm | tm in timers ::
      if tm in tms && timers[tm].status.Armed? then timers[tm].(status := Stopped) else timers[tm]
  }

  function TableTimers(table: map<Id, Slot>): set<TimerId> {
    set id | id in table :: table[id].timer
  }

  function BeginShutdown(m: Manager): Manager {
    if m.stopped then m
    else m.(timers := StopAll(m.timers, TableTimers(m.table)), table := map[], stopped := true)
  }

  /** What a caller asks of the manager. */
  datatype Call = NoCall | ScheduleAt(fireAt: Time, expected: Time) | CancelTimer | Admit | Finish

  /** syncSandboxDeadline: only a running record with a deadline keeps a timer. */
  function SyncCall(record: Record): Call {
    if record.state != Running || record.endAt == UNSET_TIME then CancelTimer
    else ScheduleAt(record.endAt, record.endAt)
  }

  function Perform(m: Manager, id: Id, call: Call, tm: TimerId): Manager {
    match call
    case NoCall => m
    case ScheduleAt(fireAt, expected) => Schedule(m, id, fireAt, expected, tm)
    case CancelTimer => Cancel(m, id)
    case Admit => if m.stopped then m else m.(running := m.running + 1)
    case Finish => m.(running := if m.running > 0 then m.running - 1 else 0)
  }
}
