/** sandboxDeadlineManager as the object it is; its methods compute the operations the lifecycle steps use. */
module DeadlineManager {
  import opened Wrappers
  import opened SandboxRecords
  import opened Deadlines

  class DeadlineManager {
    var timers: map<TimerId, Timer>
    var table: map<Id, Slot>
    var stopped: bool
    var running: nat
    var nextTimer: TimerId

    ghost predicate Valid()
      reads this
    {
      forall tm :: tm in timers ==> tm < nextTimer
    }

    ghost function View(): Manager
      reads this
    {
      Manager(timers, table, stopped, running)
    }

    constructor ()
      ensures Valid() && View() == Manager(map[], map[], false, 0)
    {
      timers, table, stopped, running, nextTimer := map[], map[], false, 0, 0;
    }

    method StopTimer(tm: TimerId)
      requires Valid()
      modifies this`timers
      ensures Valid() && timers == Stop(old(timers), tm)
    {
      if tm in timers && timers[tm].status.Armed? {
        timers := timers[tm := timers[tm].(status := Stopped)];
      }
    }

    method Schedule(id: Id, fireAt: Time, expected: Time)
      requires Valid()
      modifies this
      ensures Valid() && View() == Deadlines.Schedule(old(View()), id, fireAt, expected, old(nextTimer))
    {
      if stopped {
        return;
      }
      if id in table {
        var deadline := table[id];
        if deadline.fireAt == fireAt {
          return;
        }
        StopTimer(deadline.timer);
      }
      timers := timers[nextTimer := Timer(id, fireAt, expected, Armed)];
      table := table[id := Slot(nextTimer, fireAt)];
      nextTimer := nextTimer + 1;
    }

    method Cancel(id: Id)
      requires Valid()
      modifies this`timers, this`table
      ensures Valid() && View() == Deadlines.Cancel(old(View()), id)
    {
      if id in table {
        StopTimer(table[id].timer);
        table := table - {id};
      }
    }

    /** What syncSandboxDeadline does with a record. */
    method Sync(id: Id, record: Record)
      requires Valid()
      modifies this
      ensures Valid() && View() == Perform(old(View()), id, SyncCall(record), old(nextTimer))
    {
      if record.state != Running || record.endAt == UNSET_TIME {
        Cancel(id);
      } else {
        Schedule(id, record.endAt, record.endAt);
      }
    }

    /** The prologue of a fired timer's callback: whether it may run. */
    method AdmitCallback(id: Id) returns (admitted: bool)
      requires Valid()
      modifies this`running
      ensures Valid() && admitted == !stopped && View() == Perform(old(View()), id, Admit, nextTimer)
    {
      admitted := !stopped;
      if admitted {
        running := running + 1;
      }
    }

    method FinishCallback(id: Id)
      requires Valid() && running > 0
      modifies this`running
      ensures Valid() && View() == Perform(old(View()), id, Finish, nextTimer)
    {
      running := running - 1;
    }

    /** shutdown up to its wait: every timer in the table is stopped and removed. */
    method BeginShutdown()
      requires Valid()
      modifies this`timers, this`table, this`stopped
      ensures Valid() && View() == Deadlines.BeginShutdown(old(View()))
    {
      if stopped {
        return;
      }
      stopped := true;
      ghost var goal := StopAll(timers, TableTimers(table));
      while table != map[]
        invariant Valid()
        invariant stopped && StopAll(timers, TableTimers(table)) == goal
        decreases |table|
      {
        var id :| id in table;
        StopOneMore(timers, table, id);
        StopTimer(table[id].timer);
        table := table - {id};
      }
      assert TableTimers(table) == {};
      StopAllNothing(timers);
    }
  }

  lemma StopAllNothing(timers: map<TimerId, Timer>)
    ensures StopAll(timers, {}) == timers
  {
  }

  /** Stopping one entry's timer and removing the entry leaves the same timers to stop. */
  lemma StopOneMore(timers: map<TimerId, Timer>, table: map<Id, Slot>, id: Id)
    requires id in table
    ensures StopAll(Stop(timers, table[id].timer), TableTimers(table - {id})) == StopAll(timers, TableTimers(table))
    ensures |table - {id}| < |table|
  {
    var rest := table - {id};
    assert table.Keys == rest.Keys + {id};
    assert TableTimers(table) == TableTimers(rest) + {table[id].timer};
  }

  /** restoreSandboxDeadlines on a fresh manager: afterwards exactly the running records have a timer, armed for
      their own deadline. */
  method RestoreDeadlines(m: DeadlineManager, records: seq<(Id, Record)>)
    requires m.Valid() && m.View() == Manager(map[], map[], false, 0)
    requires forall i, j :: 0 <= i < j < |records| ==> records[i].0 != records[j].0
    modifies m
    ensures m.Valid() && !m.stopped
    ensures forall i :: 0 <= i < |records| ==>
              var (id, rec) := records[i];
              if rec.state == Running && rec.endAt != UNSET_TIME
              then id in m.table && m.table[id].timer in m.timers
                   && m.timers[m.table[id].timer] == Timer(id, rec.endAt, rec.endAt, Armed)
              else id !in m.table
    ensures forall id :: id in m.table ==> exists i :: 0 <= i < |records| && records[i].0 == id
  {
    var n := 0;
    while n < |records|
      invariant 0 <= n <= |records|
      invariant m.Valid() && !m.stopped
      invariant forall id :: id in m.table ==> m.table[id].timer in m.timers
      invariant forall id :: id in m.table ==> exists i :: 0 <= i < n && records[i].0 == id
      invariant forall i :: 0 <= i < n ==>
                  var (id, rec) := records[i];
                  if rec.state == Running && rec.endAt != UNSET_TIME
                  then id in m.table && m.table[id].timer in m.timers
                       && m.timers[m.table[id].timer] == Timer(id, rec.endAt, rec.endAt, Armed)
                  else id !in m.table
    {
      var (id, rec) := records[n];
      m.Sync(id, rec);
      n := n + 1;
    }
  }
}
