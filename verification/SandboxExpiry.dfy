/** Deletion, pausing, reconciliation and expiry of one sandbox by a thread that holds its lifecycle lock, on the store and
    the timers as objects (internal/gateway/sandbox_deletion.go, internal/gateway/sandbox_deadlines.go,
    internal/gateway/gateway_callbacks.go). The decisions are those of the step relation in Lifecycle. */
module SandboxExpiry {
  import opened Wrappers
  import opened SandboxRecords
  import opened Deadlines
  import Lifecycle
  import opened SandboxStore
  import opened DeadlineManager

  /** What inspecting the sandbox in the runtime gives. */
  datatype Inspection = CannotInspect | InspectFails | Gone | Alive(state: SandboxState)

  /** What the runtime answers, should it be asked. */
  datatype Answers = Answers(pauseOk: bool, deleteOk: bool, inspection: Inspection)

  /** The record and the timers that a locked operation works on. */
  datatype View = View(records: map<Id, Record>, mgr: Manager)

  function Removed(v: View, id: Id): View {
    if id in v.records then View(v.records - {id}, Cancel(v.mgr, id)) else v
  }

  function Synced(v: View, id: Id, record: Record, tm: TimerId): View {
    View(v.records[id := record], Perform(v.mgr, id, SyncCall(record), tm))
  }

  function Retried(v: View, id: Id, expected: Time, now: Time, tm: TimerId): View {
    if id in v.records then v.(mgr := Schedule(v.mgr, id, now + RETRY_DELAY, expected, tm))
    else v.(mgr := Cancel(v.mgr, id))
  }

  class Gateway {
    const store: SandboxStore
    const deadlines: DeadlineManager

    constructor (store: SandboxStore, deadlines: DeadlineManager)
      ensures this.store == store && this.deadlines == deadlines
    {
      this.store, this.deadlines := store, deadlines;
    }

    ghost predicate Valid()
      reads store, deadlines
    {
      store.Valid() && deadlines.Valid()
    }

    ghost function Now(): View
      reads store, store.sandboxes.Values, deadlines
    {
      View(store.Records(), deadlines.View())
    }

    /** A required delete that the runtime refuses changes nothing; any other drops the record and then its timer. */
    method DeleteSandbox(id: Id, required: bool, runtimeOk: bool) returns (deleted: bool, failed: bool)
      requires Valid()
      modifies store, deadlines
      ensures Valid() && (failed <==> required && !runtimeOk)
      ensures deleted <==> !failed && id in old(store.Records())
      ensures Now() == if failed then old(Now()) else Removed(old(Now()), id)
      ensures failed ==> deadlines.nextTimer == old(deadlines.nextTimer)
    {
      failed := required && !runtimeOk;
      deleted := false;
      if failed {
        return;
      }
      deleted := store.Delete(id);
      if deleted {
        deadlines.Cancel(id);
      } else {
        assert old(store.Records()) - {id} == old(store.Records());
      }
    }

    method SyncSandboxDeadline(id: Id, record: Record)
      requires Valid()
      modifies deadlines
      ensures Valid() && deadlines.View() == Perform(old(deadlines.View()), id, SyncCall(record), old(deadlines.nextTimer))
    {
      deadlines.Sync(id, record);
    }

    method PauseSandboxLocked(id: Id, pauseOk: bool) returns (paused: bool, failed: bool)
      requires Valid()
      modifies store.sandboxes.Values, deadlines
      ensures Valid() && (failed <==> !pauseOk) && (paused <==> pauseOk && id in old(store.Records()))
      ensures Now() == if paused
                       then Synced(old(Now()), id, old(Now()).records[id].(state := Paused), old(deadlines.nextTimer))
                       else old(Now())
      ensures failed ==> deadlines.nextTimer == old(deadlines.nextTimer)
    {
      failed := !pauseOk;
      paused := false;
      if failed {
        return;
      }
      var updated := store.SetState(id, Paused);
      if updated.None? {
        return;
      }
      paused := true;
      SyncSandboxDeadline(id, updated.value);
    }

    method ReconcileSandboxRecordWithInspector(id: Id, inspection: Inspection, deleteOk: bool)
      returns (updated: Option<Record>, failed: bool)
      requires Valid() && !inspection.CannotInspect?
      modifies store, store.sandboxes.Values, deadlines
      ensures Valid() && (failed <==> inspection.InspectFails?)
      ensures Now() == Reconciled(old(Now()), id, inspection, old(deadlines.nextTimer))
      ensures updated == if failed || inspection.Gone? then None else Find(Now(), id)
    {
      failed := inspection.InspectFails?;
      updated := None;
      if failed {
        return;
      }
      if inspection.Gone? {
        var deleted, refused := DeleteSandbox(id, false, deleteOk);
        return;
      }
      var current := store.Get(id);
      if current.None? {
        return;
      }
      var state := if inspection.state == Blank then current.value.state else inspection.state;
      updated := store.SetState(id, state);
      SyncSandboxDeadline(id, updated.value);
    }

    method ScheduleExpiryRetry(id: Id, expected: Time, now: Time)
      requires Valid()
      modifies deadlines
      ensures Valid() && Now() == Retried(old(Now()), id, expected, now, old(deadlines.nextTimer))
    {
      var record := store.Get(id);
      if record.None? {
        deadlines.Cancel(id);
        return;
      }
      deadlines.Schedule(id, now + RETRY_DELAY, expected);
    }

    method ExpireByPausing(id: Id, expected: Time, now: Time, answers: Answers)
      requires Valid() && id in store.sandboxes
      modifies store, store.sandboxes.Values, deadlines
      ensures Valid()
      ensures PauseExpires(old(Now()), Now(), id, expected, now, answers, old(deadlines.nextTimer))
    {
      var paused, failed := PauseSandboxLocked(id, answers.pauseOk);
      if !failed {
        return;
      }
      if !answers.inspection.CannotInspect? {
        var updated, inspectFailed := ReconcileSandboxRecordWithInspector(id, answers.inspection, answers.deleteOk);
        if !inspectFailed && (updated.None? || updated.value.state == Paused) {
          return;
        }
      }
      ghost var before, retry := Now(), deadlines.nextTimer;
      assert before == Reconciled(old(Now()), id, answers.inspection, old(deadlines.nextTimer));
      ScheduleExpiryRetry(id, expected, now);
      assert Now() == Retried(before, id, expected, now, retry);
    }

    /** What expiry does follows the judgement of the step relation; no other sandbox is touched. */
    method ExpireSandboxLocked(id: Id, expected: Time, now: Time, answers: Answers)
      requires Valid()
      modifies store, store.sandboxes.Values, deadlines
      ensures Valid()
      ensures Expires(old(Now()), Now(), id, expected, now, answers, old(deadlines.nextTimer))
    {
      var current := store.Get(id);
      if current.None? {
        deadlines.Cancel(id);
        return;
      }
      var record := current.value;
      if record.state != Running || record.endAt != expected || now < record.endAt {
        return;
      }
      if record.onTimeout == PauseOnTimeout {
        ExpireByPausing(id, expected, now, answers);
        return;
      }
      if record.onTimeout == KillOnTimeout {
        var deleted, failed := DeleteSandbox(id, true, answers.deleteOk);
        if failed {
          ScheduleExpiryRetry(id, expected, now);
        }
        return;
      }
      deadlines.Cancel(id);
    }
  }

  function Reconciled(v: View, id: Id, inspection: Inspection, tm: TimerId): View {
    match inspection
    case Gone => Removed(v, id)
    case Alive(state) =>
      if id !in v.records then v
      else Synced(v, id, v.records[id].(state := if state == Blank then v.records[id].state else state), tm)
    case _ => v
  }

  function Find(v: View, id: Id): Option<Record> {
    if id in v.records then Some(v.records[id]) else None
  }

  /** The outcome where the policy is to pause: paused; or else what inspection finds, with a retry unless that settles it. */
  ghost predicate PauseExpires(v: View, v': View, id: Id, expected: Time, now: Time, answers: Answers, tm: TimerId)
    requires id in v.records
  {
    if answers.pauseOk then v' == Synced(v, id, v.records[id].(state := Paused), tm)
    else
      var w := Reconciled(v, id, answers.inspection, tm);
      if answers.inspection.Gone? || (answers.inspection.Alive? && w.records[id].state == Paused) then v' == w
      else exists retry :: v' == Retried(w, id, expected, now, retry)
  }

  /** The outcome of expiry, by what Lifecycle.Judge decides for the record found. */
  ghost predicate Expires(v: View, v': View, id: Id, expected: Time, now: Time, answers: Answers, tm: TimerId) {
    match Lifecycle.Judge(Find(v, id), 0, expected, now)
    case CallingPause(_, _) => id in v.records && PauseExpires(v, v', id, expected, now, answers, tm)
    case CallingDelete(_, _, _) =>
      if answers.deleteOk then v' == Removed(v, id) else v' == Retried(v, id, expected, now, tm)
    case Cancelling(_, _) => v' == v.(mgr := Cancel(v.mgr, id))
    case _ => v' == v
  }

  /** The ID's timer in the table is armed for the deadline and fires at the retry time. */
  predicate RetryIsDue(v: View, id: Id, expected: Time, now: Time) {
    && id in v.mgr.table && v.mgr.table[id].timer in v.mgr.timers
    && v.mgr.timers[v.mgr.table[id].timer] == Timer(id, now + RETRY_DELAY, expected, Armed)
  }

  predicate RetryTaken(v: View, id: Id, now: Time) {
    id in v.mgr.table && v.mgr.table[id].fireAt == now + RETRY_DELAY
  }

  /** Expiry leaves every other sandbox alone. It acts only on a running record that carries the timer's deadline, once that
      has passed; and as long as the manager runs, a record it leaves running keeps a timer in the table: one armed for
      its deadline, unless the table had one at the retry time before. */
  lemma ExpiryIsContained(v: View, v': View, id: Id, expected: Time, now: Time, answers: Answers, tm: TimerId, other: Id)
    requires Expires(v, v', id, expected, now, answers, tm)
    ensures other != id ==> Find(v', other) == Find(v, other)
    ensures other != id ==> (other in v'.mgr.table <==> other in v.mgr.table)
    ensures other != id && other in v.mgr.table ==> v'.mgr.table[other] == v.mgr.table[other]
    ensures v'.records != v.records ==>
              id in v.records && v.records[id].state == Running && v.records[id].endAt == expected && expected <= now
    ensures !v.mgr.stopped && id in v.records && v.records[id].Settled() && v.records[id].state == Running
            && v.records[id].endAt == expected <= now && id in v'.records && v'.records[id].state == Running ==>
              RetryIsDue(v', id, expected, now) || (RetryTaken(v, id, now) && RetryTaken(v', id, now))
  {
  }
}
