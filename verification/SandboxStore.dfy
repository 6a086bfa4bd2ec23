/** The sandbox store (internal/gateway/store.go). Entries are objects with a stable identity. */
module SandboxStore {
  import opened Wrappers
  import opened SandboxRecords
  import opened Lifecycle

  class SandboxEntry {
    var record: Record

    constructor (record: Record)
      ensures this.record == record
    {
      this.record := record;
    }
  }

  /** The defaults Create fills in, which are those of a restored record. */
  function Completed(record: Record, now: Time): (r: Result<Record, string>)
    ensures now > UNSET_TIME ==> r == Enrich(record, now)
  {
    var created := if record.createdAt == UNSET_TIME then now else record.createdAt;
    var end := if record.endAt == UNSET_TIME then DefaultEndAt(created) else record.endAt;
    match record.onTimeout.Normalize()
    case Failure(e) => Failure(e)
    case Success(action) =>
      Success(Record(if record.state == Blank then Running else record.state, created, end, action))
  }

  class SandboxStore {
    var sandboxes: map<Id, SandboxEntry>

    /** Two IDs never share an entry. */
    ghost predicate Valid()
      reads this
    {
      forall i, j :: i in sandboxes && j in sandboxes && i != j ==> sandboxes[i] != sandboxes[j]
    }

    ghost function Records(): map<Id, Record>
      reads this, sandboxes.Values
    {
      map id | id in sandboxes :: sandboxes[id].record
    }

    constructor ()
      ensures Valid() && Records() == map[]
    {
      sandboxes := map[];
    }

    method Create(id: Id, record: Record, now: Time) returns (r: Result<Record, string>)
      requires Valid() && now > UNSET_TIME
      modifies this
      ensures Valid()
      ensures r.Success? <==> id !in old(sandboxes) && Completed(record, now).Success?
      ensures r.Success? ==>
                && r == Completed(record, now) && r.value.Settled()
                && Records() == old(Records())[id := r.value]
                && id in sandboxes && fresh(sandboxes[id])
                && (forall i :: i in old(sandboxes) ==> i in sandboxes && sandboxes[i] == old(sandboxes[i]))
      ensures r.Failure? ==> sandboxes == old(sandboxes)
    {
      r := Completed(record, now);
      if r.Failure? {
        return;
      }
      if id in sandboxes {
        return Failure("sandbox already exists");
      }
      var entry := new SandboxEntry(r.value);
      sandboxes := sandboxes[id := entry];
    }

    method Get(id: Id) returns (r: Option<Record>)
      requires Valid()
      ensures r == if id in Records() then Some(Records()[id]) else None
    {
      if id in sandboxes {
        return Some(sandboxes[id].record);
      }
      return None;
    }

    method Delete(id: Id) returns (deleted: bool)
      requires Valid()
      modifies this
      ensures Valid() && deleted == (id in old(Records()))
      ensures Records() == old(Records()) - {id}
      ensures forall i :: i in sandboxes ==> i in old(sandboxes) && sandboxes[i] == old(sandboxes[i])
    {
      deleted := id in sandboxes;
      sandboxes := sandboxes - {id};
    }

    method Put(id: Id, record: Record) returns (r: Option<Record>)
      requires Valid()
      modifies if id in sandboxes then {sandboxes[id]} else {}
      ensures Valid() && sandboxes == old(sandboxes)
      ensures r == if id in sandboxes then Some(record) else None
      ensures Records() == if id in old(Records()) then old(Records())[id := record] else old(Records())
    {
      if id !in sandboxes {
        return None;
      }
      sandboxes[id].record := record;
      return Some(record);
    }

    method SetState(id: Id, state: SandboxState) returns (r: Option<Record>)
      requires Valid()
      modifies if id in sandboxes then {sandboxes[id]} else {}
      ensures Valid() && sandboxes == old(sandboxes)
      ensures id in old(Records()) ==>
                r == Some(old(Records())[id].(state := state)) && Records() == old(Records())[id := r.value]
      ensures id !in old(Records()) ==> r == None && Records() == old(Records())
    {
      if id !in sandboxes {
        return None;
      }
      r := Put(id, sandboxes[id].record.(state := state));
    }

    method SetEndAt(id: Id, endAt: Time) returns (r: Option<Record>)
      requires Valid()
      modifies if id in sandboxes then {sandboxes[id]} else {}
      ensures Valid() && sandboxes == old(sandboxes)
      ensures id in old(Records()) ==>
                r == Some(Retimed(old(Records())[id], Exact, endAt)) && Records() == old(Records())[id := r.value]
      ensures id !in old(Records()) ==> r == None && Records() == old(Records())
    {
      if id !in sandboxes {
        return None;
      }
      r := Put(id, sandboxes[id].record.(endAt := endAt));
    }

    /** A deadline is never shortened. */
    method ExtendEndAt(id: Id, endAt: Time) returns (r: Option<Record>)
      requires Valid()
      modifies if id in sandboxes then {sandboxes[id]} else {}
      ensures Valid() && sandboxes == old(sandboxes)
      ensures id in old(Records()) ==>
                && r == Some(Retimed(old(Records())[id], Extend, endAt)) && Records() == old(Records())[id := r.value]
                && r.value.endAt >= endAt && r.value.endAt >= old(Records())[id].endAt
                && (r.value.endAt == endAt || r.value.endAt == old(Records())[id].endAt)
      ensures id !in old(Records()) ==> r == None && Records() == old(Records())
    {
      if id !in sandboxes {
        return None;
      }
      var record := sandboxes[id].record;
      var end := endAt;
      if record.endAt > end {
        end := record.endAt;
      }
      r := Put(id, record.(endAt := end));
    }

    method SetStateAndEndAt(id: Id, state: SandboxState, endAt: Time) returns (r: Option<Record>)
      requires Valid()
      modifies if id in sandboxes then {sandboxes[id]} else {}
      ensures Valid() && sandboxes == old(sandboxes)
      ensures id in old(Records()) ==>
                var was := old(Records())[id];
                && r == Some(was.(state := state, endAt := if endAt == UNSET_TIME then was.endAt else endAt))
                && (state == Running && endAt != UNSET_TIME ==> r == Some(Retimed(was, Restart, endAt)))
                && Records() == old(Records())[id := r.value]
      ensures id !in old(Records()) ==> r == None && Records() == old(Records())
    {
      if id !in sandboxes {
        return None;
      }
      var record := sandboxes[id].record.(state := state);
      if endAt != UNSET_TIME {
        record := record.(endAt := endAt);
      }
      r := Put(id, record);
    }
  }
}
