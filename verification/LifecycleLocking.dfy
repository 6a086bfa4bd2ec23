/** Entry identity and the per-ID lock discipline, on every run whatsoever. */
module LifecycleLocking {
  import opened Wrappers
  import opened SandboxRecords
  import opened Deadlines
  import opened Lifecycle

  function HeldEntry(pc: Pc): Option<Ref> {
    match pc
    case Validating(e) => Some(e)
    case Releasing(e, _) => Some(e)
    case Checking(e) => Some(e)
    case Inspecting(e, _) => Some(e)
    case StoringInspection(e, _, _) => Some(e)
    case Syncing(e, _, _) => Some(e)
    case Acting(e, _) => Some(e)
    case CallingDelete(e, _, _) => Some(e)
    case Dropping(e, _, _) => Some(e)
    case Cancelling(e, _) => Some(e)
    case CallingPause(e, _) => Some(e)
    case MarkingPaused(e, _) => Some(e)
    case CallingResume(e, _) => Some(e)
    case Retiming(e, _, _, _) => Some(e)
    case Judging(e) => Some(e)
    case Retrying(e) => Some(e)
    case _ => None
  }

  /** lockSandbox returned (entry, true) to this thread, and it has neither unlocked nor deleted the entry. */
  function OwnedEntry(th: Thread): Option<Ref> {
    if th.dropped || th.pc.Validating? || (th.pc.Releasing? && th.pc.answer.None?) then None else HeldEntry(th.pc)
  }

  /** The record a thread carries from its last store access. */
  function Snapshot(pc: Pc): Option<Record> {
    match pc
    case Inspecting(_, rec) => Some(rec)
    case StoringInspection(_, rec, _) => Some(rec)
    case Syncing(_, rec, _) => Some(rec)
    case Acting(_, rec) => Some(rec)
    case CallingDelete(_, rec, _) => Some(rec)
    case Dropping(_, rec, _) => Some(rec)
    case CallingPause(_, rec) => Some(rec)
    case MarkingPaused(_, rec) => Some(rec)
    case CallingResume(_, rec) => Some(rec)
    case Retiming(_, rec, _, _) => Some(rec)
    case _ => None
  }

  ghost predicate MapsToEntries(s: State) {
    && (forall i :: i in s.sandboxes ==> s.sandboxes[i] in s.entries)
    && (forall i, j :: i in s.sandboxes && j in s.sandboxes && i != j ==> s.sandboxes[i] != s.sandboxes[j])
  }

  ghost predicate LocksMatchCounters(s: State) {
    && (forall e :: e in s.locks ==> s.locks[e] in s.threads && HeldEntry(s.threads[s.locks[e]].pc) == Some(e))
    && (forall t :: t in s.threads ==> ThreadLocks(s, t))
  }

  ghost predicate ThreadLocks(s: State, t: Tid)
    requires t in s.threads
  {
    var th := s.threads[t];
    && (HeldEntry(th.pc).Some? ==>
         var e := HeldEntry(th.pc).value; e in s.entries && e in s.locks && s.locks[e] == t)
    && (th.pc.Contending? ==> th.pc.e in s.entries)
    && (th.dropped ==> th.pc.Cancelling? || (th.pc.Releasing? && th.pc.answer.Some?) || th.pc.Finishing? || th.pc.Done?)
  }

  ghost predicate OwnerIsCurrent(s: State, t: Tid)
    requires t in s.threads
  {
    var th := s.threads[t];
    OwnedEntry(th).Some? ==>
      && th.id in s.sandboxes && s.sandboxes[th.id] == OwnedEntry(th).value
      && s.sandboxes[th.id] in s.entries
      && (Snapshot(th.pc).Some? ==> s.entries[s.sandboxes[th.id]] == Snapshot(th.pc).value)
  }

  ghost predicate Locking(s: State) {
    && MapsToEntries(s)
    && LocksMatchCounters(s)
    && (forall t :: t in s.threads ==> OwnerIsCurrent(s, t))
  }

  // ---------------------------------------------------------------- the kinds of effect a step has

  ghost predicate OnlyMoves(s: State, s': State, t: Tid) {
    && t in s.threads && t in s'.threads
    && s'.threads == s.threads[t := s'.threads[t]]
    && s'.threads[t].id == s.threads[t].id
  }

  ghost predicate SameStore(s: State, s': State) {
    s'.sandboxes == s.sandboxes && s'.entries == s.entries
  }

  lemma MoveKeepsLocking(s: State, s': State, t: Tid)
    requires Locking(s) && OnlyMoves(s, s', t) && SameStore(s, s') && s'.locks == s.locks
    requires HeldEntry(s'.threads[t].pc) == HeldEntry(s.threads[t].pc)
    requires ThreadLocks(s', t) && OwnerIsCurrent(s', t)
    ensures Locking(s')
  {
  }

  lemma AcquireKeepsLocking(s: State, s': State, t: Tid, e: Ref)
    requires Locking(s) && OnlyMoves(s, s', t) && SameStore(s, s')
    requires s.threads[t].pc == Contending(e) && e !in s.locks && s'.locks == s.locks[e := t]
    requires s'.threads[t] == s.threads[t].(pc := Validating(e))
    ensures Locking(s')
  {
    assert ThreadLocks(s, t);
    forall u | u in s.threads && u != t ensures ThreadLocks(s', u) && OwnerIsCurrent(s', u) {
      assert ThreadLocks(s, u) && OwnerIsCurrent(s, u);
    }
  }

  lemma ReleaseKeepsLocking(s: State, s': State, t: Tid, e: Ref)
    requires Locking(s) && OnlyMoves(s, s', t) && SameStore(s, s')
    requires HeldEntry(s.threads[t].pc) == Some(e) && s'.locks == s.locks - {e}
    requires HeldEntry(s'.threads[t].pc).None? && ThreadLocks(s', t)
    ensures Locking(s')
  {
    assert ThreadLocks(s, t);
    forall u | u in s.threads && u != t ensures ThreadLocks(s', u) && OwnerIsCurrent(s', u) {
      assert ThreadLocks(s, u) && OwnerIsCurrent(s, u);
    }
  }

  /** A store write by the owner: every other owner owns another entry. */
  lemma PutKeepsLocking(s: State, s': State, t: Tid, rec: Record)
    requires Locking(s) && OnlyMoves(s, s', t) && s'.locks == s.locks
    requires OwnedEntry(s.threads[t]).Some?
    requires s'.sandboxes == s.sandboxes
    requires s'.entries == s.entries[s.sandboxes[s.threads[t].id] := rec]
    requires HeldEntry(s'.threads[t].pc) == HeldEntry(s.threads[t].pc)
    requires ThreadLocks(s', t) && OwnerIsCurrent(s', t)
    ensures Locking(s')
  {
    assert ThreadLocks(s, t) && OwnerIsCurrent(s, t);
    forall u | u in s.threads && u != t ensures ThreadLocks(s', u) && OwnerIsCurrent(s', u) {
      assert ThreadLocks(s, u) && OwnerIsCurrent(s, u);
    }
  }

  lemma DropKeepsLocking(s: State, s': State, t: Tid)
    requires Locking(s) && OnlyMoves(s, s', t) && s'.locks == s.locks
    requires OwnedEntry(s.threads[t]).Some? && s'.entries == s.entries
    requires s'.sandboxes == s.sandboxes - {s.threads[t].id}
    requires HeldEntry(s'.threads[t].pc) == HeldEntry(s.threads[t].pc)
    requires ThreadLocks(s', t) && OwnedEntry(s'.threads[t]).None?
    ensures Locking(s')
  {
    assert ThreadLocks(s, t) && OwnerIsCurrent(s, t);
    forall u | u in s.threads && u != t ensures ThreadLocks(s', u) && OwnerIsCurrent(s', u) {
      assert ThreadLocks(s, u) && OwnerIsCurrent(s, u);
    }
  }

  lemma InsertKeepsLocking(s: State, s': State, id: Id, rec: Record, e: Ref)
    requires Locking(s) && id !in s.sandboxes && e !in s.entries
    requires s'.sandboxes == s.sandboxes[id := e] && s'.entries == s.entries[e := rec]
    requires s'.locks == s.locks && s'.threads == s.threads
    ensures Locking(s')
  {
    forall u | u in s.threads ensures ThreadLocks(s', u) && OwnerIsCurrent(s', u) {
      assert ThreadLocks(s, u) && OwnerIsCurrent(s, u);
    }
  }

  lemma SpawnKeepsLocking(s: State, s': State, t: Tid, th: Thread)
    requires Locking(s) && SameStore(s, s') && s'.locks == s.locks
    requires t !in s.threads && s'.threads == s.threads[t := th]
    requires HeldEntry(th.pc).None? && !th.pc.Contending? && !th.dropped
    ensures Locking(s')
  {
    forall u | u in s.threads ensures ThreadLocks(s', u) && OwnerIsCurrent(s', u) {
      assert ThreadLocks(s, u) && OwnerIsCurrent(s, u);
    }
  }

  /** The counters whose step writes the store or a lock. */
  predicate TouchesStoreOrLock(pc: Pc) {
    pc.Contending? || pc.Releasing? || pc.StoringInspection? || pc.MarkingPaused? || pc.Retiming? || pc.Dropping?
    || pc.Storing?
  }

  lemma QuietAdvance(s: State, t: Tid, answer: Answer, unused: nat)
    requires CanAdvance(s, t, answer, unused)
    requires ThreadLocks(s, t) && OwnerIsCurrent(s, t)
    requires s.threads[t].id in s.sandboxes ==> s.sandboxes[s.threads[t].id] in s.entries
    requires !TouchesStoreOrLock(s.threads[t].pc)
    ensures var s' := AdvanceThread(s, t, answer, unused);
            && OnlyMoves(s, s', t) && SameStore(s, s') && s'.locks == s.locks
            && HeldEntry(s'.threads[t].pc) == HeldEntry(s.threads[t].pc)
            && ThreadLocks(s', t) && OwnerIsCurrent(s', t)
  {
  }

  lemma WritingAdvance(s: State, t: Tid, answer: Answer, unused: nat)
    requires CanAdvance(s, t, answer, unused)
    requires ThreadLocks(s, t) && OwnerIsCurrent(s, t)
    requires var pc := s.threads[t].pc; pc.StoringInspection? || pc.MarkingPaused? || pc.Retiming?
    ensures var s' := AdvanceThread(s, t, answer, unused);
            && OnlyMoves(s, s', t) && s'.locks == s.locks && s'.sandboxes == s.sandboxes
            && OwnedEntry(s.threads[t]).Some?
            && s'.threads[t].pc.Syncing?
            && s'.entries == s.entries[s.sandboxes[s.threads[t].id] := s'.threads[t].pc.rec]
            && HeldEntry(s'.threads[t].pc) == HeldEntry(s.threads[t].pc)
            && ThreadLocks(s', t) && OwnerIsCurrent(s', t)
  {
  }

  lemma StoringAdvance(s: State, t: Tid, answer: Answer, unused: nat)
    requires Locking(s) && CanAdvance(s, t, answer, unused) && s.threads[t].pc.Storing?
    ensures Locking(AdvanceThread(s, t, answer, unused))
  {
    var s' := AdvanceThread(s, t, answer, unused);
    var th := s.threads[t];
    if Inserts(s, th, answer) {
      var mid := s.(sandboxes := s'.sandboxes, entries := s'.entries);
      InsertKeepsLocking(s, mid, th.id, th.pc.rec, unused);
      MoveKeepsLocking(mid, s', t);
    } else {
      MoveKeepsLocking(s, s', t);
    }
  }

  lemma AdvanceKeepsLocking(s: State, t: Tid, answer: Answer, unused: nat)
    requires Locking(s) && CanAdvance(s, t, answer, unused)
    ensures Locking(AdvanceThread(s, t, answer, unused))
  {
    var s' := AdvanceThread(s, t, answer, unused);
    var pc := s.threads[t].pc;
    assert ThreadLocks(s, t) && OwnerIsCurrent(s, t);
    if pc.Storing? {
      StoringAdvance(s, t, answer, unused);
    } else if pc.Contending? {
      AcquireKeepsLocking(s, s', t, pc.e);
    } else if pc.Releasing? {
      ReleaseKeepsLocking(s, s', t, pc.e);
    } else if pc.StoringInspection? || pc.MarkingPaused? || pc.Retiming? {
      WritingAdvance(s, t, answer, unused);
      PutKeepsLocking(s, s', t, s'.threads[t].pc.rec);
    } else if pc.Dropping? {
      DropKeepsLocking(s, s', t);
    } else {
      QuietAdvance(s, t, answer, unused);
      MoveKeepsLocking(s, s', t);
    }
  }

  lemma RestoreKeepsLocking(s: State, t: Tid, id: Id, raw: Record, e: Ref)
    requires Locking(s) && Enabled(s, Restore(t, id, raw, e))
    ensures Locking(Apply(s, Restore(t, id, raw, e)))
  {
    var s' := Apply(s, Restore(t, id, raw, e));
    var mid := s.(sandboxes := s'.sandboxes, entries := s'.entries);
    InsertKeepsLocking(s, mid, id, Enrich(raw, s.now).value, e);
    SpawnKeepsLocking(mid, s', t, s'.threads[t]);
  }

  lemma StillKeepsLocking(s: State, s': State)
    requires Locking(s) && SameStore(s, s') && s'.locks == s.locks && s'.threads == s.threads
    ensures Locking(s')
  {
    forall u | u in s.threads ensures ThreadLocks(s', u) && OwnerIsCurrent(s', u) {
      assert ThreadLocks(s, u) && OwnerIsCurrent(s, u);
    }
  }

  lemma LockingStep(s: State, step: Step)
    requires Locking(s) && Enabled(s, step)
    ensures Locking(Apply(s, step))
  {
    var s' := Apply(s, step);
    match step
    case Arrive(t, id, request) => SpawnKeepsLocking(s, s', t, Thread(id, Serve(request), Lookup, false));
    case Fire(_, t) => SpawnKeepsLocking(s, s', t, s'.threads[t]);
    case BeginCreate(t, _, _, _) => SpawnKeepsLocking(s, s', t, s'.threads[t]);
    case Restore(t, id, raw, e) => RestoreKeepsLocking(s, t, id, raw, e);
    case Advance(t, answer, unused) => AdvanceKeepsLocking(s, t, answer, unused);
    case _ => StillKeepsLocking(s, s');
  }

  predicate IsStepOf(step: Step, t: Tid) {
    step.Advance? && step.t == t
  }

  lemma AdvanceSparesOtherOwners(s: State, u: Tid, answer: Answer, unused: nat, t: Tid)
    requires Locking(s) && CanAdvance(s, u, answer, unused) && t in s.threads && t != u
    requires OwnedEntry(s.threads[t]).Some?
    ensures var s', th, e := AdvanceThread(s, u, answer, unused), s.threads[t], OwnedEntry(s.threads[t]).value;
            && th.id in s'.sandboxes && s'.sandboxes[th.id] == e
            && e in s.entries && e in s'.entries && s'.entries[e] == s.entries[e]
            && e in s'.locks && s'.locks[e] == t
  {
    assert ThreadLocks(s, t) && OwnerIsCurrent(s, t) && ThreadLocks(s, u) && OwnerIsCurrent(s, u);
  }

  /** While a thread owns an entry, no step of anybody else touches that entry, its lock or its place in the map. */
  lemma OwnedEntryIsUndisturbed(s: State, step: Step, t: Tid)
    requires Locking(s) && Enabled(s, step) && t in s.threads && !IsStepOf(step, t)
    requires OwnedEntry(s.threads[t]).Some?
    ensures var s', th, e := Apply(s, step), s.threads[t], OwnedEntry(s.threads[t]).value;
            && t in s'.threads && s'.threads[t] == th
            && th.id in s'.sandboxes && s'.sandboxes[th.id] == e
            && e in s.entries && e in s'.entries && s'.entries[e] == s.entries[e]
            && e in s'.locks && s'.locks[e] == t
  {
    assert ThreadLocks(s, t) && OwnerIsCurrent(s, t);
    if step.Advance? {
      AdvanceSparesOtherOwners(s, step.t, step.answer, step.unused, t);
    }
  }
}
