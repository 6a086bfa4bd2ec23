/** The timer table, its timers and the callbacks they turn into. */
module LifecycleTimers {
  import opened Wrappers
  import opened SandboxRecords
  import opened Deadlines
  import opened Lifecycle
  import opened LifecycleLocking
  import opened LifecycleRuns
  import opened LifecycleExpiry

  /** Every table entry is a timer that was not stopped, and every armed timer is in the table. */
  ghost predicate TableFits(m: Manager) {
    && (m.stopped ==> m.table == map[])
    && (forall id :: id in m.table ==>
          && m.table[id].timer in m.timers
          && m.timers[m.table[id].timer].id == id
          && m.timers[m.table[id].timer].fireAt == m.table[id].fireAt
          && !m.timers[m.table[id].timer].status.Stopped?)
    && (forall tm :: tm in m.timers && m.timers[tm].status.Armed? ==>
          m.timers[tm].id in m.table && m.table[m.timers[tm].id].timer == tm)
  }

  lemma PerformKeepsTable(m: Manager, id: Id, call: Call, tm: TimerId)
    requires TableFits(m) && tm !in m.timers
    ensures TableFits(Perform(m, id, call, tm))
  {
  }

  lemma ShutdownKeepsTable(m: Manager)
    requires TableFits(m)
    ensures TableFits(BeginShutdown(m))
    ensures forall tm :: tm in BeginShutdown(m).timers ==> !BeginShutdown(m).timers[tm].status.Armed?
  {
  }

  /** What the manager's operations can do to the timers that already exist, and the one they can add. */
  ghost predicate Evolves(m: Manager, m': Manager, tm: TimerId, id: Id) {
    && (forall x :: x in m.timers ==>
          && x in m'.timers
          && m'.timers[x].id == m.timers[x].id && m'.timers[x].expected == m.timers[x].expected
          && m'.timers[x].fireAt == m.timers[x].fireAt
          && (m'.timers[x].status == m.timers[x].status || (m.timers[x].status.Armed? && m'.timers[x].status.Stopped?)))
    && (forall x :: x in m'.timers && x !in m.timers ==>
          x == tm && m'.timers[x].id == id && m'.timers[x].status.Armed?)
    && (forall i :: i != id ==> (i in m'.table <==> i in m.table) && (i in m.table ==> m'.table[i] == m.table[i]))
    && m'.stopped == m.stopped
  }

  lemma PerformEvolves(m: Manager, id: Id, call: Call, tm: TimerId)
    requires tm !in m.timers
    ensures Evolves(m, Perform(m, id, call, tm), tm, id)
  {
  }

  /** Fired timers and callback threads correspond one to one. */
  ghost predicate CallbacksFit(s: State) {
    && (forall tm :: tm in s.mgr.timers ==>
          && s.mgr.timers[tm].id in s.born
          && (s.mgr.timers[tm].status.Fired? ==>
                && s.mgr.timers[tm].status.callback in s.threads
                && s.threads[s.mgr.timers[tm].status.callback].task == Expire(tm, s.mgr.timers[tm].expected)
                && s.threads[s.mgr.timers[tm].status.callback].id == s.mgr.timers[tm].id))
    && (forall t :: t in s.threads && s.threads[t].task.Expire? ==>
          && s.threads[t].task.timer in s.mgr.timers
          && s.mgr.timers[s.threads[t].task.timer].status == Fired(t))
  }

  /** IDs with a record, a deadline sync or a deadline cancellation to come were stored before. */
  ghost predicate IdsFit(s: State) {
    && s.sandboxes.Keys <= s.born
    && s.now > UNSET_TIME
    && (forall id :: id in s.sandboxes && s.sandboxes[id] in s.entries ==> s.entries[s.sandboxes[id]].Settled())
    && (forall t :: t in s.threads ==> ThreadIdFits(s, s.threads[t]))
  }

  ghost predicate ThreadIdFits(s: State, th: Thread) {
    match th.pc
    case Cancelling(_, _) => th.id in s.born
    case CancelOnly => th.id in s.born
    case Restored => th.id in s.born
    case UnlockedSync(rec) => th.id in s.born && rec.Settled()
    case Creating(rec) => rec.Settled() && rec.state == Running && rec.createdAt != UNSET_TIME
    case Storing(rec) => rec.Settled() && rec.state == Running && rec.createdAt != UNSET_TIME
    case Retiming(_, _, _, endAt) => endAt > UNSET_TIME
    case _ => true
  }

  ghost predicate Timers(s: State) {
    && Expiry(s)
    && TableFits(s.mgr)
    && CallbacksFit(s)
    && IdsFit(s)
  }

  lemma TableStep(s: State, step: Step)
    requires TableFits(s.mgr) && Enabled(s, step)
    ensures TableFits(Apply(s, step).mgr)
  {
    match step
    case Advance(t, answer, unused) =>
      PerformKeepsTable(s.mgr, s.threads[t].id, TimerCall(s, s.threads[t]), unused);
    case Shutdown => ShutdownKeepsTable(s.mgr);
    case _ =>
  }

  lemma CallbacksAdvance(s: State, t: Tid, answer: Answer, unused: nat)
    requires CallbacksFit(s) && CanAdvance(s, t, answer, unused)
    requires TimerCall(s, s.threads[t]).ScheduleAt? ==> s.threads[t].id in s.born
    ensures CallbacksFit(AdvanceThread(s, t, answer, unused))
  {
    var th := s.threads[t];
    PerformEvolves(s.mgr, th.id, TimerCall(s, th), unused);
  }

  lemma CallbacksStep(s: State, step: Step)
    requires Timers(s) && Enabled(s, step)
    ensures CallbacksFit(Apply(s, step))
  {
    if step.Advance? {
      var th := s.threads[step.t];
      assert ThreadLocks(s, step.t) && OwnerIsCurrent(s, step.t) && ThreadIdFits(s, th);
      CallbacksAdvance(s, step.t, step.answer, step.unused);
    }
  }

  /** The entry a thread writes, removes or inserts: what becomes of everybody's IDs. */
  lemma AdvanceKeepsOthersIds(s: State, t: Tid, answer: Answer, unused: nat, th: Thread)
    requires CanAdvance(s, t, answer, unused) && ThreadIdFits(s, th)
    ensures ThreadIdFits(AdvanceThread(s, t, answer, unused), th)
  {
  }

  lemma NextPcKeepsId(s: State, t: Tid, answer: Answer, unused: nat)
    requires CanAdvance(s, t, answer, unused) && s.now > UNSET_TIME
    requires var th := s.threads[t];
             && ThreadIdFits(s, th) && OwnerIsCurrent(s, t) && TaskFits(th)
             && (th.dropped ==> !th.pc.Judging? && !th.pc.Retrying? && !th.pc.MarkingPaused? && !th.pc.Dropping?)
             && (th.task.Expire? || th.id in s.sandboxes ==> th.id in s.born)
             && (GetRecord(s, th.id).Some? ==>
                   GetRecord(s, th.id).value.Settled())
    ensures ThreadIdFits(AdvanceThread(s, t, answer, unused), AdvanceThread(s, t, answer, unused).threads[t])
  {
  }

  lemma AdvanceKeepsOwnId(s: State, t: Tid, answer: Answer, unused: nat)
    requires Timers(s) && CanAdvance(s, t, answer, unused)
    ensures ThreadIdFits(AdvanceThread(s, t, answer, unused), AdvanceThread(s, t, answer, unused).threads[t])
  {
    var th := s.threads[t];
    assert ThreadIdFits(s, th) && ThreadLocks(s, t) && OwnerIsCurrent(s, t) && TaskFits(th);
    if th.task.Expire? {
      assert s.mgr.timers[th.task.timer].id == th.id;
    }
    NextPcKeepsId(s, t, answer, unused);
  }

  lemma AdvanceKeepsSettled(s: State, t: Tid, answer: Answer, unused: nat)
    requires Timers(s) && CanAdvance(s, t, answer, unused)
    ensures var s' := AdvanceThread(s, t, answer, unused);
            forall id :: id in s'.sandboxes && s'.sandboxes[id] in s'.entries ==> s'.entries[s'.sandboxes[id]].Settled()
  {
    var s', th := AdvanceThread(s, t, answer, unused), s.threads[t];
    assert ThreadIdFits(s, th);
    forall id | id in s'.sandboxes && s'.sandboxes[id] in s'.entries ensures s'.entries[s'.sandboxes[id]].Settled() {
      if Inserts(s, th, answer) && id == th.id {
        assert s'.entries[s'.sandboxes[id]] == th.pc.rec;
      } else {
        assert s'.sandboxes[id] == s.sandboxes[id];
        if Writes(s, th) && NextPc(s, th, answer).Syncing? {
          WrittenIsSettled(s, th, answer);
        }
      }
    }
  }

  lemma WrittenIsSettled(s: State, th: Thread, answer: Answer)
    requires ThreadIdFits(s, th) && (GetRecord(s, th.id).Some? ==> GetRecord(s, th.id).value.Settled())
    requires Writes(s, th) && NextPc(s, th, answer).Syncing?
    ensures NextPc(s, th, answer).rec.Settled()
  {
  }

  lemma IdsStep(s: State, step: Step)
    requires Timers(s) && Enabled(s, step)
    ensures IdsFit(Apply(s, step))
  {
    var s' := Apply(s, step);
    if step.Advance? {
      AdvanceKeepsSettled(s, step.t, step.answer, step.unused);
    }
    forall u | u in s'.threads ensures ThreadIdFits(s', s'.threads[u]) {
      if IsStepOf(step, u) {
        AdvanceKeepsOwnId(s, u, step.answer, step.unused);
      } else if u in s.threads {
        assert ThreadIdFits(s, s.threads[u]);
        if step.Advance? {
          AdvanceKeepsOthersIds(s, step.t, step.answer, step.unused, s.threads[u]);
        }
      }
    }
  }

  lemma TimersStepKeeps(s: State, step: Step)
    requires Timers(s) && Enabled(s, step)
    ensures Timers(Apply(s, step))
  {
    ExpiryStep(s, step);
    TableStep(s, step);
    CallbacksStep(s, step);
    IdsStep(s, step);
  }

  lemma {:induction false} TimersOnRuns(s: State, steps: seq<Step>, g: Guards, end: State)
    requires (Init(s) || Timers(s)) && Run(s, steps, g, end)
    ensures Timers(end)
    decreases |steps|
  {
    if steps != [] {
      TimersStepKeeps(s, steps[0]);
      TimersOnRuns(Apply(s, steps[0]), steps[1..], g, end);
    }
  }

  // ---------------------------------------------------------------- an ID that is not stored anew

  /** A thread that is about to cancel the ID's timer has seen the ID go, and it is gone for good. */
  ghost predicate GoneWhenCancelled(s: State, id: Id) {
    forall t :: t in s.threads && s.threads[t].id == id && (s.threads[t].pc.Cancelling? || s.threads[t].pc.CancelOnly?) ==>
      id !in s.sandboxes
  }

  lemma StartsToCancel(s: State, t: Tid, answer: Answer, unused: nat)
    requires CanAdvance(s, t, answer, unused) && OwnerIsCurrent(s, t) && ThreadLocks(s, t) && TaskFits(s.threads[t])
    requires GetRecord(s, s.threads[t].id).Some? ==> GetRecord(s, s.threads[t].id).value.Settled()
    requires NextPc(s, s.threads[t], answer).Cancelling? || NextPc(s, s.threads[t], answer).CancelOnly?
    ensures s.threads[t].id !in AdvanceThread(s, t, answer, unused).sandboxes
  {
  }

  lemma GoneStep(s: State, step: Step, id: Id)
    requires Timers(s) && GoneWhenCancelled(s, id) && Enabled(s, step) && (id in s.born ==> !StoresId(s, step, id))
    ensures GoneWhenCancelled(Apply(s, step), id)
  {
    var s' := Apply(s, step);
    forall t | t in s'.threads && s'.threads[t].id == id && (s'.threads[t].pc.Cancelling? || s'.threads[t].pc.CancelOnly?)
      ensures id !in s'.sandboxes
    {
      GoneAfter(s, step, id, t);
    }
  }

  lemma GoneAfter(s: State, step: Step, id: Id, t: Tid)
    requires Timers(s) && GoneWhenCancelled(s, id) && Enabled(s, step) && (id in s.born ==> !StoresId(s, step, id))
    requires t in Apply(s, step).threads && Apply(s, step).threads[t].id == id
    requires var pc := Apply(s, step).threads[t].pc; pc.Cancelling? || pc.CancelOnly?
    ensures id !in Apply(s, step).sandboxes
  {
    if IsStepOf(step, t) {
      assert OwnerIsCurrent(s, t) && ThreadLocks(s, t) && TaskFits(s.threads[t]);
      StartsToCancel(s, t, step.answer, step.unused);
    } else {
      StillCancels(s, step, t);
      WasBorn(s, t);
    }
  }

  lemma WasBorn(s: State, t: Tid)
    requires IdsFit(s) && t in s.threads && (s.threads[t].pc.Cancelling? || s.threads[t].pc.CancelOnly?)
    ensures s.threads[t].id in s.born
  {
    assert ThreadIdFits(s, s.threads[t]);
  }

  lemma StillCancels(s: State, step: Step, t: Tid)
    requires Enabled(s, step) && t in Apply(s, step).threads && !IsStepOf(step, t)
    requires var th := Apply(s, step).threads[t]; th.pc.Cancelling? || th.pc.CancelOnly?
    ensures t in s.threads && s.threads[t] == Apply(s, step).threads[t]
    ensures var id := s.threads[t].id;
            id in Apply(s, step).sandboxes ==> id in s.sandboxes || StoresId(s, step, id)
  {
  }
}
