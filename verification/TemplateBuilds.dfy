/** Template builds: the bounded task table, its wait group and shutdown, and the build records the tasks leave
    (internal/gateway/template_build_manager.go, internal/gateway/gateway_callbacks.go). */
module TemplateBuilds {

  datatype Key = Key(templateId: string, buildId: string)

  type TaskId = nat
  type Log = seq<string>

  datatype Status = Blank | Building | Ready | Failed | OtherStatus(name: string)

  datatype BuildError = ContextCanceled | OtherError(message: string)

  /** What the runtime's builder returns; a build that succeeds under a cancelled context counts as failed. */
  datatype BuildResult = Built(status: Status, logs: Log) | Broken(error: BuildError, logs: Log)

  /** A builder's result, and whether its context was done by then. */
  datatype Finish = Finish(result: BuildResult, interrupted: bool)

  /** Reserved: in the table, start not saved yet. Saved: the result is in the store. Dropped: there is nothing to
      save, as the start was not saved or the task lost its place. Leaving: out of the table, still in the wait group. */
  datatype TaskPc =
    | Reserved | Running | Returned(status: Status, logs: Log) | Saving(status: Status, logs: Log)
    | Saved | Dropped | Leaving | Finished

  datatype Task = Task(key: Key, startLogs: Log, cancelled: bool, contextDone: bool, pc: TaskPc)

  /** A build record in the management store. */
  datatype Build = Build(status: Status, logs: Log)

  datatype ReserveError = Stopped | AlreadyRunning | CapacityExhausted

  /** The last three fields record what cancelTeamBuilds has reported: which tasks, and the sum of its counts; and how the
      builders have finished. */
  datatype State = State(
    maxConcurrent: nat,
    active: map<Key, TaskId>,
    tasks: map<TaskId, Task>,
    stopping: bool,
    waiting: nat,
    drained: bool,
    records: map<Key, Build>,
    counted: set<TaskId>,
    reported: nat,
    finishes: map<TaskId, Finish>)

  datatype Step =
    | Reserve(key: Key, t: TaskId, startLogs: Log)
    | SaveStart(t: TaskId, ok: bool)
    | Return(t: TaskId, result: BuildResult)
    | Check(t: TaskId)
    | SaveResult(t: TaskId)
    | Remove(t: TaskId)
    | Leave(t: TaskId)
    | CancelTeam
    | CancelContext(t: TaskId)
    | BeginShutdown
    | ShutdownReturns
    | DeleteTemplate(templateId: string)

  // ---------------------------------------------------------------- the manager's operations

  function ReserveRefusal(s: State, key: Key): (r: set<ReserveError>) {
    if s.stopping then {Stopped}
    else if key in s.active then {AlreadyRunning}
    else if |s.active| >= s.maxConcurrent then {CapacityExhausted}
    else {}
  }

  predicate IsCurrent(s: State, t: TaskId)
    requires t in s.tasks
  {
    s.tasks[t].key in s.active && s.active[s.tasks[t].key] == t
  }

  /** Active tasks that no earlier cancellation has marked. */
  function Unmarked(s: State): set<TaskId> {
    set t | t in s.tasks && !s.tasks[t].cancelled && IsCurrent(s, t)
  }

  function Mark(tasks: map<TaskId, Task>, marked: set<TaskId>): map<TaskId, Task> {
    map t | t in tasks :: if t in marked then tasks[t].(cancelled := true) else tasks[t]
  }

  /** Cancelling the root context ends every task's context; the tasks in the table are also marked. */
  function MarkAll(s: State): map<TaskId, Task> {
    map t | t in s.tasks :: s.tasks[t].(cancelled := s.tasks[t].cancelled || IsCurrent(s, t), contextDone := true)
  }

  // ---------------------------------------------------------------- what a finished build saves

  function FinalStatus(status: Status): Status {
    if status == Blank || status == Building then Ready else status
  }

  function Judge(task: Task, result: BuildResult): TaskPc {
    match result
    case Built(status, logs) =>
      if task.contextDone then Returned(Failed, task.startLogs + ErrorLogs(logs, CANCELLED))
      else Returned(FinalStatus(status), task.startLogs + logs)
    case Broken(error, logs) => Returned(Failed, task.startLogs + ErrorLogs(logs, MessageOf(error)))
  }

  function MessageOf(error: BuildError): string {
    match error
    case ContextCanceled => CANCELLED
    case OtherError(message) => message
  }

  const CANCELLED := "v2 template build cancelled by e2b-local"

  function ErrorLogs(logs: Log, message: string): Log {
    if |logs| == 0 then [message] else logs
  }

  // ---------------------------------------------------------------- steps

  predicate Enabled(s: State, step: Step) {
    match step
    case Reserve(key, t, startLogs) => t !in s.tasks && startLogs != []
    case SaveStart(t, ok) => t in s.tasks && s.tasks[t].pc.Reserved?
    case Return(t, result) => t in s.tasks && s.tasks[t].pc.Running?
    case Check(t) => t in s.tasks && s.tasks[t].pc.Returned?
    case SaveResult(t) => t in s.tasks && s.tasks[t].pc.Saving?
    case Remove(t) => t in s.tasks && (s.tasks[t].pc.Saved? || s.tasks[t].pc.Dropped?)
    case Leave(t) => t in s.tasks && s.tasks[t].pc.Leaving?
    case CancelContext(t) => t in s.tasks && s.tasks[t].cancelled
    case ShutdownReturns => s.stopping && s.waiting == 0
    case _ => true
  }

  predicate Reserves(s: State, step: Step) {
    step.Reserve? && ReserveRefusal(s, step.key) == {}
  }

  function NextActive(s: State, step: Step): map<Key, TaskId>
    requires Enabled(s, step)
  {
    if Reserves(s, step) then s.active[step.key := step.t]
    else if step.Remove? && IsCurrent(s, step.t) then s.active - {s.tasks[step.t].key}
    else s.active
  }

  /** What the step makes of the task it is about. */
  function NextTask(s: State, t: TaskId, step: Step): Task
    requires t in s.tasks
  {
    var task := s.tasks[t];
    match step
    case SaveStart(_, ok) => task.(pc := if ok then Running else Dropped)
    case Return(_, result) => task.(pc := Judge(task, result))
    case Check(_) =>
      if IsCurrent(s, t) && task.pc.Returned? then task.(pc := Saving(task.pc.status, task.pc.logs))
      else task.(pc := Dropped)
    case SaveResult(_) => task.(pc := Saved)
    case Remove(_) => task.(pc := Leaving)
    case Leave(_) => task.(pc := Finished, contextDone := true)
    case CancelContext(_) => task.(contextDone := true)
    case _ => task
  }

  function NextTasks(s: State, step: Step): map<TaskId, Task>
    requires Enabled(s, step)
  {
    match step
    case Reserve(key, t, startLogs) =>
      if Reserves(s, step) then s.tasks[t := Task(key, startLogs, false, false, Reserved)] else s.tasks
    case SaveStart(t, _) => s.tasks[t := NextTask(s, t, step)]
    case Return(t, _) => s.tasks[t := NextTask(s, t, step)]
    case Check(t) => s.tasks[t := NextTask(s, t, step)]
    case SaveResult(t) => s.tasks[t := NextTask(s, t, step)]
    case Remove(t) => s.tasks[t := NextTask(s, t, step)]
    case Leave(t) => s.tasks[t := NextTask(s, t, step)]
    case CancelContext(t) => s.tasks[t := NextTask(s, t, step)]
    case CancelTeam => Mark(s.tasks, Unmarked(s))
    case BeginShutdown => MarkAll(s)
    case _ => s.tasks
  }

  function NextRecords(s: State, step: Step): map<Key, Build>
    requires Enabled(s, step)
  {
    match step
    case SaveStart(t, ok) =>
      if ok then s.records[s.tasks[t].key := Build(Building, s.tasks[t].startLogs)] else s.records
    case SaveResult(t) => s.records[s.tasks[t].key := Build(s.tasks[t].pc.status, s.tasks[t].pc.logs)]
    case DeleteTemplate(templateId) => map k | k in s.records && k.templateId != templateId :: s.records[k]
    case _ => s.records
  }

  function NextWaiting(s: State, step: Step): nat {
    if Reserves(s, step) then s.waiting + 1
    else if step.Leave? && s.waiting > 0 then s.waiting - 1
    else s.waiting
  }

  function Apply(s: State, step: Step): State
    requires Enabled(s, step)
  {
    s.(active := NextActive(s, step),
       tasks := NextTasks(s, step),
       stopping := s.stopping || step.BeginShutdown?,
       waiting := NextWaiting(s, step),
       drained := s.drained || step.ShutdownReturns?,
       records := NextRecords(s, step),
       counted := if step.CancelTeam? then s.counted + Unmarked(s) else s.counted,
       reported := if step.CancelTeam? then s.reported + |Unmarked(s)| else s.reported,
       finishes := if step.Return? then s.finishes[step.t := Finish(step.result, s.tasks[step.t].contextDone)]
                   else s.finishes)
  }

  predicate Init(s: State) {
    && s.active == map[] && s.tasks == map[] && !s.stopping && s.waiting == 0 && !s.drained
    && s.counted == {} && s.reported == 0 && s.finishes == map[]
    && (forall k :: k in s.records ==> s.records[k].status != Building)
  }

  ghost predicate Run(s: State, steps: seq<Step>, end: State)
    decreases |steps|
  {
    if steps == [] then end == s else Enabled(s, steps[0]) && Run(Apply(s, steps[0]), steps[1..], end)
  }

  // ---------------------------------------------------------------- the table and the wait group

  predicate InTable(pc: TaskPc) {
    !pc.Leaving? && !pc.Finished?
  }

  ghost predicate TableInv(s: State) {
    && |s.active| <= s.maxConcurrent
    && (forall k :: k in s.active ==> s.active[k] in s.tasks && s.tasks[s.active[k]].key == k
                                       && InTable(s.tasks[s.active[k]].pc))
    && (forall t :: t in s.tasks && InTable(s.tasks[t].pc) ==> IsCurrent(s, t))
  }

  ghost function LeavingTasks(s: State): set<TaskId> {
    set t | t in s.tasks && s.tasks[t].pc.Leaving?
  }

  ghost predicate CountInv(s: State) {
    && s.waiting == |s.active| + |LeavingTasks(s)|
    && (s.drained ==> s.stopping && s.active == map[] && LeavingTasks(s) == {})
  }

  ghost predicate CancelInv(s: State) {
    && s.reported == |s.counted|
    && (forall t :: t in s.counted ==> t in s.tasks && s.tasks[t].cancelled)
  }

  // ---------------------------------------------------------------- the build records

  /** The result of a task still in the table has not been saved. */
  predicate Unsaved(pc: TaskPc) {
    pc.Running? || pc.Returned? || pc.Saving?
  }

  ghost predicate TaskRecordFits(s: State, task: Task) {
    && (task.pc.Returned? || task.pc.Saving? ==> task.pc.status != Building && task.startLogs <= task.pc.logs)
    && (Unsaved(task.pc) && task.key in s.records ==> s.records[task.key] == Build(Building, task.startLogs))
    && (task.pc.Saved? && task.key in s.records ==>
          s.records[task.key].status != Building && task.startLogs <= s.records[task.key].logs)
  }

  ghost predicate RecordInv(s: State) {
    && (forall k :: k in s.records && s.records[k].status == Building ==>
          k in s.active && s.active[k] in s.tasks && Unsaved(s.tasks[s.active[k]].pc))
    && (forall t :: t in s.tasks ==> TaskRecordFits(s, s.tasks[t]))
  }

  /** What a task that starts with these logs and finishes like this is to leave in its record: it has failed if the builder
      gave an error or its context was done, and else has the status that the builder reports, with nothing left to build;
      the builder's logs follow the start logs, or of a failure that has none the message. */
  predicate Records(start: Log, finish: Finish, status: Status, logs: Log) {
    var result := finish.result;
    var failed := result.Broken? || finish.interrupted;
    && (failed ==> status == Failed)
    && (!failed && (result.status == Blank || result.status == Building || result.status == Ready) ==> status == Ready)
    && (!failed && result.status != Blank && result.status != Building ==> status == result.status)
    && logs == start + if failed && result.logs == [] then [FailureMessage(result)] else result.logs
  }

  function FailureMessage(result: BuildResult): string {
    if result.Broken? && result.error.OtherError? then result.error.message
    else "v2 template build cancelled by e2b-local"
  }

  ghost predicate FinishFits(s: State, t: TaskId)
    requires t in s.tasks
  {
    var task := s.tasks[t];
    && (task.pc.Returned? || task.pc.Saving? || task.pc.Saved? ==> t in s.finishes)
    && (task.pc.Returned? || task.pc.Saving? ==> Records(task.startLogs, s.finishes[t], task.pc.status, task.pc.logs))
    && (task.pc.Saved? && task.key in s.records ==>
          Records(task.startLogs, s.finishes[t], s.records[task.key].status, s.records[task.key].logs))
  }

  ghost predicate FinishInv(s: State) {
    forall t :: t in s.tasks ==> FinishFits(s, t)
  }

  ghost predicate Inv(s: State) {
    TableInv(s) && CountInv(s) && CancelInv(s) && RecordInv(s) && FinishInv(s)
  }

  lemma MapSizes<K, V>(m: map<K, V>, k: K, v: V)
    ensures k !in m ==> |m[k := v]| == |m| + 1
    ensures k in m ==> |m - {k}| == |m| - 1
  {
    if k !in m {
      assert m[k := v].Keys == m.Keys + {k};
    } else {
      assert m.Keys == (m - {k}).Keys + {k};
    }
  }

  /** A task keeps its key and start logs, and leaves the table part of its life only by being removed. */
  lemma TaskMoves(s: State, step: Step, t: TaskId)
    requires Enabled(s, step) && t in s.tasks
    ensures var s' := Apply(s, step);
            && t in s'.tasks && s'.tasks[t].key == s.tasks[t].key && s'.tasks[t].startLogs == s.tasks[t].startLogs
            && (InTable(s'.tasks[t].pc) <==> InTable(s.tasks[t].pc) && step != Remove(t))
            && (s'.tasks[t].pc.Leaving? <==> (s.tasks[t].pc.Leaving? && step != Leave(t)) || step == Remove(t))
  {
  }

  lemma NewTasks(s: State, step: Step, t: TaskId)
    requires Enabled(s, step) && t in Apply(s, step).tasks && t !in s.tasks
    ensures Reserves(s, step) && step.t == t
    ensures Apply(s, step).tasks[t] == Task(step.key, step.startLogs, false, false, Reserved)
  {
  }

  lemma ActiveSize(s: State, step: Step)
    requires TableInv(s) && Enabled(s, step)
    ensures |NextActive(s, step)| ==
              |s.active| + (if Reserves(s, step) then 1 else if step.Remove? then -1 else 0)
    ensures |NextActive(s, step)| <= s.maxConcurrent
  {
    if Reserves(s, step) {
      MapSizes(s.active, step.key, step.t);
    } else if step.Remove? {
      MapSizes(s.active, s.tasks[step.t].key, step.t);
    }
  }

  lemma TableStep(s: State, step: Step)
    requires TableInv(s) && Enabled(s, step)
    ensures TableInv(Apply(s, step))
  {
    var s' := Apply(s, step);
    ActiveSize(s, step);
    forall t | t in s'.tasks && InTable(s'.tasks[t].pc) ensures IsCurrent(s', t) {
      if t in s.tasks {
        TaskMoves(s, step, t);
        assert IsCurrent(s, t);
      } else {
        NewTasks(s, step, t);
      }
    }
    forall k | k in s'.active
      ensures s'.active[k] in s'.tasks && s'.tasks[s'.active[k]].key == k && InTable(s'.tasks[s'.active[k]].pc)
    {
      if k in s.active {
        TaskMoves(s, step, s.active[k]);
      }
    }
  }

  lemma LeavingStep(s: State, step: Step)
    requires Enabled(s, step)
    ensures LeavingTasks(Apply(s, step)) ==
              if step.Remove? then LeavingTasks(s) + {step.t}
              else if step.Leave? then LeavingTasks(s) - {step.t}
              else LeavingTasks(s)
  {
    var s' := Apply(s, step);
    forall t | t in s'.tasks
      ensures s'.tasks[t].pc.Leaving? <==> (t in LeavingTasks(s) && step != Leave(t)) || step == Remove(t)
    {
      if t in s.tasks {
        TaskMoves(s, step, t);
      } else {
        NewTasks(s, step, t);
      }
    }
    forall t | t in LeavingTasks(s) ensures t in s'.tasks {
      TaskMoves(s, step, t);
    }
  }

  lemma CountStep(s: State, step: Step)
    requires TableInv(s) && CountInv(s) && Enabled(s, step)
    ensures CountInv(Apply(s, step))
  {
    ActiveSize(s, step);
    LeavingStep(s, step);
    if step.Leave? {
      assert step.t in LeavingTasks(s);
    }
    if Apply(s, step).drained {
      assert |LeavingTasks(s)| == 0 && |s.active| == 0;
      NothingLeftStays(s, step);
    }
  }

  lemma NothingLeftStays(s: State, step: Step)
    requires TableInv(s) && Enabled(s, step) && s.stopping && s.active == map[]
    ensures NextActive(s, step) == map[] && !step.Remove? && !Reserves(s, step)
  {
    assert step.Remove? ==> IsCurrent(s, step.t);
  }

  lemma CancelStep(s: State, step: Step)
    requires CancelInv(s) && Enabled(s, step)
    ensures CancelInv(Apply(s, step))
  {
    if step.CancelTeam? {
      assert s.counted !! Unmarked(s);
    }
  }

  /** Only the two saves and a template's deletion touch a build record. */
  lemma RecordMoves(s: State, step: Step, k: Key)
    requires Enabled(s, step) && k in Apply(s, step).records
    ensures var s' := Apply(s, step);
            || (k in s.records && s'.records[k] == s.records[k])
            || (step.SaveStart? && step.ok && s.tasks[step.t].key == k
                && s'.records[k] == Build(Building, s.tasks[step.t].startLogs))
            || (step.SaveResult? && s.tasks[step.t].key == k
                && s'.records[k] == Build(s.tasks[step.t].pc.status, s.tasks[step.t].pc.logs))
  {
  }

  lemma UnsavedMoves(s: State, step: Step, t: TaskId)
    requires Enabled(s, step) && t in s.tasks && (InTable(s.tasks[t].pc) ==> IsCurrent(s, t))
    ensures var s' := Apply(s, step);
            && t in s'.tasks
            && (Unsaved(s'.tasks[t].pc) <==> (Unsaved(s.tasks[t].pc) && step != SaveResult(t)) || step == SaveStart(t, true))
  {
  }

  lemma OwnRecordFits(s: State, step: Step, t: TaskId)
    requires Enabled(s, step) && t in s.tasks && TaskRecordFits(s, s.tasks[t])
    requires InTable(s.tasks[t].pc) ==> IsCurrent(s, t)
    requires step.SaveStart? || step.SaveResult? ==> IsCurrent(s, step.t)
    ensures t in Apply(s, step).tasks && TaskRecordFits(Apply(s, step), Apply(s, step).tasks[t])
  {
    var s' := Apply(s, step);
    TaskMoves(s, step, t);
    UnsavedMoves(s, step, t);
    SavingFits(s, step, t);
    if s.tasks[t].key in s'.records {
      RecordMoves(s, step, s.tasks[t].key);
    }
  }

  lemma SavingFits(s: State, step: Step, t: TaskId)
    requires Enabled(s, step) && t in s.tasks && TaskRecordFits(s, s.tasks[t])
    ensures var s' := Apply(s, step);
            t in s'.tasks
            && (s'.tasks[t].pc.Returned? || s'.tasks[t].pc.Saving? ==>
                  s'.tasks[t].pc.status != Building && s'.tasks[t].startLogs <= s'.tasks[t].pc.logs)
  {
  }

  lemma BuildingFits(s: State, step: Step, k: Key)
    requires TableInv(s) && RecordInv(s) && Enabled(s, step)
    requires k in Apply(s, step).records && Apply(s, step).records[k].status == Building
    ensures var s' := Apply(s, step); k in s'.active && s'.active[k] in s'.tasks && Unsaved(s'.tasks[s'.active[k]].pc)
  {
    RecordMoves(s, step, k);
    assert step.SaveResult? ==> TaskRecordFits(s, s.tasks[step.t]);
    if step.SaveStart? && s.tasks[step.t].key == k {
      assert IsCurrent(s, step.t);
      UnsavedMoves(s, step, step.t);
    } else {
      UnsavedMoves(s, step, s.active[k]);
    }
  }

  lemma RecordStep(s: State, step: Step)
    requires TableInv(s) && RecordInv(s) && Enabled(s, step)
    ensures RecordInv(Apply(s, step))
  {
    var s' := Apply(s, step);
    forall t | t in s'.tasks ensures TaskRecordFits(s', s'.tasks[t]) {
      if t in s.tasks {
        assert TaskRecordFits(s, s.tasks[t]);
        OwnRecordFits(s, step, t);
      } else {
        NewTasks(s, step, t);
      }
    }
    forall k | k in s'.records && s'.records[k].status == Building
      ensures k in s'.active && s'.active[k] in s'.tasks && Unsaved(s'.tasks[s'.active[k]].pc)
    {
      BuildingFits(s, step, k);
    }
  }

  lemma JudgeRecords(task: Task, result: BuildResult)
    ensures Judge(task, result).Returned?
    ensures Records(task.startLogs, Finish(result, task.contextDone), Judge(task, result).status, Judge(task, result).logs)
  {
  }

  /** A record that a task has saved stays its own while the task is in the table. */
  lemma SavedStays(s: State, step: Step, t: TaskId)
    requires TableInv(s) && Enabled(s, step) && t in s.tasks && s.tasks[t].pc.Saved?
    requires s.tasks[t].key in Apply(s, step).records
    ensures s.tasks[t].key in s.records && Apply(s, step).records[s.tasks[t].key] == s.records[s.tasks[t].key]
  {
    RecordMoves(s, step, s.tasks[t].key);
    assert IsCurrent(s, t);
    assert step.SaveStart? || step.SaveResult? ==> IsCurrent(s, step.t);
  }

  lemma SubjectFinishes(s: State, step: Step, t: TaskId)
    requires Enabled(s, step) && t in s.tasks && FinishFits(s, t) && s.tasks[t].pc != Apply(s, step).tasks[t].pc
    requires t in Apply(s, step).tasks
    ensures FinishFits(Apply(s, step), t)
  {
    if step.Return? {
      JudgeRecords(s.tasks[t], step.result);
    }
  }

  lemma OthersFinish(s: State, step: Step, t: TaskId)
    requires TableInv(s) && Enabled(s, step) && t in s.tasks && FinishFits(s, t)
    requires t in Apply(s, step).tasks && s.tasks[t].pc == Apply(s, step).tasks[t].pc
    ensures FinishFits(Apply(s, step), t)
  {
    TaskMoves(s, step, t);
    if s.tasks[t].pc.Saved? && s.tasks[t].key in Apply(s, step).records {
      SavedStays(s, step, t);
    }
  }

  lemma FinishStep(s: State, step: Step)
    requires TableInv(s) && FinishInv(s) && Enabled(s, step)
    ensures FinishInv(Apply(s, step))
  {
    forall t | t in Apply(s, step).tasks ensures FinishFits(Apply(s, step), t) {
      if t !in s.tasks {
        NewTasks(s, step, t);
      } else if s.tasks[t].pc == Apply(s, step).tasks[t].pc {
        OthersFinish(s, step, t);
      } else {
        SubjectFinishes(s, step, t);
      }
    }
  }

  // ---------------------------------------------------------------- who cancels, and what deletion does

  /** Only a cancellation or shutdown marks a task; only that and the task's end end its context. */
  ghost predicate CauseFits(s: State, t: TaskId)
    requires t in s.tasks
  {
    && (s.tasks[t].cancelled ==> t in s.counted || s.stopping)
    && (s.tasks[t].contextDone ==> t in s.counted || s.stopping || s.tasks[t].pc.Finished?)
  }

  ghost predicate CauseInv(s: State) {
    forall t :: t in s.tasks ==> CauseFits(s, t)
  }

  lemma CauseStep(s: State, step: Step)
    requires CauseInv(s) && Enabled(s, step)
    ensures CauseInv(Apply(s, step))
  {
    forall t | t in Apply(s, step).tasks ensures CauseFits(Apply(s, step), t) {
      if t in s.tasks {
        assert CauseFits(s, t);
        CauseKept(s, step, t);
      } else {
        NewTasks(s, step, t);
      }
    }
  }

  lemma CauseKept(s: State, step: Step, t: TaskId)
    requires Enabled(s, step) && t in s.tasks && CauseFits(s, t)
    ensures t in Apply(s, step).tasks && CauseFits(Apply(s, step), t)
  {
  }

  // ---------------------------------------------------------------- over whole runs

  lemma InvStep(s: State, step: Step)
    requires Inv(s) && Enabled(s, step)
    ensures Inv(Apply(s, step))
  {
    TableStep(s, step);
    CountStep(s, step);
    CancelStep(s, step);
    RecordStep(s, step);
    FinishStep(s, step);
  }

  lemma InitInv(s: State)
    requires Init(s)
    ensures Inv(s)
  {
    assert LeavingTasks(s) == {};
  }

  lemma {:induction false} InvOnRuns(s: State, steps: seq<Step>, end: State)
    requires Inv(s) && Run(s, steps, end)
    ensures Inv(end)
    decreases |steps|
  {
    if steps != [] {
      InvStep(s, steps[0]);
      InvOnRuns(Apply(s, steps[0]), steps[1..], end);
    }
  }

  ghost predicate Reachable(s: State) {
    exists start: State, steps: seq<Step> :: Init(start) && Run(start, steps, s)
  }

  lemma ReachableInv(s: State)
    requires Reachable(s)
    ensures Inv(s)
  {
    var start, steps :| Init(start) && Run(start, steps, s);
    InitInv(start);
    InvOnRuns(start, steps, s);
  }

  ghost function TasksInTable(s: State): set<TaskId> {
    set t | t in s.tasks && InTable(s.tasks[t].pc)
  }

  /** Never more tasks than the limit, never two for one build, and each of them is current. */
  lemma TableIsBounded(s: State)
    requires Reachable(s)
    ensures |TasksInTable(s)| <= s.maxConcurrent
    ensures forall t, u :: t in TasksInTable(s) && u in TasksInTable(s) && s.tasks[t].key == s.tasks[u].key ==> t == u
    ensures forall t :: t in TasksInTable(s) ==> IsCurrent(s, t)
    ensures TasksInTable(s) == s.active.Values
  {
    ReachableInv(s);
    assert TasksInTable(s) == s.active.Values;
    ValuesSize(s.active);
  }

  lemma {:induction false} ValuesSize<K, V>(m: map<K, V>)
    ensures |m.Values| <= |m|
    decreases |m|
  {
    if m.Keys != {} {
      var k :| k in m;
      var rest := m - {k};
      assert m.Keys == rest.Keys + {k};
      ValuesSize(rest);
      assert m.Values == rest.Values + {m[k]};
    }
  }

  ghost function UnfinishedTasks(s: State): set<TaskId> {
    set t | t in s.tasks && !s.tasks[t].pc.Finished?
  }

  /** The wait group counts exactly the tasks that were reserved and have not finished. */
  lemma WaitGroupCountsTasks(s: State)
    requires Reachable(s)
    ensures s.waiting == |UnfinishedTasks(s)|
  {
    ReachableInv(s);
    TableIsBounded(s);
    InjectiveValuesSize(s.active);
    UnfinishedAre(s);
  }

  lemma UnfinishedAre(s: State)
    ensures UnfinishedTasks(s) == TasksInTable(s) + LeavingTasks(s)
    ensures |UnfinishedTasks(s)| == |TasksInTable(s)| + |LeavingTasks(s)|
  {
    assert UnfinishedTasks(s) == TasksInTable(s) + LeavingTasks(s);
    assert TasksInTable(s) !! LeavingTasks(s);
  }

  lemma {:induction false} InjectiveValuesSize<K, V>(m: map<K, V>)
    requires forall j, k :: j in m && k in m && m[j] == m[k] ==> j == k
    ensures |m.Values| == |m|
    decreases |m|
  {
    if m.Keys != {} {
      var k :| k in m;
      var rest := m - {k};
      assert m.Keys == rest.Keys + {k};
      InjectiveValuesSize(rest);
      assert m.Values == rest.Values + {m[k]};
    }
  }

  /** cancelTeamBuilds reports a task at most once: the counts add up to the tasks it has marked. */
  lemma EachTaskIsReportedOnce(s: State)
    requires Reachable(s)
    ensures s.reported == |s.counted|
    ensures forall t :: t in s.counted ==> t in s.tasks && s.tasks[t].cancelled
    ensures s.counted !! Unmarked(s)
  {
    ReachableInv(s);
  }

  /** No build is stuck: one that reads "building" has its task at work in the table, and as a task leaves, the record
      has a final status; if the build ran, its logs follow the start logs. */
  lemma NoBuildIsStuck(s: State)
    requires Reachable(s)
    ensures forall k :: k in s.records && s.records[k].status == Building ==>
              && k in s.active && s.active[k] in s.tasks
              && s.tasks[s.active[k]].key == k && Unsaved(s.tasks[s.active[k]].pc)
    ensures forall t :: t in s.tasks && Enabled(s, Remove(t)) && s.tasks[t].key in s.records ==>
              var build := s.records[s.tasks[t].key];
              && build.status != Building
              && (s.tasks[t].pc.Saved? ==> s.tasks[t].startLogs <= build.logs)
  {
    ReachableInv(s);
    forall t | t in s.tasks && Enabled(s, Remove(t)) && s.tasks[t].key in s.records
      ensures s.records[s.tasks[t].key].status != Building
      ensures s.tasks[t].pc.Saved? ==> s.tasks[t].startLogs <= s.records[s.tasks[t].key].logs
    {
      assert IsCurrent(s, t);
      assert TaskRecordFits(s, s.tasks[t]);
    }
  }

  lemma {:induction false} CauseOnRuns(s: State, steps: seq<Step>, end: State)
    requires CauseInv(s) && Run(s, steps, end)
    ensures CauseInv(end)
    decreases |steps|
  {
    if steps != [] {
      CauseStep(s, steps[0]);
      CauseOnRuns(Apply(s, steps[0]), steps[1..], end);
    }
  }

  /** No build is interrupted for nothing: before shutdown, the context of a task at work ends only if cancelTeamBuilds has
      reported it, and a builder is taken for interrupted only then. */
  lemma NoneIsInterruptedForNothing(s: State, t: TaskId)
    requires Reachable(s) && !s.stopping && t in s.tasks && t !in s.counted
    ensures !s.tasks[t].cancelled
    ensures s.tasks[t].contextDone ==> s.tasks[t].pc.Finished?
  {
    var start, steps :| Init(start) && Run(start, steps, s);
    CauseOnRuns(start, steps, s);
    assert CauseFits(s, t);
  }

  /** What a step does to the record of a build: a task that saves its start or its result writes its own; the deletion of the
      template removes it; and nothing else touches it. */
  lemma RecordsChangeBy(s: State, step: Step, k: Key)
    requires Enabled(s, step)
    ensures var s' := Apply(s, step);
            if step.SaveStart? && step.ok && s.tasks[step.t].key == k
            then k in s'.records && s'.records[k] == Build(Building, s.tasks[step.t].startLogs)
            else if step.SaveResult? && s.tasks[step.t].key == k
            then k in s'.records && s'.records[k] == Build(s.tasks[step.t].pc.status, s.tasks[step.t].pc.logs)
            else if step == DeleteTemplate(k.templateId) then k !in s'.records
            else (k in s'.records <==> k in s.records) && (k in s.records ==> s'.records[k] == s.records[k])
  {
  }

  /** What a build leaves: while its task is in the table, its record, if the template has not been deleted, is what the way in
      which the builder finished calls for. It reads failed exactly if the builder gave an error, says so itself, or
      its context was done. */
  lemma SavedIsTheResult(s: State, t: TaskId)
    requires Reachable(s) && t in s.tasks && s.tasks[t].pc.Saved? && s.tasks[t].key in s.records
    ensures t in s.finishes
    ensures var build, finish := s.records[s.tasks[t].key], s.finishes[t];
            && Records(s.tasks[t].startLogs, finish, build.status, build.logs)
            && (build.status == Failed <==>
                  finish.interrupted || finish.result.Broken? || finish.result.status == Failed)
  {
    ReachableInv(s);
    assert FinishFits(s, t);
  }

  /** How far a task has come. */
  function Stage(pc: TaskPc): nat {
    match pc
    case Reserved => 0
    case Running => 1
    case Returned(_, _) => 2
    case Saving(_, _) => 3
    case Saved => 4
    case Dropped => 4
    case Leaving => 5
    case Finished => 6
  }

  /** The step that a task takes next. */
  function Onward(t: TaskId, pc: TaskPc, ok: bool, result: BuildResult): Step {
    match pc
    case Reserved => SaveStart(t, ok)
    case Running => Return(t, result)
    case Returned(_, _) => Check(t)
    case Saving(_, _) => SaveResult(t)
    case Leaving => Leave(t)
    case _ => Remove(t)
  }

  /** A task always has a next step, which brings it further, and leaves the stages of the others alone. */
  lemma TasksGoOn(s: State, t: TaskId, ok: bool, result: BuildResult)
    requires t in s.tasks && !s.tasks[t].pc.Finished?
    ensures var step := Onward(t, s.tasks[t].pc, ok, result);
            && Enabled(s, step) && t in Apply(s, step).tasks
            && Stage(Apply(s, step).tasks[t].pc) > Stage(s.tasks[t].pc)
            && forall u :: u in s.tasks && u != t ==> u in Apply(s, step).tasks && Apply(s, step).tasks[u] == s.tasks[u]
  {
  }

  /** A builder's result is always saved: when its task looks, it is still current. */
  lemma NoResultIsDropped(s: State, t: TaskId)
    requires Reachable(s) && Enabled(s, Check(t))
    ensures var task := Apply(s, Check(t)).tasks[t];
            && task.pc == Saving(s.tasks[t].pc.status, s.tasks[t].pc.logs)
            && task.pc.status != Building && task.startLogs <= task.pc.logs
  {
    ReachableInv(s);
    assert IsCurrent(s, t);
    assert TaskRecordFits(s, s.tasks[t]);
  }

  lemma {:induction false} DrainedStays(s: State, steps: seq<Step>, end: State)
    requires Run(s, steps, end) && s.drained
    ensures end.drained
    decreases |steps|
  {
    if steps != [] {
      DrainedStays(Apply(s, steps[0]), steps[1..], end);
    }
  }

  /** Once shutdown has returned nil, whatever follows, every task has finished and every reserve is refused. */
  lemma ShutdownIsFinal(s: State, steps: seq<Step>, end: State)
    requires Reachable(s) && Enabled(s, ShutdownReturns) && Run(Apply(s, ShutdownReturns), steps, end)
    ensures forall t :: t in end.tasks ==> end.tasks[t].pc.Finished?
    ensures forall key :: ReserveRefusal(end, key) == {Stopped}
    ensures forall k :: k in end.records ==> end.records[k].status != Building
  {
    ReachableInv(s);
    InvStep(s, ShutdownReturns);
    InvOnRuns(Apply(s, ShutdownReturns), steps, end);
    DrainedStays(Apply(s, ShutdownReturns), steps, end);
    forall t | t in end.tasks ensures end.tasks[t].pc.Finished? {
      assert InTable(end.tasks[t].pc) ==> IsCurrent(end, t);
      assert t in LeavingTasks(end) <==> end.tasks[t].pc.Leaving?;
    }
  }
}
