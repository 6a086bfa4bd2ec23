/** The build manager as a heap object (internal/gateway/template_build_manager.go). A ghost argument names the
    abstract state an operation starts in; the operation proves which abstract state it ends in. */
module TemplateBuildManager {
  import opened TemplateBuilds

  datatype Reservation = Granted(task: TaskId) | Refused(error: ReserveError)

  const DEFAULT_MAX_CONCURRENT: nat := 2

  ghost function KeysOf(tasks: map<TaskId, Task>): map<TaskId, Key> {
    map t | t in tasks :: tasks[t].key
  }

  ghost function CancelledOf(tasks: map<TaskId, Task>): set<TaskId> {
    set t | t in tasks && tasks[t].cancelled
  }

  ghost function DoneOf(tasks: map<TaskId, Task>): set<TaskId> {
    set t | t in tasks && tasks[t].contextDone
  }

  /** The manager's view of the tasks: their keys, which are cancelled, and whose contexts are done. */
  ghost predicate TasksAre(tasks: map<TaskId, Task>, keys: map<TaskId, Key>, cancelled: set<TaskId>, done: set<TaskId>) {
    keys == KeysOf(tasks) && cancelled == CancelledOf(tasks) && done == DoneOf(tasks)
  }

  class TemplateBuildManager {
    var maxConcurrent: nat
    var active: map<Key, TaskId>
    var keys: map<TaskId, Key>
    var cancelled: set<TaskId>
    var contextsDone: set<TaskId>
    var stopping: bool
    var waiting: nat

    /** This object is the manager part of `s`. */
    ghost predicate Is(s: State)
      reads this
    {
      && maxConcurrent == s.maxConcurrent && active == s.active && stopping == s.stopping && waiting == s.waiting
      && TasksAre(s.tasks, keys, cancelled, contextsDone)
      && (stopping ==> contextsDone == keys.Keys)
    }

    constructor (maxConcurrent: int)
      ensures Is(State(if maxConcurrent <= 0 then DEFAULT_MAX_CONCURRENT else maxConcurrent,
                       map[], map[], false, 0, false, map[], {}, 0, map[]))
    {
      this.maxConcurrent := if maxConcurrent <= 0 then DEFAULT_MAX_CONCURRENT else maxConcurrent;
      active, keys, cancelled, contextsDone, stopping, waiting := map[], map[], {}, {}, false, 0;
    }

    /** `t` is the address of the task allocated for the request. */
    method Reserve(key: Key, t: TaskId, ghost s: State, ghost startLogs: Log) returns (r: Reservation)
      requires Is(s) && Enabled(s, TemplateBuilds.Reserve(key, t, startLogs))
      modifies this
      ensures Is(Apply(s, TemplateBuilds.Reserve(key, t, startLogs)))
      ensures r.Granted? <==> Reserves(s, TemplateBuilds.Reserve(key, t, startLogs))
      ensures r.Granted? ==> r.task == t
      ensures r.Refused? ==> r.error in ReserveRefusal(s, key)
    {
      if stopping {
        return Refused(Stopped);
      }
      if key in active {
        return Refused(AlreadyRunning);
      }
      if |active| >= maxConcurrent {
        return Refused(CapacityExhausted);
      }
      OneMore(s.tasks, t, key, startLogs, keys, cancelled, contextsDone);
      keys := keys[t := key];
      active := active[key := t];
      waiting := waiting + 1;
      return Granted(t);
    }

    method CurrentTask(t: TaskId, ghost s: State) returns (current: bool)
      requires Is(s) && t in s.tasks
      ensures current <==> IsCurrent(s, t)
    {
      current := keys[t] in active && active[keys[t]] == t;
    }

    /** complete and release do the same: leave the table, end the context, leave the wait group. */
    method Complete(t: TaskId, ghost s: State)
      requires Is(s) && Enabled(s, Remove(t)) && s.waiting > 0
      modifies this`active, this`contextsDone, this`waiting
      ensures Enabled(Apply(s, Remove(t)), Leave(t))
      ensures Is(Apply(Apply(s, Remove(t)), Leave(t)))
    {
      var key := keys[t];
      if key in active && active[key] == t {
        active := active - {key};
      }
      contextsDone := contextsDone + {t};
      waiting := waiting - 1;
      LeftAlone(s, t);
      DoneAfterLeaving(s.tasks, t, keys, cancelled, old(contextsDone));
    }

    /** Marks the tasks in the table that are not marked yet, and gives them back. */
    method MarkActive() returns (tasks: set<TaskId>)
      modifies this`cancelled
      ensures tasks == active.Values - old(cancelled)
      ensures cancelled == old(cancelled) + tasks
    {
      var todo := active.Values;
      ghost var unmarked := todo - cancelled;
      tasks := {};
      while todo != {}
        invariant todo <= active.Values
        invariant tasks == unmarked - todo
        invariant cancelled == old(cancelled) + tasks
        decreases |todo|
      {
        var task :| task in todo;
        assert task in cancelled <==> task !in unmarked;
        if task !in cancelled {
          cancelled := cancelled + {task};
          tasks := tasks + {task};
        }
        todo := todo - {task};
      }
    }

    /** The first half of cancelTeamBuilds, under the lock: marks exactly the tasks that no call has marked before. */
    method MarkUnmarked(ghost s: State) returns (tasks: set<TaskId>)
      requires Is(s) && ActiveIsKnown(s)
      modifies this`cancelled
      ensures tasks == Unmarked(s)
      ensures Is(s.(tasks := Mark(s.tasks, tasks)))
    {
      UnmarkedAre(s);
      tasks := MarkActive();
      MarkedAre(s.tasks, tasks, keys, old(cancelled), contextsDone);
    }

    /** The second half, without the lock. */
    method EndTasks(tasks: set<TaskId>, ghost s: State)
      requires Is(s) && tasks <= s.tasks.Keys
      modifies this`contextsDone
      ensures Is(s.(tasks := EndContexts(s.tasks, tasks)))
    {
      contextsDone := contextsDone + tasks;
      EndedAre(s.tasks, tasks, keys, cancelled, old(contextsDone));
    }

    method CancelTeamBuilds(ghost s: State) returns (count: nat)
      requires Is(s) && ActiveIsKnown(s)
      modifies this`cancelled, this`contextsDone
      ensures count == |Unmarked(s)|
      ensures Is(TeamCancelled(s))
    {
      var tasks := MarkUnmarked(s);
      EndTasks(tasks, s.(tasks := Mark(s.tasks, tasks)));
      count := |tasks|;
    }

    /** What shutdown does before it waits: ending the root context ends those of all tasks. */
    method BeginShutdown(ghost s: State)
      requires Is(s) && ActiveIsKnown(s)
      modifies this`cancelled, this`contextsDone, this`stopping
      ensures Is(s.(tasks := MarkAll(s), stopping := true))
    {
      MarkedTasks(s, keys, cancelled, contextsDone);
      if !stopping {
        stopping := true;
        contextsDone := contextsDone + keys.Keys;
      }
      EndActive();
    }

    method EndActive()
      modifies this`cancelled, this`contextsDone
      ensures cancelled == old(cancelled) + active.Values
      ensures contextsDone == old(contextsDone) + active.Values
    {
      var todo := active.Values;
      while todo != {}
        invariant todo <= active.Values
        invariant cancelled == old(cancelled) + (active.Values - todo)
        invariant contextsDone == old(contextsDone) + (active.Values - todo)
        decreases |todo|
      {
        var task :| task in todo;
        cancelled := cancelled + {task};
        contextsDone := contextsDone + {task};
        todo := todo - {task};
      }
    }
  }

  /** In a reachable state the wait group can be left: its count does not go below zero. */
  lemma WaitsForLeaving(s: State, t: TaskId)
    requires Reachable(s) && Enabled(s, Remove(t))
    ensures s.waiting > 0 && Apply(s, Remove(t)).waiting > 0
  {
    ReachableInv(s);
    InvStep(s, Remove(t));
    assert t in LeavingTasks(Apply(s, Remove(t)));
  }

  /** What the manager sees of a task's departure. */
  lemma LeftAlone(s: State, t: TaskId)
    requires Enabled(s, Remove(t))
    ensures var s' := Apply(s, Remove(t));
            && Enabled(s', Leave(t))
            && Apply(s', Leave(t)).tasks ==
                 s.tasks[t := s.tasks[t].(pc := Finished, contextDone := true)]
            && Apply(s', Leave(t)).active == if IsCurrent(s, t) then s.active - {s.tasks[t].key} else s.active
  {
  }

  lemma DoneAfterLeaving(tasks: map<TaskId, Task>, t: TaskId, keys: map<TaskId, Key>, cancelled: set<TaskId>,
      done: set<TaskId>)
    requires TasksAre(tasks, keys, cancelled, done) && t in tasks
    ensures TasksAre(tasks[t := tasks[t].(pc := Finished, contextDone := true)], keys, cancelled, done + {t})
  {
  }

  /** The table holds exactly the tasks that are current. */
  ghost predicate ActiveIsKnown(s: State) {
    s.active.Values == CurrentOf(s)
  }

  ghost function CurrentOf(s: State): set<TaskId> {
    set t | t in s.tasks && IsCurrent(s, t)
  }

  lemma UnmarkedAre(s: State)
    requires ActiveIsKnown(s)
    ensures Unmarked(s) == s.active.Values - CancelledOf(s.tasks)
    ensures s.active.Values <= s.tasks.Keys
  {
    assert Unmarked(s) == CurrentOf(s) - CancelledOf(s.tasks);
  }

  lemma ReachableActiveIsKnown(s: State)
    requires Reachable(s)
    ensures ActiveIsKnown(s)
  {
    ReachableInv(s);
    forall t | t in CurrentOf(s) ensures t in s.active.Values {
      assert s.active[s.tasks[t].key] == t;
    }
  }

  ghost function EndContexts(tasks: map<TaskId, Task>, ended: set<TaskId>): map<TaskId, Task> {
    map t | t in tasks :: if t in ended then tasks[t].(contextDone := true) else tasks[t]
  }

  lemma MarkedAre(tasks: map<TaskId, Task>, marked: set<TaskId>, keys: map<TaskId, Key>, cancelled: set<TaskId>,
      done: set<TaskId>)
    requires TasksAre(tasks, keys, cancelled, done) && marked <= tasks.Keys
    ensures TasksAre(Mark(tasks, marked), keys, cancelled + marked, done)
  {
  }

  lemma EndedAre(tasks: map<TaskId, Task>, ended: set<TaskId>, keys: map<TaskId, Key>, cancelled: set<TaskId>,
      done: set<TaskId>)
    requires TasksAre(tasks, keys, cancelled, done) && ended <= tasks.Keys
    ensures TasksAre(EndContexts(tasks, ended), keys, cancelled, done + ended)
  {
  }

  lemma OneMore(tasks: map<TaskId, Task>, t: TaskId, key: Key, startLogs: Log, keys: map<TaskId, Key>,
      cancelled: set<TaskId>, done: set<TaskId>)
    requires TasksAre(tasks, keys, cancelled, done) && t !in tasks
    ensures TasksAre(tasks[t := Task(key, startLogs, false, false, Reserved)], keys[t := key], cancelled, done)
  {
  }

  lemma MarkedTasks(s: State, keys: map<TaskId, Key>, cancelled: set<TaskId>, done: set<TaskId>)
    requires TasksAre(s.tasks, keys, cancelled, done) && ActiveIsKnown(s)
    ensures TasksAre(MarkAll(s), keys, cancelled + s.active.Values, keys.Keys)
    ensures s.active.Values <= keys.Keys
  {
    assert CancelledOf(MarkAll(s)) == CancelledOf(s.tasks) + CurrentOf(s);
  }

  // ---------------------------------------------------------------- operations on all active tasks are runs

  lemma {:induction false} RunAndStep(start: State, steps: seq<Step>, s: State, step: Step)
    requires TemplateBuilds.Run(start, steps, s) && Enabled(s, step)
    ensures TemplateBuilds.Run(start, steps + [step], Apply(s, step))
    decreases |steps|
  {
    if steps == [] {
      assert [step][1..] == [] && [] + [step] == [step];
    } else {
      assert (steps + [step])[1..] == steps[1..] + [step];
      RunAndStep(Apply(start, steps[0]), steps[1..], s, step);
    }
  }

  lemma Then(s: State, step: Step)
    requires Reachable(s) && Enabled(s, step)
    ensures Reachable(Apply(s, step))
  {
    var start, steps :| Init(start) && TemplateBuilds.Run(start, steps, s);
    RunAndStep(start, steps, s, step);
  }

  lemma EndOne(tasks: map<TaskId, Task>, t: TaskId, todo: set<TaskId>)
    requires t in todo && t in tasks
    ensures var ended := tasks[t := tasks[t].(contextDone := true)];
            CancelledOf(ended) == CancelledOf(tasks) && EndContexts(ended, todo - {t}) == EndContexts(tasks, todo)
  {
  }

  lemma CancelContextIs(s: State, t: TaskId)
    requires Enabled(s, CancelContext(t))
    ensures Apply(s, CancelContext(t)) == s.(tasks := s.tasks[t := s.tasks[t].(contextDone := true)])
  {
  }

  /** Contexts of marked tasks can be ended one by one. */
  lemma {:induction false} EndingRuns(s: State, todo: set<TaskId>)
    requires Reachable(s) && todo <= CancelledOf(s.tasks)
    ensures Reachable(s.(tasks := EndContexts(s.tasks, todo)))
    decreases |todo|
  {
    if todo == {} {
      assert EndContexts(s.tasks, todo) == s.tasks;
    } else {
      var t :| t in todo;
      Then(s, CancelContext(t));
      CancelContextIs(s, t);
      EndOne(s.tasks, t, todo);
      EndingRuns(s.(tasks := s.tasks[t := s.tasks[t].(contextDone := true)]), todo - {t});
    }
  }

  /** The state that CancelTeamBuilds leads to, with the ghost record of what it has reported. */
  ghost function TeamCancelled(s: State): State {
    s.(tasks := EndContexts(Mark(s.tasks, Unmarked(s)), Unmarked(s)),
       counted := s.counted + Unmarked(s), reported := s.reported + |Unmarked(s)|)
  }

  /** From a reachable state CancelTeamBuilds can be called, and is a run of the protocol: CancelTeam, and a CancelContext
      for each task that it marks. */
  lemma CancelTeamBuildsRuns(s: State)
    requires Reachable(s)
    ensures ActiveIsKnown(s) && Reachable(TeamCancelled(s))
  {
    ReachableActiveIsKnown(s);
    Then(s, CancelTeam);
    EndingRuns(Apply(s, CancelTeam), Unmarked(s));
  }

  /** From a reachable state BeginShutdown can be called, and is the protocol's step. */
  lemma BeginShutdownRuns(s: State)
    requires Reachable(s)
    ensures ActiveIsKnown(s) && Reachable(s.(tasks := MarkAll(s), stopping := true))
  {
    ReachableActiveIsKnown(s);
    Then(s, BeginShutdown);
  }
}
