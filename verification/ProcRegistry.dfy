/** The task table of internal/vm/task.go: a map of task IDs to maps of exec IDs
    to process records, and the three lock-protected operations on it. */
module ProcRegistry {
  import opened Outcomes

  type Table<V> = map<string, map<string, V>>

  predicate Has<V>(tasks: Table<V>, taskID: string, execID: string) {
    taskID in tasks && execID in tasks[taskID]
  }

  /** The registered (task, exec) pairs. */
  function Pairs<V>(tasks: Table<V>): set<(string, string)> {
    set t, e | t in tasks && e in tasks[t] :: (t, e)
  }

  /** No task is left with an empty exec map. */
  ghost predicate Tidy<V>(tasks: Table<V>) {
    forall t :: t in tasks ==> tasks[t] != map[]
  }

  /** newProc: the table with `proc` added under its IDs. */
  function NewProc<V>(tasks: Table<V>, isShutdown: bool, taskID: string, execID: string, proc: V): Result<Table<V>> {
    if isShutdown then Err("cannot create new exec after shutdown")
    else if taskID !in tasks && execID != "" then Err("cannot add exec to non-existent task")
    else
      var execs := if taskID in tasks then tasks[taskID] else map[];
      if execID in execs then Err("exec already exists")
      else Ok(tasks[taskID := execs[execID := proc]])
  }

  /** deleteProc: the table without the entry, and the entry; the last exec takes its task along. */
  function DeleteProc<V>(tasks: Table<V>, taskID: string, execID: string): Result<(Table<V>, V)> {
    if taskID !in tasks then Err("cannot delete exec from non-existent task")
    else if execID !in tasks[taskID] then Err("cannot delete non-existent exec")
    else
      var execs := tasks[taskID] - {execID};
      Ok((if |execs| == 0 then tasks - {taskID} else tasks[taskID := execs], tasks[taskID][execID]))
  }

  /** newProc succeeds exactly on a live manager, for a pair that is not registered and whose task is
      (unless it is the task's initial process); it then adds that one entry and keeps the table tidy. */
  lemma NewProcAdds<V>(tasks: Table<V>, isShutdown: bool, taskID: string, execID: string, proc: V)
    requires Tidy(tasks)
    ensures var r := NewProc(tasks, isShutdown, taskID, execID, proc);
            && (r.Ok? <==> !isShutdown && !Has(tasks, taskID, execID) && (execID == "" || taskID in tasks))
            && (r.Ok? ==>
                  && Tidy(r.value)
                  && Pairs(r.value) == Pairs(tasks) + {(taskID, execID)}
                  && r.value[taskID][execID] == proc
                  && (forall t, e :: Has(r.value, t, e) <==> Has(tasks, t, e) || (t, e) == (taskID, execID))
                  && (forall t, e :: Has(tasks, t, e) ==> r.value[t][e] == tasks[t][e]))
  {
  }

  /** deleteProc succeeds exactly on registered pairs; it removes that one entry, returns what was stored
      there and keeps the table tidy. */
  lemma DeleteProcRemoves<V>(tasks: Table<V>, taskID: string, execID: string)
    requires Tidy(tasks)
    ensures var r := DeleteProc(tasks, taskID, execID);
            && (r.Ok? <==> Has(tasks, taskID, execID))
            && (r.Ok? ==>
                  && Tidy(r.value.0)
                  && Pairs(r.value.0) == Pairs(tasks) - {(taskID, execID)}
                  && r.value.1 == tasks[taskID][execID]
                  && (forall t, e :: Has(r.value.0, t, e) <==> Has(tasks, t, e) && (t, e) != (taskID, execID))
                  && (forall t, e :: Has(r.value.0, t, e) ==> r.value.0[t][e] == tasks[t][e]))
  {
    var r := DeleteProc(tasks, taskID, execID);
    if r.Ok? {
      forall t, e ensures Has(r.value.0, t, e) <==> Has(tasks, t, e) && (t, e) != (taskID, execID) {
        assert t == taskID && e != execID && e in tasks[t] ==> e in tasks[taskID] - {execID};
      }
    }
  }

  // The same in terms of the pairs alone.

  lemma InPairs<V>(tasks: Table<V>, taskID: string, execID: string)
    ensures (taskID, execID) in Pairs(tasks) <==> Has(tasks, taskID, execID)
  {
  }

  lemma NewProcPairs<V>(tasks: Table<V>, isShutdown: bool, taskID: string, execID: string, proc: V)
    requires Tidy(tasks)
    ensures var r := NewProc(tasks, isShutdown, taskID, execID, proc);
            r.Ok? ==>
              && Tidy(r.value) && (taskID, execID) !in Pairs(tasks)
              && Pairs(r.value) == Pairs(tasks) + {(taskID, execID)}
  {
    hide Pairs;
    NewProcAdds(tasks, isShutdown, taskID, execID, proc);
    InPairs(tasks, taskID, execID);
  }

  lemma DeleteProcPairs<V>(tasks: Table<V>, taskID: string, execID: string)
    requires Tidy(tasks)
    ensures var r := DeleteProc(tasks, taskID, execID);
            && (r.Ok? <==> Has(tasks, taskID, execID)) && (r.Ok? <==> (taskID, execID) in Pairs(tasks))
            && (r.Ok? ==> r.value.1 == tasks[taskID][execID] && Tidy(r.value.0)
                          && Pairs(r.value.0) == Pairs(tasks) - {(taskID, execID)})
  {
    hide Pairs;
    DeleteProcRemoves(tasks, taskID, execID);
    InPairs(tasks, taskID, execID);
  }

  /** Neither touches other tasks, and an exec needs its task. */
  lemma OtherTasks<V>(tasks: Table<V>, isShutdown: bool, taskID: string, execID: string, proc: V)
    ensures var r := NewProc(tasks, isShutdown, taskID, execID, proc);
            && (r.Ok? ==> forall t :: t != taskID ==> (t in r.value <==> t in tasks))
            && (taskID !in tasks && execID != "" ==> r.Err?)
    ensures var r := DeleteProc(tasks, taskID, execID);
            && (r.Ok? ==> taskID in tasks && forall t :: t != taskID ==> (t in r.value.0 <==> t in tasks))
  {
  }

  /** A create that fails after newProc and rolls back leaves the table as it found it. */
  lemma RollbackRestores<V>(tasks: Table<V>, isShutdown: bool, taskID: string, execID: string, proc: V)
    requires Tidy(tasks)
    requires NewProc(tasks, isShutdown, taskID, execID, proc).Ok?
    ensures DeleteProc(NewProc(tasks, isShutdown, taskID, execID, proc).value, taskID, execID) == Ok((tasks, proc))
  {
    var added := NewProc(tasks, isShutdown, taskID, execID, proc).value;
    var execs := if taskID in tasks then tasks[taskID] else map[];
    assert added[taskID] - {execID} == execs;
    if taskID in tasks {
      assert added[taskID := execs] == tasks;
      assert |execs| != 0;
    } else {
      assert added - {taskID} == tasks;
    }
  }

  /** In a tidy table, "no task" and "no process" are the same thing. */
  lemma TidyEmpty<V>(tasks: Table<V>)
    requires Tidy(tasks)
    ensures |tasks| == 0 <==> Pairs(tasks) == {}
  {
    if |tasks| != 0 {
      var t :| t in tasks;
      assert tasks[t] != map[];
      var e :| e in tasks[t];
      assert (t, e) in Pairs(tasks);
    } else {
      assert tasks == map[];
    }
  }
}
