/** The task manager of internal/vm/task.go as it is written: an object whose fields are updated under
    one mutex. Each method is one lock-protected section. */
module TaskManagers {
  import opened Outcomes
  import opened ProcRegistry

  /** A proxy stands for itself and for the channel its `start` returns. */
  type ProxyId = nat

  class VmProc {
    const taskID: string
    const execID: string
    var proxy: Option<ProxyId>
    var ioCopyDone: Option<ProxyId>

    constructor (taskID: string, execID: string)
      ensures this.taskID == taskID && this.execID == execID
      ensures proxy == None && ioCopyDone == None
    {
      this.taskID := taskID;
      this.execID := execID;
      proxy := None;
      ioCopyDone := None;
    }
  }

  /** Each record is stored under its own IDs. */
  ghost predicate OwnIds(tasks: Table<VmProc>) {
    forall t, e :: Has(tasks, t, e) ==> tasks[t][e].taskID == t && tasks[t][e].execID == e
  }

  lemma OwnIdsNew(tasks: Table<VmProc>, isShutdown: bool, proc: VmProc)
    requires Tidy(tasks) && OwnIds(tasks)
    requires ProcRegistry.NewProc(tasks, isShutdown, proc.taskID, proc.execID, proc).Ok?
    ensures var tasks' := ProcRegistry.NewProc(tasks, isShutdown, proc.taskID, proc.execID, proc).value;
            Tidy(tasks') && OwnIds(tasks')
  {
  }

  lemma OwnIdsDelete(tasks: Table<VmProc>, taskID: string, execID: string)
    requires Tidy(tasks) && OwnIds(tasks) && ProcRegistry.DeleteProc(tasks, taskID, execID).Ok?
    ensures var tasks' := ProcRegistry.DeleteProc(tasks, taskID, execID).value.0;
            Tidy(tasks') && OwnIds(tasks')
  {
  }

  class TaskManager {
    var tasks: Table<VmProc>
    var isShutdown: bool

    /** The table is tidy, each record is stored under its own IDs, and a manager that
        was shut down is empty. */
    ghost predicate Valid()
      reads this
    {
      && Tidy(tasks)
      && OwnIds(tasks)
      && (isShutdown ==> tasks == map[])
    }

    constructor ()
      ensures Valid() && tasks == map[] && !isShutdown
    {
      tasks := map[];
      isShutdown := false;
    }

    method NewProc(taskID: string, execID: string) returns (r: Result<VmProc>)
      requires Valid()
      modifies this`tasks
      ensures Valid()
      ensures r.Ok? <==> !isShutdown && !old(Has(tasks, taskID, execID)) && (execID == "" || taskID in old(tasks))
      ensures r.Ok? ==> fresh(r.value) && r.value.proxy == None && r.value.ioCopyDone == None
      ensures r.Ok? ==> Ok(tasks) == ProcRegistry.NewProc(old(tasks), isShutdown, taskID, execID, r.value)
      ensures r.Err? ==> tasks == old(tasks)
    {
      hide Tidy, OwnIds;
      if isShutdown {
        return Err("cannot create new exec after shutdown");
      }
      if taskID !in tasks {
        if execID != "" {
          return Err("cannot add exec to non-existent task");
        }
        tasks := tasks[taskID := map[]];
      }
      if execID in tasks[taskID] {
        return Err("exec already exists");
      }
      var proc := new VmProc(taskID, execID);
      tasks := tasks[taskID := tasks[taskID][execID := proc]];
      ghost var execs: map<string, VmProc> := if taskID in old(tasks) then old(tasks)[taskID] else map[];
      assert tasks == old(tasks)[taskID := execs[execID := proc]];
      OwnIdsNew(old(tasks), isShutdown, proc);
      return Ok(proc);
    }

    method DeleteProc(taskID: string, execID: string) returns (r: Result<VmProc>)
      requires Valid()
      modifies this`tasks
      ensures Valid()
      ensures r.Ok? <==> old(Has(tasks, taskID, execID))
      ensures r.Ok? ==> ProcRegistry.DeleteProc(old(tasks), taskID, execID) == Ok((tasks, r.value))
      ensures r.Err? ==> tasks == old(tasks)
    {
      hide Tidy, OwnIds;
      if taskID !in tasks {
        return Err("cannot delete exec from non-existent task");
      }
      if execID !in tasks[taskID] {
        return Err("cannot delete non-existent exec");
      }
      var proc := tasks[taskID][execID];
      tasks := tasks[taskID := tasks[taskID] - {execID}];
      if |tasks[taskID]| == 0 {
        tasks := tasks - {taskID};
        assert tasks == old(tasks) - {taskID};
      }
      OwnIdsDelete(old(tasks), taskID, execID);
      return Ok(proc);
    }

    /** Shuts the manager down exactly when no process is registered. */
    method ShutdownIfEmpty() returns (didShutdown: bool)
      requires Valid()
      modifies this`isShutdown
      ensures Valid()
      ensures didShutdown <==> Pairs(tasks) == {}
      ensures isShutdown == (old(isShutdown) || didShutdown)
    {
      TidyEmpty(tasks);
      if |tasks| == 0 {
        isShutdown := true;
        return true;
      }
      return false;
    }

    method FindProc(taskID: string, execID: string) returns (r: Result<VmProc>)
      ensures r.Ok? <==> Has(tasks, taskID, execID) && tasks[taskID][execID].proxy.Some?
      ensures r.Ok? ==> r.value == tasks[taskID][execID]
    {
      if taskID !in tasks {
        return Err("cannot find exec from non-existent task");
      }
      if execID !in tasks[taskID] {
        return Err("cannot find non-existent exec");
      }
      if tasks[taskID][execID].proxy == None {
        return Err("exec and task are present, but no proxy");
      }
      return Ok(tasks[taskID][execID]);
    }

    /** Only a record that is in the table is given a new proxy; no other record changes. */
    method AttachIO(taskID: string, execID: string, proxy: ProxyId) returns (ok: bool)
      requires Valid()
      modifies if Has(tasks, taskID, execID) then {tasks[taskID][execID]} else {}
      ensures Valid()
      ensures ok <==> Has(tasks, taskID, execID) && old(Has(tasks, taskID, execID) && tasks[taskID][execID].proxy.Some?)
      ensures ok ==> tasks[taskID][execID].proxy == Some(proxy) && tasks[taskID][execID].ioCopyDone == Some(proxy)
      ensures !ok && Has(tasks, taskID, execID) ==> unchanged(tasks[taskID][execID])
    {
      var found := FindProc(taskID, execID);
      if found.Err? {
        return false;
      }
      found.value.proxy := Some(proxy);
      found.value.ioCopyDone := Some(proxy);
      return true;
    }
  }
}
