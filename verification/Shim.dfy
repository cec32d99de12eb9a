/** The bookkeeping of the host shim (runtime/service.go): the FIFO table beside the task manager, and the
    drives lent to block-device tasks, over every sequence of non-overlapping requests. */
module Shim {
  import opened Outcomes
  import opened ProcRegistry
  import StubDrives

  datatype Fifos = Fifos(terminal: bool, stdin: string, stdout: string, stderr: string)

  const TASK_EXEC_ID := ""

  datatype State = State(
    tasks: Table<()>,
    isShutdown: bool,
    fifos: Table<Fifos>,
    drives: StubDrives.State,
    blockDeviceTasks: set<string>
  )

  /** What a request comes back with. */
  datatype Reply =
    | Done
    | Refused          // nothing was registered or deleted
    | FifoClash        // addFIFOs failed after the process was created
    | FifosMissing     // deleteFIFOs failed after the process was deleted
    | DeletedDirty     // deleted, but the drive or the bundle could not be given back

  // ----- the FIFO table -----

  function FifosAdded(fifos: Table<Fifos>, taskID: string, execID: string, config: Fifos): Result<Table<Fifos>> {
    var execs := if taskID in fifos then fifos[taskID] else map[];
    if execID in execs then Err("failed to add FIFO files")
    else Ok(fifos[taskID := execs[execID := config]])
  }

  /** Deleting the FIFOs of a task's initial process drops those of all its execs. */
  function FifosDeleted(fifos: Table<Fifos>, taskID: string, execID: string): Result<Table<Fifos>> {
    if !Has(fifos, taskID, execID) then Err("no corresponding FIFOs to delete")
    else if execID == TASK_EXEC_ID then Ok(fifos - {taskID})
    else Ok(fifos[taskID := fifos[taskID] - {execID}])
  }

  lemma AddFIFOsAdds(fifos: Table<Fifos>, taskID: string, execID: string, config: Fifos)
    ensures var r := FifosAdded(fifos, taskID, execID, config);
            && (r.Ok? <==> (taskID, execID) !in Pairs(fifos))
            && (r.Ok? ==> Pairs(r.value) == Pairs(fifos) + {(taskID, execID)})
            && (r.Ok? ==> r.value[taskID][execID] == config)
            && (r.Ok? ==> forall t, e :: Has(fifos, t, e) ==> Has(r.value, t, e) && r.value[t][e] == fifos[t][e])
  {
  }

  /** The pairs of one task. */
  ghost function OfTask(pairs: set<(string, string)>, taskID: string): set<(string, string)> {
    set p | p in pairs && p.0 == taskID
  }

  lemma DeleteFIFOsDeletes(fifos: Table<Fifos>, taskID: string, execID: string)
    ensures var r := FifosDeleted(fifos, taskID, execID);
            && (r.Ok? <==> (taskID, execID) in Pairs(fifos))
            && (r.Ok? && execID != TASK_EXEC_ID ==> Pairs(r.value) == Pairs(fifos) - {(taskID, execID)})
            && (r.Ok? && execID == TASK_EXEC_ID ==> Pairs(r.value) == Pairs(fifos) - OfTask(Pairs(fifos), taskID))
            && (r.Ok? ==> forall t, e :: Has(r.value, t, e) ==> Has(fifos, t, e) && r.value[t][e] == fifos[t][e])
  {
  }

  // ----- requests -----

  /** How the outside answers a Create: the bundle and address links, the number of root mounts, the calls of
      the reservation, everything between the reservation and CreateTask, and CreateTask after newProc. */
  datatype CreateCalls = CreateCalls(links: bool, oneRootfs: bool, reserve: StubDrives.ReserveCalls, prepared: bool,
      created: bool)

  datatype DeleteCalls = DeleteCalls(agent: bool, release: StubDrives.ReleaseCalls, bundle: bool)

  datatype Request =
    | Create(taskID: string, vmLocal: bool, rootfs: StubDrives.Request, fifos: Fifos, createCalls: CreateCalls)
    | Exec(taskID: string, execID: string, fifos: Fifos, prepared: bool, created: bool)
    | Delete(taskID: string, execID: string, deleteCalls: DeleteCalls)
    | Shutdown

  /** CreateTask or ExecProcess followed by addFIFOs; a create that fails rolls back. */
  function AfterStart(s: State, taskID: string, execID: string, config: Fifos, created: bool): (State, Reply) {
    match NewProc(s.tasks, s.isShutdown, taskID, execID, ())
    case Err(_) => (s, Refused)
    case Ok(tasks) =>
      if !created then
        match DeleteProc(tasks, taskID, execID)
        case Ok((rolledBack, _)) => (s.(tasks := rolledBack), Refused)
        case Err(_) => (s.(tasks := tasks), Refused)
      else
        match FifosAdded(s.fifos, taskID, execID, config)
        case Err(_) => (s.(tasks := tasks), FifoClash)
        case Ok(fifos) => (s.(tasks := tasks, fifos := fifos), Done)
  }

  function AfterCreate(s: State, req: Request): (State, Reply)
    requires req.Create?
  {
    var calls := req.createCalls;
    if !calls.links || !calls.oneRootfs then (s, Refused)
    else
      var (drives, reserved) :=
        if req.vmLocal then (s.drives, Ok(()))
            else StubDrives.AfterReserve(s.drives, req.taskID, req.rootfs, calls.reserve);
      if reserved.Err? then (s.(drives := drives), Refused)
      else
        var s1 := s.(drives := drives, blockDeviceTasks := if req.vmLocal then s.blockDeviceTasks
            else s.blockDeviceTasks + {req.taskID});
        if !calls.prepared then (s1, Refused)
        else AfterStart(s1, req.taskID, TASK_EXEC_ID, req.fifos, calls.created)
  }

  function AfterDelete(s: State, req: Request): (State, Reply)
    requires req.Delete?
  {
    var calls := req.deleteCalls;
    if !calls.agent then (s, Refused)
    else match DeleteProc(s.tasks, req.taskID, req.execID)
      case Err(_) => (s, Refused)
      case Ok((tasks, _)) =>
        var s1 := s.(tasks := tasks);
        match FifosDeleted(s.fifos, req.taskID, req.execID)
        case Err(_) => (s1, FifosMissing)
        case Ok(fifos) =>
          var s2 := s1.(fifos := fifos);
          if req.execID != TASK_EXEC_ID then (s2, Done)
          else
            var (drives, released) :=
              if req.taskID in s.blockDeviceTasks then StubDrives.AfterRelease(s.drives, req.taskID, calls.release)
              else (s.drives, Ok(()));
            (s2.(drives := drives), if released.Ok? && calls.bundle then Done else DeletedDirty)
  }

  function After(s: State, req: Request): (State, Reply) {
    match req
    case Create(_, _, _, _, _) => AfterCreate(s, req)
    case Exec(taskID, execID, config, prepared, created) =>
      if !prepared then (s, Refused) else AfterStart(s, taskID, execID, config, created)
    case Delete(_, _, _) => AfterDelete(s, req)
    case Shutdown => (if |s.tasks| == 0 then s.(isShutdown := true) else s, Done)
  }

  // ----- the shim as it is written -----

  class Service {
    var tasks: Table<()>
    var isShutdown: bool
    var fifos: Table<Fifos>
    var blockDeviceTasks: set<string>
    const handler: StubDrives.StubDriveHandler

    function View(): State
      reads this, handler
    {
      State(tasks, isShutdown, fifos, handler.View(), blockDeviceTasks)
    }

    constructor (handler: StubDrives.StubDriveHandler)
      ensures View() == State(map[], false, map[], handler.View(), {})
      ensures this.handler == handler
    {
      tasks := map[];
      isShutdown := false;
      fifos := map[];
      blockDeviceTasks := {};
      this.handler := handler;
    }

    method AddFIFOs(taskID: string, execID: string, config: Fifos) returns (ok: bool)
      modifies this`fifos
      ensures match FifosAdded(old(fifos), taskID, execID, config)
              case Ok(added) => ok && fifos == added
              case Err(_) => !ok && fifos == old(fifos)
    {
      if taskID !in fifos {
        fifos := fifos[taskID := map[]];
      }
      if execID in fifos[taskID] {
        return false;
      }
      fifos := fifos[taskID := fifos[taskID][execID := config]];
      ghost var execs := if taskID in old(fifos) then old(fifos)[taskID] else map[];
      assert fifos == old(fifos)[taskID := execs[execID := config]];
      return true;
    }

    method DeleteFIFOs(taskID: string, execID: string) returns (ok: bool)
      modifies this`fifos
      ensures match FifosDeleted(old(fifos), taskID, execID)
              case Ok(left) => ok && fifos == left
              case Err(_) => !ok && fifos == old(fifos)
    {
      if taskID !in fifos || execID !in fifos[taskID] {
        return false;
      }
      fifos := fifos[taskID := fifos[taskID] - {execID}];
      if execID == TASK_EXEC_ID {
        fifos := fifos - {taskID};
        assert fifos == old(fifos) - {taskID};
      }
      return true;
    }

    method Start(taskID: string, execID: string, config: Fifos, created: bool) returns (reply: Reply)
      modifies this`tasks, this`fifos
      ensures (View(), reply) == AfterStart(old(View()), taskID, execID, config, created)
    {
      var added := NewProc(tasks, isShutdown, taskID, execID, ());
      if added.Err? {
        return Refused;
      }
      tasks := added.value;
      if !created {
        var rolledBack := DeleteProc(tasks, taskID, execID);
        if rolledBack.Ok? {
          tasks := rolledBack.value.0;
        }
        return Refused;
      }
      var ok := AddFIFOs(taskID, execID, config);
      return if ok then Done else FifoClash;
    }

    method CreateTask(req: Request) returns (reply: Reply)
      requires req.Create?
      modifies this, handler
      ensures (View(), reply) == AfterCreate(old(View()), req)
    {
      var calls := req.createCalls;
      if !calls.links || !calls.oneRootfs {
        return Refused;
      }
      if !req.vmLocal {
        var reserved := handler.Reserve(req.taskID, req.rootfs, calls.reserve);
        if reserved.Err? {
          return Refused;
        }
        blockDeviceTasks := blockDeviceTasks + {req.taskID};
      }
      if !calls.prepared {
        return Refused;
      }
      reply := Start(req.taskID, TASK_EXEC_ID, req.fifos, calls.created);
    }

    method DeleteTask(req: Request) returns (reply: Reply)
      requires req.Delete?
      modifies this, handler
      ensures (View(), reply) == AfterDelete(old(View()), req)
    {
      var calls := req.deleteCalls;
      if !calls.agent {
        return Refused;
      }
      var deleted := DeleteProc(tasks, req.taskID, req.execID);
      if deleted.Err? {
        return Refused;
      }
      tasks := deleted.value.0;
      var ok := DeleteFIFOs(req.taskID, req.execID);
      if !ok {
        return FifosMissing;
      }
      if req.execID != TASK_EXEC_ID {
        return Done;
      }
      var clean := calls.bundle;
      if req.taskID in blockDeviceTasks {
        var released := handler.Release(req.taskID, calls.release);
        clean := clean && released.Ok?;
      }
      return if clean then Done else DeletedDirty;
    }
  }

  // ----- the FIFO table and the task manager -----

  /** The delete gets as far as removing the process. */
  predicate Deletes(s: State, req: Request) {
    req.Delete? && req.deleteCalls.agent && Has(s.tasks, req.taskID, req.execID)
  }

  /** The processes whose FIFOs were dropped because the initial process of their task was deleted before them,
      as the requests so far determine them. */
  ghost function Orphaned(s: State, orphans: set<(string, string)>, req: Request): set<(string, string)> {
    if !Deletes(s, req) then orphans
    else if req.execID != TASK_EXEC_ID || (req.taskID, req.execID) in orphans then orphans - {(req.taskID, req.execID)}
    else orphans + OfTask(Pairs(s.tasks), req.taskID) - {(req.taskID, req.execID)}
  }

  /** The FIFO table has exactly the registered processes that were not orphaned. */
  ghost predicate FifosAgree(s: State, orphans: set<(string, string)>) {
    Tidy(s.tasks) && orphans <= Pairs(s.tasks) && Pairs(s.fifos) == Pairs(s.tasks) - orphans
  }

  lemma StartAgrees(s: State, orphans: set<(string, string)>, taskID: string, execID: string, config: Fifos,
      created: bool)
    requires FifosAgree(s, orphans)
    ensures var (s', reply) := AfterStart(s, taskID, execID, config, created);
            FifosAgree(s', orphans) && reply != FifoClash && (reply.Done? || s' == s)
  {
    hide Pairs, Tidy, NewProc, DeleteProc, FifosAdded;
    NewProcPairs(s.tasks, s.isShutdown, taskID, execID, ());
    var added := NewProc(s.tasks, s.isShutdown, taskID, execID, ());
    if added.Ok? {
      RollbackRestores(s.tasks, s.isShutdown, taskID, execID, ());
      AddFIFOsAdds(s.fifos, taskID, execID, config);
    }
  }

  /** A delete of a registered process comes back with missing FIFOs exactly when it was orphaned. */
  lemma DeleteAgrees(s: State, orphans: set<(string, string)>, req: Request)
    requires FifosAgree(s, orphans) && req.Delete?
    ensures var (s', reply) := AfterDelete(s, req);
            && FifosAgree(s', Orphaned(s, orphans, req))
            && (reply.FifosMissing? <==> Deletes(s, req) && (req.taskID, req.execID) in orphans)
  {
    hide StubDrives.AfterRelease, Pairs, Tidy, DeleteProc, FifosDeleted;
    DeleteProcPairs(s.tasks, req.taskID, req.execID);
    if Deletes(s, req) {
      DeleteFIFOsDeletes(s.fifos, req.taskID, req.execID);
      var tasks := DeleteProc(s.tasks, req.taskID, req.execID).value.0;
      if (req.taskID, req.execID) !in orphans {
        var fifos := FifosDeleted(s.fifos, req.taskID, req.execID).value;
        assert Pairs(fifos) == Pairs(tasks) - Orphaned(s, orphans, req);
      }
    }
  }

  lemma AfterAgrees(s: State, orphans: set<(string, string)>, req: Request)
    requires FifosAgree(s, orphans)
    ensures FifosAgree(After(s, req).0, Orphaned(s, orphans, req)) && After(s, req).1 != FifoClash
  {
    hide StubDrives.AfterReserve, AfterStart, Pairs, Tidy;
    match req
    case Create(_, vmLocal, _, _, calls) =>
      if calls.links && calls.oneRootfs {
        var drives := if vmLocal then s.drives
            else StubDrives.AfterReserve(s.drives, req.taskID, req.rootfs, calls.reserve).0;
        var s1 := s.(drives := drives, blockDeviceTasks := if vmLocal then s.blockDeviceTasks
            else s.blockDeviceTasks + {req.taskID});
        StartAgrees(s1, orphans, req.taskID, TASK_EXEC_ID, req.fifos, calls.created);
      }
    case Exec(taskID, execID, config, _, created) => StartAgrees(s, orphans, taskID, execID, config, created);
    case Delete(_, _, _) => DeleteAgrees(s, orphans, req);
    case Shutdown =>
  }

  ghost function Run(s: State, reqs: seq<Request>): State
    decreases |reqs|
  {
    if reqs == [] then s else Run(After(s, reqs[0]).0, reqs[1..])
  }

  /** The orphans a run leaves. */
  ghost function RunOrphans(s: State, orphans: set<(string, string)>, reqs: seq<Request>): set<(string, string)>
    decreases |reqs|
  {
    if reqs == [] then orphans else RunOrphans(After(s, reqs[0]).0, Orphaned(s, orphans, reqs[0]), reqs[1..])
  }

  /** Over every sequence of requests the FIFO table holds exactly the registered processes that were not orphaned,
      so every pair in it is in the task manager, and the next request never fails to add its FIFOs. */
  lemma {:induction false} FifoTableAgrees(s: State, orphans: set<(string, string)>, reqs: seq<Request>, next: Request)
    requires FifosAgree(s, orphans)
    ensures FifosAgree(Run(s, reqs), RunOrphans(s, orphans, reqs))
    ensures After(Run(s, reqs), next).1 != FifoClash
    decreases |reqs|
  {
    hide FifosAgree, After, Orphaned;
    if reqs == [] {
      AfterAgrees(s, orphans, next);
    } else {
      AfterAgrees(s, orphans, reqs[0]);
      FifoTableAgrees(After(s, reqs[0]).0, Orphaned(s, orphans, reqs[0]), reqs[1..], next);
    }
  }

  /** In particular from the start of a shim, whatever drives it has. */
  lemma FifosNeverClash(drives: StubDrives.State, reqs: seq<Request>, next: Request)
    ensures var s := Run(State(map[], false, map[], drives, {}), reqs);
            Pairs(s.fifos) <= Pairs(s.tasks) && After(s, next).1 != FifoClash
  {
    hide Run, After, RunOrphans, Pairs;
    var s := State(map[], false, map[], drives, {});
    assert FifosAgree(s, {}) by { NothingYet(s); }
    FifoTableAgrees(s, {}, reqs, next);
  }

  lemma NothingYet(s: State)
    requires s.tasks == map[] && s.fifos == map[]
    ensures FifosAgree(s, {})
  {
  }

  /** The requests delete the initial process of a task only when it is the last one. */
  ghost predicate InitialDeletedLast(s: State, reqs: seq<Request>)
    decreases |reqs|
  {
    reqs == [] ||
    (&& (Deletes(s, reqs[0]) && reqs[0].execID == TASK_EXEC_ID ==>
           OfTask(Pairs(s.tasks), reqs[0].taskID) == {(reqs[0].taskID, TASK_EXEC_ID)})
     && InitialDeletedLast(After(s, reqs[0]).0, reqs[1..]))
  }

  /** Then the two tables have the same keys throughout. */
  lemma {:induction false} SameKeysIfInitialLast(s: State, reqs: seq<Request>)
    requires FifosAgree(s, {}) && InitialDeletedLast(s, reqs)
    ensures Pairs(Run(s, reqs).fifos) == Pairs(Run(s, reqs).tasks)
    decreases |reqs|
  {
    if reqs != [] {
      AfterAgrees(s, {}, reqs[0]);
      hide After, Tidy, Pairs, OfTask;
      assert Orphaned(s, {}, reqs[0]) == {};
      SameKeysIfInitialLast(After(s, reqs[0]).0, reqs[1..]);
    }
  }

  /** And only then: the first early delete of an initial process makes the key sets differ. */
  lemma EarlyDeleteOrphans(s: State, req: Request)
    requires FifosAgree(s, {}) && Deletes(s, req) && req.execID == TASK_EXEC_ID
    ensures Pairs(After(s, req).0.fifos) == Pairs(After(s, req).0.tasks)
            <==> OfTask(Pairs(s.tasks), req.taskID) == {(req.taskID, TASK_EXEC_ID)}
  {
    DeleteAgrees(s, {}, req);
    EarlyDeleteKeepsOthers(s, req);
    hide AfterDelete, Pairs, Tidy, Has, Deletes;
    var s' := After(s, req).0;
    var early := OfTask(Pairs(s.tasks), req.taskID);
    assert Orphaned(s, {}, req) == early - {(req.taskID, TASK_EXEC_ID)};
    assert Pairs(s'.fifos) == Pairs(s'.tasks) <==> early - {(req.taskID, TASK_EXEC_ID)} == {};
  }

  lemma EarlyDeleteKeepsOthers(s: State, req: Request)
    requires Deletes(s, req) && req.execID == TASK_EXEC_ID
    ensures Deletes(s, req) && (req.taskID, TASK_EXEC_ID) in OfTask(Pairs(s.tasks), req.taskID)
    ensures Orphaned(s, {}, req) == OfTask(Pairs(s.tasks), req.taskID) - {(req.taskID, TASK_EXEC_ID)}
  {
  }

  // ----- the drives -----

  /** Every container with a drive is remembered as a block-device task, so its deletion gives the drive back. */
  ghost predicate DrivesRemembered(s: State) {
    forall id :: id in s.drives.used ==> id in s.blockDeviceTasks
  }

  lemma ReserveTouches(d: StubDrives.State, id: string, req: StubDrives.Request, calls: StubDrives.ReserveCalls,
      other: string)
    ensures var (d', r) := StubDrives.AfterReserve(d, id, req, calls);
            && (other != id ==>
                (other in d'.used <==> other in d.used) && (other in d.used ==> d'.used[other] == d.used[other]))
            && (id in d.used ==> r.Err?)
            && (r.Err? ==> d'.used == d.used)
  {
  }

  lemma ReleaseTouches(d: StubDrives.State, id: string, calls: StubDrives.ReleaseCalls, other: string)
    ensures var d' := StubDrives.AfterRelease(d, id, calls).0;
            && (other in d'.used ==> other in d.used)
            && (other != id && other in d.used ==> other in d'.used && d'.used[other] == d.used[other])
  {
  }

  /** Starting a process touches neither the drives nor other tasks. */
  lemma StartFrame(s: State, taskID: string, execID: string, config: Fifos, created: bool)
    ensures var s' := AfterStart(s, taskID, execID, config, created).0;
            && s'.drives == s.drives && s'.blockDeviceTasks == s.blockDeviceTasks
            && (forall t :: t != taskID ==> (t in s'.tasks <==> t in s.tasks))
            && (taskID !in s.tasks && execID != TASK_EXEC_ID ==> s' == s)
  {
    hide FifosAdded, NewProc, DeleteProc;
    OtherTasks(s.tasks, s.isShutdown, taskID, execID, ());
    var added := NewProc(s.tasks, s.isShutdown, taskID, execID, ());
    if added.Ok? {
      OtherTasks(added.value, s.isShutdown, taskID, execID, ());
    }
  }

  lemma CreateFrame(s: State, req: Request)
    requires req.Create?
    ensures var s' := AfterCreate(s, req).0;
            var (reserved, r) := StubDrives.AfterReserve(s.drives, req.taskID, req.rootfs, req.createCalls.reserve);
            && (s'.drives == s.drives
                || (s'.drives == reserved && !req.vmLocal && (r.Ok? ==> req.taskID in s'.blockDeviceTasks)))
            && s.blockDeviceTasks <= s'.blockDeviceTasks
            && (forall t :: t != req.taskID ==> (t in s'.tasks <==> t in s.tasks))
            && (!req.vmLocal && r.Err? ==> s'.tasks == s.tasks)
  {
    hide StubDrives.AfterReserve, AfterStart;
    var calls := req.createCalls;
    var drives := if req.vmLocal then s.drives
        else StubDrives.AfterReserve(s.drives, req.taskID, req.rootfs, calls.reserve).0;
    var s1 := s.(drives := drives, blockDeviceTasks := if req.vmLocal then s.blockDeviceTasks
        else s.blockDeviceTasks + {req.taskID});
    StartFrame(s1, req.taskID, TASK_EXEC_ID, req.fifos, calls.created);
  }

  lemma DeleteFrame(s: State, req: Request)
    requires req.Delete?
    ensures var s' := AfterDelete(s, req).0;
            && (s'.drives == s.drives
                || s'.drives == StubDrives.AfterRelease(s.drives, req.taskID, req.deleteCalls.release).0)
            && s'.blockDeviceTasks == s.blockDeviceTasks
            && (forall t :: t in s'.tasks ==> t in s.tasks)
            && (req.taskID !in s.tasks ==> s' == s)
  {
    OtherTasks(s.tasks, s.isShutdown, req.taskID, req.execID, ());
    hide StubDrives.AfterRelease, FifosDeleted, DeleteProc;
  }

  lemma AfterRemembers(s: State, req: Request)
    requires DrivesRemembered(s)
    ensures DrivesRemembered(After(s, req).0)
  {
    hide StubDrives.AfterReserve, StubDrives.AfterRelease, AfterStart, AfterCreate, AfterDelete;
    var s' := After(s, req).0;
    forall id | id in s'.drives.used ensures id in s'.blockDeviceTasks {
      match req
      case Create(_, _, _, _, _) =>
        CreateFrame(s, req);
        ReserveTouches(s.drives, req.taskID, req.rootfs, req.createCalls.reserve, id);
        var (reserved, r) := StubDrives.AfterReserve(s.drives, req.taskID, req.rootfs, req.createCalls.reserve);
        assert id !in s.drives.used ==> r.Ok? && id == req.taskID;
      case Delete(_, _, _) =>
        DeleteFrame(s, req);
        ReleaseTouches(s.drives, req.taskID, req.deleteCalls.release, id);
      case Exec(t, e, config, _, created) => StartFrame(s, t, e, config, created);
      case Shutdown =>
    }
  }

  lemma {:induction false} DrivesAreRemembered(s: State, reqs: seq<Request>)
    requires DrivesRemembered(s)
    ensures DrivesRemembered(Run(s, reqs))
    decreases |reqs|
  {
    hide After, DrivesRemembered;
    if reqs != [] {
      AfterRemembers(s, reqs[0]);
      DrivesAreRemembered(After(s, reqs[0]).0, reqs[1..]);
    }
  }

  /** A create that fails after its reservation leaves a drive in use without a task: the task is unknown. */
  ghost predicate Leaked(s: State, id: string) {
    id in s.drives.used && id !in s.tasks
  }

  /** The requests that can bring the task back without reserving a drive. */
  predicate Revives(req: Request, id: string) {
    (req.Create? && req.taskID == id && req.vmLocal) || (req.Exec? && req.taskID == id && req.execID == TASK_EXEC_ID)
  }

  lemma LeakStep(s: State, req: Request, id: string)
    requires Leaked(s, id) && !Revives(req, id)
    ensures var s' := After(s, req).0; Leaked(s', id) && s'.drives.used[id] == s.drives.used[id]
  {
    hide StubDrives.AfterReserve, StubDrives.AfterRelease, AfterStart, AfterCreate, AfterDelete;
    match req
    case Create(_, _, _, _, _) =>
      CreateFrame(s, req);
      ReserveTouches(s.drives, req.taskID, req.rootfs, req.createCalls.reserve, id);
    case Delete(_, _, _) =>
      DeleteFrame(s, req);
      ReleaseTouches(s.drives, req.taskID, req.deleteCalls.release, id);
    case Exec(t, e, config, _, created) => StartFrame(s, t, e, config, created);
    case Shutdown =>
  }

  /** Such a drive is never given back, and no ordinary create of that task succeeds again, until the task is
      revived by a VM-local create or an exec with an empty ID. */
  lemma {:induction false} LeakedDriveStays(s: State, reqs: seq<Request>, id: string, next: Request)
    requires Leaked(s, id) && forall i :: 0 <= i < |reqs| ==> !Revives(reqs[i], id)
    ensures Leaked(Run(s, reqs), id) && Run(s, reqs).drives.used[id] == s.drives.used[id]
    ensures next.Create? && next.taskID == id && !next.vmLocal ==> After(Run(s, reqs), next).1 == Refused
    decreases |reqs|
  {
    if reqs == [] {
      LeakRefuses(s, id, next);
    } else {
      hide After, Leaked;
      LeakStep(s, reqs[0], id);
      LeakedDriveStays(After(s, reqs[0]).0, reqs[1..], id, next);
    }
  }

  lemma LeakRefuses(s: State, id: string, req: Request)
    requires Leaked(s, id)
    ensures req.Create? && req.taskID == id && !req.vmLocal ==> After(s, req).1 == Refused
  {
    hide StubDrives.AfterReserve;
    if req.Create? {
      ReserveTouches(s.drives, req.taskID, req.rootfs, req.createCalls.reserve, id);
    }
  }

  /** A create leaks a drive exactly if the task is new, its root filesystem is outside the VM, the reservation succeeds
      (a free drive that the options do not contradict, and every call succeeding), and something after it fails. */
  lemma CreateLeaksIff(s: State, orphans: set<(string, string)>, req: Request)
    requires FifosAgree(s, orphans) && req.Create? && !Leaked(s, req.taskID)
    ensures var calls := req.createCalls;
            Leaked(After(s, req).0, req.taskID) <==>
              && req.taskID !in s.tasks && !req.vmLocal && calls.links && calls.oneRootfs
              && StubDrives.Reservable(s.drives, req.taskID, req.rootfs, calls.reserve)
              && (s.isShutdown || !calls.prepared || !calls.created)
  {
    hide StubDrives.AfterReserve, StubDrives.Reservable, FifosAgree, AfterStart;
    var calls := req.createCalls;
    var drives := if req.vmLocal then s.drives
        else StubDrives.AfterReserve(s.drives, req.taskID, req.rootfs, calls.reserve).0;
    StubDrives.ReserveOkIff(s.drives, req.taskID, req.rootfs, calls.reserve);
    var remembered := if req.vmLocal then s.blockDeviceTasks else s.blockDeviceTasks + {req.taskID};
    var s1 := s.(drives := drives, blockDeviceTasks := remembered);
    assert FifosAgree(s1, orphans) by { SameTables(s, s1, orphans); }
    StartOfTask(s1, orphans, req.taskID, req.fifos, calls.created);
  }

  lemma SameTables(s: State, s': State, orphans: set<(string, string)>)
    requires FifosAgree(s, orphans) && s'.tasks == s.tasks && s'.fifos == s.fifos
    ensures FifosAgree(s', orphans)
  {
  }

  lemma StartOfTask(s: State, orphans: set<(string, string)>, taskID: string, config: Fifos, created: bool)
    requires FifosAgree(s, orphans)
    ensures var s' := AfterStart(s, taskID, TASK_EXEC_ID, config, created).0;
            s'.drives == s.drives && (taskID in s'.tasks <==> taskID in s.tasks || (!s.isShutdown && created))
  {
    StartAgrees(s, orphans, taskID, TASK_EXEC_ID, config, created);
    StartFrame(s, taskID, TASK_EXEC_ID, config, created);
    hide FifosAgree, FifosAdded;
  }

  /** The set of block-device tasks never shrinks. So when every call of a delete of an initial process succeeds, the
      delete is still reported dirty exactly for a task that is remembered there from an earlier life and has no drive
      now (unless its FIFOs are missing, which ends the delete before). */
  lemma StaleBlockDeviceTask(s: State, orphans: set<(string, string)>, taskID: string)
    requires FifosAgree(s, orphans) && Has(s.tasks, taskID, TASK_EXEC_ID)
    ensures var (s', reply) := After(s, FineDelete(taskID));
            && s'.blockDeviceTasks == s.blockDeviceTasks
            && reply == (if (taskID, TASK_EXEC_ID) in orphans then FifosMissing
                         else if taskID in s.blockDeviceTasks && taskID !in s.drives.used then DeletedDirty
                         else Done)
  {
    DeleteAgrees(s, orphans, FineDelete(taskID));
    hide FifosAgree, Orphaned, FifosDeleted;
  }

  /** A create whose outside calls all succeed. */
  function FineCreate(taskID: string, vmLocal: bool, rootfs: StubDrives.Request, config: Fifos): Request {
    Create(taskID, vmLocal, rootfs, config,
        CreateCalls(true, true, StubDrives.ReserveCalls(true, true, true), true, true))
  }

  /** A delete of an initial process whose outside calls all succeed. */
  function FineDelete(taskID: string): Request {
    Delete(taskID, TASK_EXEC_ID, DeleteCalls(true, StubDrives.ReleaseCalls(true, true), true))
  }

  lemma FineCreateDone(s: State, orphans: set<(string, string)>, req: Request)
    requires req.Create? && FifosAgree(s, orphans) && req.taskID !in s.tasks && !s.isShutdown
    requires req == FineCreate(req.taskID, req.vmLocal, req.rootfs, req.fifos)
    requires req.vmLocal || StubDrives.Reservable(s.drives, req.taskID, req.rootfs, req.createCalls.reserve)
    ensures var (s', reply) := After(s, req);
            && reply == Done && FifosAgree(s', orphans)
            && s'.tasks == s.tasks[req.taskID := map[TASK_EXEC_ID := ()]] && !s'.isShutdown
            && s'.blockDeviceTasks == (if req.vmLocal then s.blockDeviceTasks else s.blockDeviceTasks + {req.taskID})
            && (if req.vmLocal then s'.drives == s.drives else req.taskID in s'.drives.used)
  {
    StubDrives.ReserveOkIff(s.drives, req.taskID, req.rootfs, req.createCalls.reserve);
    hide StubDrives.AfterReserve, StubDrives.Reservable, Pairs, Tidy;
    AfterAgrees(s, orphans, req);
  }

  lemma FineDeleteDone(s: State, orphans: set<(string, string)>, taskID: string)
    requires FifosAgree(s, orphans) && taskID in s.tasks && s.tasks[taskID] == map[TASK_EXEC_ID := ()]
    requires (taskID, TASK_EXEC_ID) !in orphans
    ensures var (s', reply) := After(s, FineDelete(taskID));
            && FifosAgree(s', orphans) && s'.tasks == s.tasks - {taskID} && s'.isShutdown == s.isShutdown
            && s'.blockDeviceTasks == s.blockDeviceTasks
            && (taskID in s.blockDeviceTasks && taskID !in s.drives.used ==> reply == DeletedDirty)
            && (taskID in s.blockDeviceTasks && taskID in s.drives.used ==> reply == Done && taskID !in s'.drives.used)
  {
    var req := FineDelete(taskID);
    DeleteAgrees(s, orphans, req);
    assert s.tasks[taskID] - {TASK_EXEC_ID} == map[];
    assert OfTask(Pairs(s.tasks), taskID) == {(taskID, TASK_EXEC_ID)};
    assert Orphaned(s, orphans, req) == orphans;
  }

  /** So a task ID that was once a block-device task, was deleted properly, and is created again with a root
      filesystem inside the VM can never again be deleted without an error. */
  lemma SecondLifeIsDirty(s: State, orphans: set<(string, string)>, taskID: string, rootfs: StubDrives.Request,
      config: Fifos)
    requires FifosAgree(s, orphans) && taskID !in s.tasks && !s.isShutdown
    requires StubDrives.Reservable(s.drives, taskID, rootfs, StubDrives.ReserveCalls(true, true, true))
    ensures var (s1, r1) := After(s, FineCreate(taskID, false, rootfs, config));
            var (s2, r2) := After(s1, FineDelete(taskID));
            var (s3, r3) := After(s2, FineCreate(taskID, true, rootfs, config));
            var (s4, r4) := After(s3, FineDelete(taskID));
            r1 == Done && r2 == Done && r3 == Done && r4 == DeletedDirty
  {
    var first := FineCreate(taskID, false, rootfs, config);
    assert (taskID, TASK_EXEC_ID) !in orphans;
    FineCreateDone(s, orphans, first);
    hide After, FifosAgree, StubDrives.Reservable;
    var s1 := After(s, first).0;
    assert s1.tasks - {taskID} == s.tasks;
    FineDeleteDone(s1, orphans, taskID);
    var s2 := After(s1, FineDelete(taskID)).0;
    FineCreateDone(s2, orphans, FineCreate(taskID, true, rootfs, config));
    FineDeleteDone(After(s2, FineCreate(taskID, true, rootfs, config)).0, orphans, taskID);
  }

  // ----- what each request comes back with -----

  /** A create succeeds exactly if the links are made, there is one root mount, it is inside the VM or a drive can be
      reserved for it, the request could be prepared, the manager is live, the task is new, and the agent created it. */
  predicate CreateSucceeds(s: State, req: Request)
    requires req.Create?
  {
    var calls := req.createCalls;
    && calls.links && calls.oneRootfs
    && (req.vmLocal || StubDrives.Reservable(s.drives, req.taskID, req.rootfs, calls.reserve))
    && calls.prepared && !s.isShutdown && !Has(s.tasks, req.taskID, TASK_EXEC_ID) && calls.created
  }

  predicate ExecSucceeds(s: State, req: Request)
    requires req.Exec?
  {
    && req.prepared && !s.isShutdown && !Has(s.tasks, req.taskID, req.execID)
    && (req.execID == TASK_EXEC_ID || req.taskID in s.tasks) && req.created
  }

  /** The delete of the last process gives back whatever has to be given back: the drive of a task remembered as a
      block-device task, and the bundle. */
  predicate GivesBack(s: State, req: Request)
    requires req.Delete?
  {
    var calls := req.deleteCalls;
    && calls.bundle
    && (req.taskID in s.blockDeviceTasks ==>
          req.taskID in s.drives.used && calls.release.unmount && calls.release.patch)
  }

  /** What each request should come back with. */
  ghost function ExpectedReply(s: State, orphans: set<(string, string)>, req: Request): Reply {
    match req
    case Create(_, _, _, _, _) => if CreateSucceeds(s, req) then Done else Refused
    case Exec(_, _, _, _, _) => if ExecSucceeds(s, req) then Done else Refused
    case Delete(taskID, execID, _) =>
      if !Deletes(s, req) then Refused
      else if (taskID, execID) in orphans then FifosMissing
      else if execID != TASK_EXEC_ID || GivesBack(s, req) then Done
      else DeletedDirty
    case Shutdown => Done
  }

  /** The request reserves a drive for its task, whether or not the create then succeeds. */
  predicate Reserves(s: State, req: Request) {
    && req.Create? && !req.vmLocal && req.createCalls.links && req.createCalls.oneRootfs
    && StubDrives.Reservable(s.drives, req.taskID, req.rootfs, req.createCalls.reserve)
  }

  /** The request gives the drive of its task back, whether or not the bundle is removed. */
  ghost predicate Frees(s: State, orphans: set<(string, string)>, req: Request) {
    && Deletes(s, req) && (req.taskID, req.execID) !in orphans && req.execID == TASK_EXEC_ID
    && req.taskID in s.blockDeviceTasks && req.deleteCalls.release.unmount && req.deleteCalls.release.patch
  }

  /** What a request should do to the drives: at most one reservation or release, for its own task. */
  ghost function ExpectedDrives(s: State, orphans: set<(string, string)>, req: Request): StubDrives.State {
    if req.Create? && !req.vmLocal && req.createCalls.links && req.createCalls.oneRootfs then
      StubDrives.AfterReserve(s.drives, req.taskID, req.rootfs, req.createCalls.reserve).0
    else if Deletes(s, req) && (req.taskID, req.execID) !in orphans && req.execID == TASK_EXEC_ID
            && req.taskID in s.blockDeviceTasks then
      StubDrives.AfterRelease(s.drives, req.taskID, req.deleteCalls.release).0
    else s.drives
  }

  /** The tasks that should have a drive after a request. */
  ghost function ExpectedUsers(s: State, orphans: set<(string, string)>, req: Request): set<string> {
    if Reserves(s, req) then s.drives.used.Keys + {req.taskID}
    else if Frees(s, orphans, req) then s.drives.used.Keys - {req.taskID}
    else s.drives.used.Keys
  }

  /** The processes that should be registered after a request. */
  ghost function ExpectedPairs(s: State, req: Request): set<(string, string)> {
    match req
    case Create(taskID, _, _, _, _) =>
      Pairs(s.tasks) + if CreateSucceeds(s, req) then {(taskID, TASK_EXEC_ID)} else {}
    case Exec(taskID, execID, _, _, _) => Pairs(s.tasks) + if ExecSucceeds(s, req) then {(taskID, execID)} else {}
    case Delete(taskID, execID, _) => Pairs(s.tasks) - if Deletes(s, req) then {(taskID, execID)} else {}
    case Shutdown => Pairs(s.tasks)
  }

  /** The request has come back with the reply that is expected of it, and has left exactly the expected processes
      registered, and the expected tasks with a drive. A process that was created has the FIFOs it was created with. */
  ghost predicate AsExpected(s: State, orphans: set<(string, string)>, req: Request, s': State, reply: Reply) {
    && reply == ExpectedReply(s, orphans, req)
    && Pairs(s'.tasks) == ExpectedPairs(s, req)
    && s'.isShutdown == (s.isShutdown || (req.Shutdown? && Pairs(s.tasks) == {}))
    && s'.drives == ExpectedDrives(s, orphans, req)
    && s'.drives.used.Keys == ExpectedUsers(s, orphans, req)
    && s'.blockDeviceTasks == s.blockDeviceTasks + (if Reserves(s, req) then {req.taskID} else {})
    && (reply == Done && req.Create? ==>
          Has(s'.fifos, req.taskID, TASK_EXEC_ID) && s'.fifos[req.taskID][TASK_EXEC_ID] == req.fifos)
    && (reply == Done && req.Exec? ==>
          Has(s'.fifos, req.taskID, req.execID) && s'.fifos[req.taskID][req.execID] == req.fifos)
  }

  lemma StartReply(s: State, orphans: set<(string, string)>, taskID: string, execID: string, config: Fifos,
                   created: bool)
    requires FifosAgree(s, orphans)
    ensures var (s', reply) := AfterStart(s, taskID, execID, config, created);
            var succeeds := && !s.isShutdown && !Has(s.tasks, taskID, execID)
                            && (execID == TASK_EXEC_ID || taskID in s.tasks) && created;
            && reply == (if succeeds then Done else Refused)
            && Pairs(s'.tasks) == Pairs(s.tasks) + (if succeeds then {(taskID, execID)} else {})
            && s'.isShutdown == s.isShutdown
            && (succeeds ==> Has(s'.fifos, taskID, execID) && s'.fifos[taskID][execID] == config)
  {
    hide Pairs, Tidy, NewProc, DeleteProc, FifosAdded;
    StartAgrees(s, orphans, taskID, execID, config, created);
    NewProcAdds(s.tasks, s.isShutdown, taskID, execID, ());
    AddFIFOsAdds(s.fifos, taskID, execID, config);
    InPairs(s.fifos, taskID, execID);
    var added := NewProc(s.tasks, s.isShutdown, taskID, execID, ());
    if added.Ok? {
      NewProcPairs(s.tasks, s.isShutdown, taskID, execID, ());
      FifosOfStart(s, taskID, execID, config, created);
    }
  }

  lemma FifosOfStart(s: State, taskID: string, execID: string, config: Fifos, created: bool)
    ensures var (s', reply) := AfterStart(s, taskID, execID, config, created);
            reply == Done ==> Has(s'.fifos, taskID, execID) && s'.fifos[taskID][execID] == config
  {
    hide NewProc, DeleteProc;
  }

  lemma CreateReply(s: State, orphans: set<(string, string)>, req: Request)
    requires FifosAgree(s, orphans) && req.Create?
    ensures AsExpected(s, orphans, req, AfterCreate(s, req).0, AfterCreate(s, req).1)
  {
    hide StubDrives.AfterReserve, StubDrives.Reservable, FifosAgree, AfterStart, Pairs;
    var calls := req.createCalls;
    var drives := if req.vmLocal then s.drives
        else StubDrives.AfterReserve(s.drives, req.taskID, req.rootfs, calls.reserve).0;
    StubDrives.ReserveOkIff(s.drives, req.taskID, req.rootfs, calls.reserve);
    var remembered := if req.vmLocal then s.blockDeviceTasks else s.blockDeviceTasks + {req.taskID};
    var s1 := s.(drives := drives, blockDeviceTasks := remembered);
    assert FifosAgree(s1, orphans) by { SameTables(s, s1, orphans); }
    StartReply(s1, orphans, req.taskID, TASK_EXEC_ID, req.fifos, calls.created);
    StartFrame(s1, req.taskID, TASK_EXEC_ID, req.fifos, calls.created);
    ReservedUsers(s.drives, req.taskID, req.rootfs, calls.reserve);
  }

  lemma ReservedUsers(d: StubDrives.State, id: string, req: StubDrives.Request, calls: StubDrives.ReserveCalls)
    ensures var (d', r) := StubDrives.AfterReserve(d, id, req, calls);
            d'.used.Keys == d.used.Keys + if r.Ok? then {id} else {}
  {
    StubDrives.ReserveOkIff(d, id, req, calls);
    if StubDrives.AfterReserve(d, id, req, calls).1.Ok? {
      StubDrives.ReservedAsAsked(d, id, req, calls);
    }
    hide StubDrives.AfterReserve, StubDrives.Reservable;
  }

  lemma DeleteReply(s: State, orphans: set<(string, string)>, req: Request)
    requires FifosAgree(s, orphans) && req.Delete?
    ensures AsExpected(s, orphans, req, AfterDelete(s, req).0, AfterDelete(s, req).1)
  {
    hide StubDrives.AfterRelease, Pairs, Tidy, DeleteProc, FifosDeleted;
    DeleteProcPairs(s.tasks, req.taskID, req.execID);
    DeleteFIFOsDeletes(s.fifos, req.taskID, req.execID);
    StubDrives.ReleasedIff(s.drives, req.taskID, req.deleteCalls.release);
    var (drives, r) := StubDrives.AfterRelease(s.drives, req.taskID, req.deleteCalls.release);
    assert drives.used.Keys == if r.Ok? then s.drives.used.Keys - {req.taskID} else s.drives.used.Keys;
    assert req.taskID !in s.drives.used ==> s.drives.used.Keys - {req.taskID} == s.drives.used.Keys;
  }

  lemma ExecReply(s: State, orphans: set<(string, string)>, req: Request)
    requires FifosAgree(s, orphans) && req.Exec?
    ensures AsExpected(s, orphans, req, After(s, req).0, After(s, req).1)
  {
    hide FifosAgree, AfterStart, Pairs;
    StartReply(s, orphans, req.taskID, req.execID, req.fifos, req.created);
    StartFrame(s, req.taskID, req.execID, req.fifos, req.created);
  }

  /** From the start of a shim, after any requests, the next one comes back exactly with the reply that is expected of
      it and has exactly the expected effects. */
  lemma RepliesAreExact(drives: StubDrives.State, reqs: seq<Request>, next: Request)
    ensures var s0 := State(map[], false, map[], drives, {});
            var s := Run(s0, reqs);
            AsExpected(s, RunOrphans(s0, {}, reqs), next, After(s, next).0, After(s, next).1)
  {
    hide Run, RunOrphans, AfterStart, AfterCreate, AfterDelete, Pairs;
    var s0 := State(map[], false, map[], drives, {});
    NothingYet(s0);
    FifoTableAgrees(s0, {}, reqs, next);
    var s, orphans := Run(s0, reqs), RunOrphans(s0, {}, reqs);
    if next.Shutdown? {
      TidyEmpty(s.tasks);
    } else {
      hide AsExpected, FifosAgree;
      match next
      case Create(_, _, _, _, _) => CreateReply(s, orphans, next);
      case Exec(_, _, _, _, _) => ExecReply(s, orphans, next);
      case Delete(_, _, _) => DeleteReply(s, orphans, next);
      case Shutdown =>
    }
  }

  // ----- two runs from the start of a shim -----

  /** A task with an exec, from the start of a shim. */
  lemma TaskWithExec(drives: StubDrives.State, rootfs: StubDrives.Request, config: Fifos) returns (s: State)
    ensures var (s1, r1) := After(State(map[], false, map[], drives, {}), FineCreate("t", true, rootfs, config));
            var (s2, r2) := After(s1, Exec("t", "e", config, true, true));
            r1 == Done && r2 == Done && s == s2
    ensures FifosAgree(s, {}) && Pairs(s.tasks) == {("t", ""), ("t", "e")} && s.blockDeviceTasks == {}
  {
    var s0 := State(map[], false, map[], drives, {});
    var s1 := After(s0, FineCreate("t", true, rootfs, config)).0;
    assert s1 == s0.(tasks := map["t" := map["" := ()]], fifos := map["t" := map["" := config]]);
    s := After(s1, Exec("t", "e", config, true, true)).0;
    assert s.tasks == map["t" := map["" := (), "e" := ()]] && s.fifos == map["t" := map["" := config, "e" := config]];
  }

  /** An exec whose task's initial process is deleted before it: its own delete then fails for want of FIFOs. */
  lemma OrphanedExec(drives: StubDrives.State, rootfs: StubDrives.Request, config: Fifos)
    ensures var (s1, r1) := After(State(map[], false, map[], drives, {}), FineCreate("t", true, rootfs, config));
            var (s2, r2) := After(s1, Exec("t", "e", config, true, true));
            var (s3, r3) := After(s2, FineDelete("t"));
            var r4 := After(s3, Delete("t", "e", FineDelete("t").deleteCalls)).1;
            r1 == Done && r2 == Done && r3 == Done && r4 == FifosMissing
  {
    var s2 := TaskWithExec(drives, rootfs, config);
    hide Tidy, Pairs;
    var first := FineDelete("t");
    InPairs(s2.tasks, "t", "");
    StaleBlockDeviceTask(s2, {}, "t");
    DeleteAgrees(s2, {}, first);
    DeleteProcPairs(s2.tasks, "t", "");
    var s3 := After(s2, first).0;
    InPairs(s3.tasks, "t", "e");
    assert ("t", "e") in Orphaned(s2, {}, first);
    DeleteAgrees(s3, Orphaned(s2, {}, first), Delete("t", "e", first.deleteCalls));
  }

  /** A create that the agent refuses: its drive is in use and its task unknown, so that the next create is refused too.
      */
  lemma LeakedDrive(drives: StubDrives.State, rootfs: StubDrives.Request, config: Fifos)
    requires StubDrives.Reservable(drives, "t", rootfs, StubDrives.ReserveCalls(true, true, true))
    ensures var s0 := State(map[], false, map[], drives, {});
            var (s1, r1) := After(s0, RefusedCreate("t", rootfs, config));
            var (s2, r2) := After(s1, FineCreate("t", false, rootfs, config));
            r1 == Refused && Leaked(s1, "t") && r2 == Refused && Leaked(s2, "t")
  {
    var s0 := State(map[], false, map[], drives, {});
    var failing := RefusedCreate("t", rootfs, config);
    NothingYet(s0);
    CreateLeaksIff(s0, {}, failing);
    var s1 := After(s0, failing).0;
    StubDrives.ReserveOkIff(drives, "t", rootfs, StubDrives.ReserveCalls(true, true, true));
    StubDrives.ReserveOkIff(s1.drives, "t", rootfs, StubDrives.ReserveCalls(true, true, true));
    hide StubDrives.AfterReserve;
  }

  /** A create of which only the call of the agent fails. */
  function RefusedCreate(taskID: string, rootfs: StubDrives.Request, config: Fifos): Request {
    Create(taskID, false, rootfs, config,
        CreateCalls(true, true, StubDrives.ReserveCalls(true, true, true), true, false))
  }
}
