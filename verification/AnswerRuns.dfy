/** What the calls of a task manager are answered and what they leave behind, in every interleaving
    (internal/vm/task.go). */
module AnswerRuns {
  import opened Outcomes
  import opened ProcRegistry
  import opened TaskRuns
  import opened ProxyRuns
  import FlushRuns
  import IoPair

  // ----- a failed create leaves nothing -----

  /** The record that a client has made, while it is at work on it and when its create has succeeded. */
  function Holding(client: Client): Option<nat> {
    match client
    case HasProc(p, _) => Some(p)
    case HasProxy(p, _) => Some(p)
    case HasStarted(p, _) => Some(p)
    case Calling(p, _) => Some(p)
    case AwaitingInit(p, _) => Some(p)
    case RollingBack(p) => Some(p)
    case CreateOk(p) => Some(p)
    case _ => None
  }

  /** The client that made record `p` still holds it, or has failed and the record is removed. */
  ghost predicate MakerAt(s: State, p: nat)
    requires p < |s.procs|
  {
    var c := s.procs[p].creator;
    c < |s.clients| && (Holding(s.clients[c]) == Some(p) || (s.clients[c] == CreateErr && s.procs[p].removed))
  }

  ghost predicate MakersInv(s: State) {
    && (forall p :: 0 <= p < |s.procs| ==> MakerAt(s, p))
    && (forall p, q :: 0 <= p < q < |s.procs| ==> s.procs[p].creator != s.procs[q].creator)
  }

  /** Records keep their maker and their IDs, and stay removed. */
  ghost predicate RecordsKept(s: State, s': State) {
    && |s.procs| <= |s'.procs|
    && forall p :: 0 <= p < |s.procs| ==>
         && s'.procs[p].creator == s.procs[p].creator && s'.procs[p].own == s.procs[p].own
         && s'.procs[p].taskID == s.procs[p].taskID && s'.procs[p].execID == s.procs[p].execID
         && (s.procs[p].removed ==> s'.procs[p].removed)
  }

  /** A step of client `c` that leaves it with the record it has. */
  lemma MakersFrame(s: State, s': State, c: nat)
    requires MakersInv(s) && RecordsKept(s, s') && |s'.procs| == |s.procs| && |s.clients| <= |s'.clients|
    requires forall d :: 0 <= d < |s.clients| && d != c ==> s'.clients[d] == s.clients[d]
    requires c < |s.clients| ==> Holding(s'.clients[c]) == Holding(s.clients[c]) && s.clients[c] != CreateErr
    ensures MakersInv(s')
  {
    hide Holding;
    forall p | 0 <= p < |s'.procs| ensures MakerAt(s', p) {
      assert MakerAt(s, p);
    }
  }

  lemma NewProcMakes(s: State, c: nat)
    requires MakersInv(s) && Enabled(s, NewProcStep(c))
    ensures MakersInv(ApplyNewProc(s, c))
  {
    hide NewProc;
    var s' := ApplyNewProc(s, c);
    forall p | 0 <= p < |s.procs| ensures s.procs[p].creator != c {
      assert MakerAt(s, p);
    }
    forall p | 0 <= p < |s'.procs| ensures MakerAt(s', p) {
      if p < |s.procs| {
        assert MakerAt(s, p);
      }
    }
  }

  /** A rollback removes the record of its client, unless it is removed already. */
  lemma RollbackUnmakes(s: State, c: nat)
    requires TableInv(s) && MakersInv(s) && Enabled(s, Rollback(c))
    ensures MakersInv(ApplyRollback(s, c))
  {
    RollbackClients(s, c);
    RollbackRemoves(s, c);
    hide TableInv, ApplyRollback, Enabled;
    var s' := ApplyRollback(s, c);
    forall p | 0 <= p < |s'.procs| ensures MakerAt(s', p) {
      assert MakerAt(s, p);
    }
  }

  lemma RollbackClients(s: State, c: nat)
    requires Enabled(s, Rollback(c))
    ensures ApplyRollback(s, c).clients == s.clients[c := CreateErr]
  {
  }

  lemma RollbackRemoves(s: State, c: nat)
    requires TableInv(s) && Enabled(s, Rollback(c))
    ensures var s' := ApplyRollback(s, c);
            |s'.procs| == |s.procs| && RecordsKept(s, s') && s'.procs[s.clients[c].proc].removed
  {
    RollbackEffect(s, c);
    RecordsRollback(s, c);
    hide TableInv, ApplyRollback, Pairs, RecordsKept, Removed;
    var proc := s.procs[s.clients[c].proc];
    if Has(s.tasks, proc.taskID, proc.execID) {
      RemovedRecord(s, s.tasks[proc.taskID][proc.execID]);
    }
  }

  lemma DeleteMakes(s: State, c: nat)
    requires MakersInv(s) && Enabled(s, DeleteProcStep(c))
    ensures MakersInv(ApplyDelete(s, c))
  {
    hide MakersInv;
    MakersFrame(s, ApplyDelete(s, c), c);
  }

  lemma AttachMakes(s: State, c: nat)
    requires MakersInv(s) && Enabled(s, Attach(c))
    ensures MakersInv(ApplyAttach(s, c))
  {
    hide MakersInv;
    MakersFrame(s, ApplyAttach(s, c), c);
  }

  lemma WiringMakes(s: State, step: Step)
    requires MakersInv(s) && Enabled(s, step) && (step.SetProxy? || step.StartProxy? || step.SetCopyDone?)
    ensures MakersInv(Apply(s, step))
  {
    hide MakersInv;
    MakersFrame(s, Apply(s, step), step.c);
  }

  lemma MoveMakes(s: State, step: Step)
    requires MakersInv(s) && Enabled(s, step)
    requires step.CallReturns? || step.InitArrives? || step.AgentDeletes? || step.ReadChannel? || step.CopyArrives?
             || step.Shutdown?
    ensures MakersInv(Apply(s, step))
  {
    hide MakersInv, IoPair.InitOk, IoPair.InitFailedWith, IoPair.CopyDone;
    MakersFrame(s, Apply(s, step), step.c);
  }

  lemma OtherMakes(s: State, step: Step)
    requires MakersInv(s) && Enabled(s, step)
    requires Spawns(step) || step.MonitorFires? || step.InitErrorCloses? || step.ProxyStep?
    ensures MakersInv(Apply(s, step))
  {
    hide MakersInv, IoPair.SessionApply, IoPair.SessionEnabled, IoPair.InitFailedWith, IoPair.CopyDone,
         IoPair.NewSession;
    MakersFrame(s, Apply(s, step), |s.clients|);
  }

  lemma MakersStep(s: State, step: Step)
    requires TableInv(s) && MakersInv(s) && Enabled(s, step)
    ensures MakersInv(Apply(s, step))
  {
    hide TableInv, MakersInv;
    match step
    case NewProcStep(c) => NewProcMakes(s, c);
    case Rollback(c) => RollbackUnmakes(s, c);
    case DeleteProcStep(c) => DeleteMakes(s, c);
    case Attach(c) => AttachMakes(s, c);
    case SetProxy(_) => WiringMakes(s, step);
    case StartProxy(_) => WiringMakes(s, step);
    case SetCopyDone(_) => WiringMakes(s, step);
    case CallReturns(_, _) => MoveMakes(s, step);
    case InitArrives(_) => MoveMakes(s, step);
    case AgentDeletes(_, _) => MoveMakes(s, step);
    case ReadChannel(_) => MoveMakes(s, step);
    case CopyArrives(_) => MoveMakes(s, step);
    case Shutdown(_) => MoveMakes(s, step);
    case _ => OtherMakes(s, step);
  }

  lemma {:induction false} RunMakers(run: seq<Step>)
    requires After(run).Some?
    ensures MakersInv(After(run).value)
    decreases |run|
  {
    if run != [] {
      hide Enabled, Apply, TableInv, MakersInv;
      RunInv(run[..|run| - 1]);
      InvParts(After(run[..|run| - 1]).value);
      RunMakers(run[..|run| - 1]);
      MakersStep(After(run[..|run| - 1]).value, run[|run| - 1]);
    }
  }

  /** In every interleaving: a create or exec that has returned an error has left no record registered, and every record
      that is registered belongs to a create or exec that has succeeded or is still at work on it. No call makes two
      records. */
  lemma FailedCreateLeavesNothing(run: seq<Step>)
    requires After(run).Some?
    ensures var s := After(run).value;
            && (forall p :: 0 <= p < |s.procs| ==> s.procs[p].creator < |s.clients|)
            && (forall p :: 0 <= p < |s.procs| && s.clients[s.procs[p].creator] == CreateErr ==> s.procs[p].removed)
            && (forall t, e :: Has(s.tasks, t, e) ==>
                  && s.tasks[t][e] < |s.procs| && s.procs[s.tasks[t][e]].creator < |s.clients|
                  && Holding(s.clients[s.procs[s.tasks[t][e]].creator]) == Some(s.tasks[t][e]))
            && (forall p, q :: 0 <= p < q < |s.procs| ==> s.procs[p].creator != s.procs[q].creator)
  {
    hide After;
    RunInv(run);
    RunMakers(run);
    var s := After(run).value;
    InvParts(s);
    hide Inv, Holding;
    forall t, e | Has(s.tasks, t, e)
      ensures && s.tasks[t][e] < |s.procs| && s.procs[s.tasks[t][e]].creator < |s.clients|
              && Holding(s.clients[s.procs[s.tasks[t][e]].creator]) == Some(s.tasks[t][e])
    {
      assert Entry(s.procs, s.tasks[t][e], t, e);
      assert MakerAt(s, s.tasks[t][e]);
    }
    NothingHeld();
    forall p | 0 <= p < |s.procs|
      ensures s.procs[p].creator < |s.clients| && (s.clients[s.procs[p].creator] == CreateErr ==> s.procs[p].removed)
    {
      assert MakerAt(s, p);
    }
  }

  lemma NothingHeld()
    ensures Holding(CreateErr) == None
  {
  }

  // ----- requests and answers -----

  predicate Spawns(step: Step) {
    step.SpawnCreate? || step.SpawnDelete? || step.SpawnAttach? || step.SpawnShutdown?
  }

  /** The calls that a run makes, in order: the i-th is that of client i. */
  function Requests(run: seq<Step>): seq<Step>
    decreases |run|
  {
    if run == [] then []
    else Requests(run[..|run| - 1]) + if Spawns(run[|run| - 1]) then [run[|run| - 1]] else []
  }

  /** The step makes the call of client `c` fail: newProc is refused, the task service or the initialisation of the
      stdio reports an error, there is nothing to delete or to attach to, or a process is still registered. */
  ghost predicate Fails(s: State, step: Step, c: nat) {
    && Enabled(s, step)
    && match step
       case NewProcStep(d) =>
         && d == c
         && var Creating(t, e, _) := s.clients[c];
            s.isShutdown || Has(s.tasks, t, e) || (e != "" && t !in s.tasks)
       case CallReturns(d, ok) => d == c && !ok
       case InitArrives(d) => d == c && IoPair.InitFailedWith(s.proxies[s.clients[c].proxy].session)
       case AgentDeletes(d, ok) => d == c && !ok
       case DeleteProcStep(d) => d == c && !Has(s.tasks, s.clients[c].taskID, s.clients[c].execID)
       case Attach(d) =>
         && d == c
         && var t, e := s.clients[c].taskID, s.clients[c].execID;
            Has(s.tasks, t, e) ==> s.tasks[t][e] < |s.procs| && s.procs[s.tasks[t][e]].proxy == None
       case Shutdown(d) => d == c && Pairs(s.tasks) != {}
       case _ => false
  }

  /** Some step of the run made the call of client `c` fail. */
  ghost predicate Failed(run: seq<Step>, c: nat)
    requires After(run).Some?
    decreases |run|
  {
    run != [] && (Failed(run[..|run| - 1], c) || Fails(After(run[..|run| - 1]).value, run[|run| - 1], c))
  }

  /** The client has returned an error, a refusal or false, or is about to. */
  predicate HasFailed(client: Client) {
    client.RollingBack? || client.CreateErr? || client.DeleteErr? || client == AttachDone(false)
    || client == ShutdownDone(false)
  }

  predicate Creates(client: Client) {
    client.Creating? || Holding(client).Some? || client.CreateErr?
  }

  /** The record that a delete has taken out. */
  function Deleted(client: Client): Option<nat> {
    match client
    case HasDeleted(p, _) => Some(p)
    case AwaitingCopy(p, _, _) => Some(p)
    case DeleteOk(p, _, _) => Some(p)
    case _ => None
  }

  ghost predicate ProxyIs(s: State, x: nat, isNull: bool, streams: nat) {
    && x < |s.proxies| && s.proxies[x].isNull == isNull
    && |s.proxies[x].session.pairs| == if isNull then 0 else streams
  }

  ghost predicate RecordIs(s: State, p: nat, t: string, e: string) {
    p < |s.procs| && s.procs[p].taskID == t && s.procs[p].execID == e
  }

  /** The client does what was asked: it is in a call of that kind, and the IDs, the record and the proxy it works with
      are those of the request. */
  ghost predicate DoesAsAsked(s: State, c: nat, request: Step)
    requires c < |s.clients|
  {
    var client := s.clients[c];
    match request
    case SpawnCreate(t, e, isNull, n) =>
      && Creates(client)
      && (client.Creating? ==> client.taskID == t && client.execID == e && ProxyIs(s, client.proxy, isNull, n))
      && (Holding(client).Some? ==>
            var p := Holding(client).value;
            RecordIs(s, p, t, e) && s.procs[p].creator == c && ProxyIs(s, s.procs[p].own, isNull, n))
    case SpawnDelete(t, e) =>
      && (client.Deleting? || Deleted(client).Some? || client.DeleteErr?)
      && (client.Deleting? ==> client.taskID == t && client.execID == e)
      && (Deleted(client).Some? ==>
            RecordIs(s, Deleted(client).value, t, e) && s.procs[Deleted(client).value].removed)
    case SpawnAttach(t, e, isNull, n) =>
      && (client.Attaching? || client.AttachDone?)
      && (client.Attaching? ==> client.taskID == t && client.execID == e && ProxyIs(s, client.proxy, isNull, n))
    case SpawnShutdown => client.ShuttingDown? || client.ShutdownDone?
    case _ => false
  }

  ghost predicate Answers(s: State, c: nat, request: Step, failed: bool)
    requires c < |s.clients|
  {
    DoesAsAsked(s, c, request) && (HasFailed(s.clients[c]) <==> failed)
  }

  /** The step is one of client `c`. */
  predicate IsStepOf(step: Step, c: nat) {
    && !Spawns(step) && !step.MonitorFires? && !step.InitErrorCloses? && !step.ProxyStep?
    && step.c == c
  }

  // ----- one step -----

  /** What no step takes away from a client: its proxies and records stay what they are. */
  ghost predicate Steadfast(s: State, s': State) {
    && RecordsKept(s, s') && |s.proxies| <= |s'.proxies|
    && forall x :: 0 <= x < |s.proxies| ==>
         s'.proxies[x].isNull == s.proxies[x].isNull && |s'.proxies[x].session.pairs| == |s.proxies[x].session.pairs|
  }

  lemma RecordsStep(s: State, step: Step)
    requires Enabled(s, step)
    ensures RecordsKept(s, Apply(s, step))
  {
    hide RecordsKept;
    match step
    case NewProcStep(c) => RecordsNewProc(s, c);
    case Rollback(c) => RecordsRollback(s, c);
    case DeleteProcStep(c) => RecordsDelete(s, c);
    case Attach(c) => RecordsAttach(s, c);
    case _ => RecordsOther(s, step);
  }

  lemma RecordsNewProc(s: State, c: nat)
    requires Enabled(s, NewProcStep(c))
    ensures RecordsKept(s, ApplyNewProc(s, c))
  {
    hide NewProc;
  }

  lemma RecordsRollback(s: State, c: nat)
    requires Enabled(s, Rollback(c))
    ensures RecordsKept(s, ApplyRollback(s, c))
  {
  }

  lemma RecordsDelete(s: State, c: nat)
    requires Enabled(s, DeleteProcStep(c))
    ensures RecordsKept(s, ApplyDelete(s, c))
  {
  }

  lemma RecordsAttach(s: State, c: nat)
    requires Enabled(s, Attach(c))
    ensures RecordsKept(s, ApplyAttach(s, c))
  {
  }

  lemma RecordsOther(s: State, step: Step)
    requires Enabled(s, step)
    requires !step.NewProcStep? && !step.Rollback? && !step.DeleteProcStep? && !step.Attach?
    ensures RecordsKept(s, Apply(s, step))
  {
    hide IoPair.SessionApply, IoPair.SessionEnabled, IoPair.InitOk, IoPair.InitFailedWith, IoPair.CopyDone,
         IoPair.NewSession;
  }

  lemma SteadfastStep(s: State, step: Step)
    requires Inv(s) && Enabled(s, step)
    ensures Steadfast(s, Apply(s, step))
  {
    hide Enabled, Apply, RecordsKept, IoPair.CopyDone, IoPair.InitOk, IoPair.InitFailedWith, IoPair.Failed;
    InvParts(s);
    hide Inv, ProxiesInv;
    RecordsStep(s, step);
    forall x | 0 <= x < |s.proxies|
      ensures var s' := Apply(s, step);
              && x < |s'.proxies| && s'.proxies[x].isNull == s.proxies[x].isNull
              && |s'.proxies[x].session.pairs| == |s.proxies[x].session.pairs|
    {
      ProxyStays(s, step, x);
    }
    ProxiesOnlyGrow(s, step);
  }

  lemma ProxiesOnlyGrow(s: State, step: Step)
    requires Enabled(s, step)
    ensures |s.proxies| <= |Apply(s, step).proxies|
  {
    hide NewProc, Find, IoPair.SessionApply, IoPair.SessionEnabled, IoPair.InitOk, IoPair.InitFailedWith,
         IoPair.CopyDone, IoPair.NewSession;
  }

  /** A step of another client does not change what this one does. */
  lemma OthersAnswer(s: State, s': State, c: nat, request: Step, failed: bool)
    requires c < |s.clients| <= |s'.clients| && s'.clients[c] == s.clients[c] && Steadfast(s, s')
    requires Answers(s, c, request, failed)
    ensures Answers(s', c, request, failed)
  {
  }

  lemma FailsByItself(s: State, step: Step, c: nat)
    ensures Fails(s, step, c) ==> IsStepOf(step, c)
  {
  }

  lemma SameClient(s: State, step: Step, c: nat)
    requires Enabled(s, step) && c < |s.clients| && !IsStepOf(step, c)
    ensures c < |Apply(s, step).clients| && Apply(s, step).clients[c] == s.clients[c]
  {
    if step.NewProcStep? || step.Rollback? || step.DeleteProcStep? || step.Attach? {
      SameClientTable(s, step, c);
      hide Enabled, Apply;
    }
    hide IoPair.SessionApply, IoPair.SessionEnabled, IoPair.InitOk, IoPair.InitFailedWith, IoPair.CopyDone,
         IoPair.NewSession;
  }

  lemma SameClientTable(s: State, step: Step, c: nat)
    requires step.NewProcStep? || step.Rollback? || step.DeleteProcStep? || step.Attach?
    requires Enabled(s, step) && c < |s.clients| && step.c != c
    ensures c < |Apply(s, step).clients| && Apply(s, step).clients[c] == s.clients[c]
  {
    hide NewProc, Find, Has, Removed;
  }

  lemma NewProcAnswers(s: State, c: nat, request: Step, failed: bool)
    requires Enabled(s, NewProcStep(c)) && Answers(s, c, request, failed)
    ensures var s' := ApplyNewProc(s, c);
            c < |s'.clients| && Answers(s', c, request, failed || Fails(s, NewProcStep(c), c))
  {
    assert request.SpawnCreate? && !failed;
    var s' := ApplyNewProc(s, c);
    if Fails(s, NewProcStep(c), c) {
      assert s' == At(s, c, CreateErr);
      hide ApplyNewProc, Answers, Fails;
      RefusedAnswers(s', c, request);
    } else {
      RecordMade(s, c);
      hide ApplyNewProc, NewProc, Has, Fails;
    }
  }

  lemma RecordMade(s: State, c: nat)
    requires Enabled(s, NewProcStep(c)) && !Fails(s, NewProcStep(c), c)
    ensures var Creating(t, e, x) := s.clients[c];
            var s', p := ApplyNewProc(s, c), |s.procs|;
            && s'.clients == s.clients[c := HasProc(p, x)] && s'.proxies == s.proxies
            && s'.procs == s.procs + [Proc(t, e, c, x, Fresh, None, None, false)]
  {
  }

  lemma WiringAnswers(s: State, step: Step, c: nat, request: Step, failed: bool)
    requires Enabled(s, step) && IsStepOf(step, c) && (step.SetProxy? || step.StartProxy? || step.SetCopyDone?)
    requires c < |s.clients| && Answers(s, c, request, failed) && Steadfast(s, Apply(s, step))
    ensures var s' := Apply(s, step); c < |s'.clients| && Answers(s', c, request, failed || Fails(s, step, c))
  {
  }

  lemma CallAnswers(s: State, step: Step, c: nat, request: Step, failed: bool)
    requires Enabled(s, step) && IsStepOf(step, c) && (step.CallReturns? || step.InitArrives?)
    requires c < |s.clients| && Answers(s, c, request, failed)
    ensures var s' := Apply(s, step); c < |s'.clients| && Answers(s', c, request, failed || Fails(s, step, c))
  {
    hide IoPair.InitOk;
  }

  lemma RollbackAnswers(s: State, c: nat, request: Step, failed: bool)
    requires Enabled(s, Rollback(c)) && Answers(s, c, request, failed)
    ensures var s' := ApplyRollback(s, c);
            c < |s'.clients| && Answers(s', c, request, failed || Fails(s, Rollback(c), c))
  {
    RollbackClients(s, c);
    RollbackAsked(s, c, request, failed);
    hide ApplyRollback, Answers, Fails;
    RefusedAnswers(ApplyRollback(s, c), c, request);
  }

  lemma RollbackAsked(s: State, c: nat, request: Step, failed: bool)
    requires c < |s.clients| && s.clients[c].RollingBack? && Answers(s, c, request, failed)
    ensures request.SpawnCreate? && failed
  {
  }

  lemma RefusedAnswers(s: State, c: nat, request: Step)
    requires c < |s.clients| && s.clients[c] == CreateErr && request.SpawnCreate?
    ensures Answers(s, c, request, true)
  {
  }

  lemma AgentAnswers(s: State, step: Step, c: nat, request: Step, failed: bool)
    requires Enabled(s, step) && IsStepOf(step, c)
    requires step.AgentDeletes? || step.ReadChannel? || step.CopyArrives?
    requires c < |s.clients| && Answers(s, c, request, failed)
    ensures var s' := Apply(s, step); c < |s'.clients| && Answers(s', c, request, failed || Fails(s, step, c))
  {
    hide IoPair.CopyDone;
  }

  lemma DeleteAnswers(s: State, c: nat, request: Step, failed: bool)
    requires TableInv(s) && Enabled(s, DeleteProcStep(c)) && Answers(s, c, request, failed)
    ensures var s' := ApplyDelete(s, c);
            c < |s'.clients| && Answers(s', c, request, failed || Fails(s, DeleteProcStep(c), c))
  {
    var t, e := s.clients[c].taskID, s.clients[c].execID;
    assert request == SpawnDelete(t, e) && !failed;
    DeleteHits(s, c);
    hide TableInv, ApplyDelete, DeleteProc, Returned, Answers, Removed;
    var s' := ApplyDelete(s, c);
    if Has(s.tasks, t, e) {
      RemovedRecord(s, s.tasks[t][e]);
      DeletedAnswers(s', c, t, e);
    } else {
      DeletedAnswers(s', c, t, e);
    }
  }

  lemma RemovedRecord(s: State, q: nat)
    requires q < |s.procs|
    ensures |Removed(s, q)| == |s.procs| && Removed(s, q)[q] == s.procs[q].(removed := true)
  {
  }

  lemma DeletedAnswers(s: State, c: nat, t: string, e: string)
    requires c < |s.clients|
    requires || s.clients[c] == DeleteErr
             || (s.clients[c].HasDeleted? && RecordIs(s, s.clients[c].proc, t, e) && s.procs[s.clients[c].proc].removed)
    ensures Answers(s, c, SpawnDelete(t, e), s.clients[c] == DeleteErr)
  {
  }

  lemma AttachAnswers(s: State, c: nat, request: Step, failed: bool)
    requires TableInv(s) && Enabled(s, Attach(c)) && Answers(s, c, request, failed)
    ensures var s' := ApplyAttach(s, c);
            c < |s'.clients| && Answers(s', c, request, failed || Fails(s, Attach(c), c))
  {
    var t, e := s.clients[c].taskID, s.clients[c].execID;
    assert request.SpawnAttach? && !failed;
    if Has(s.tasks, t, e) {
      assert Entry(s.procs, s.tasks[t][e], t, e);
    }
    hide TableInv, Answers;
    AttachedAnswers(ApplyAttach(s, c), c, request);
  }

  lemma AttachedAnswers(s: State, c: nat, request: Step)
    requires c < |s.clients| && s.clients[c].AttachDone? && request.SpawnAttach?
    ensures Answers(s, c, request, !s.clients[c].ok)
  {
  }

  lemma ShutdownAnswers(s: State, c: nat, request: Step, failed: bool)
    requires TableInv(s) && Enabled(s, Shutdown(c)) && Answers(s, c, request, failed)
    ensures var s' := Apply(s, Shutdown(c));
            c < |s'.clients| && Answers(s', c, request, failed || Fails(s, Shutdown(c), c))
  {
    hide TableInv, Pairs, Answers, Apply;
    ShutdownResult(s, c);
    ShutdownAsked(s, c, request, failed);
    ShutAnswers(Apply(s, Shutdown(c)), c);
  }

  lemma ShutdownResult(s: State, c: nat)
    requires TableInv(s) && Enabled(s, Shutdown(c))
    ensures Apply(s, Shutdown(c)).clients == s.clients[c := ShutdownDone(Pairs(s.tasks) == {})]
  {
    TidyEmpty(s.tasks);
    hide TableInv, Pairs;
  }

  lemma ShutdownAsked(s: State, c: nat, request: Step, failed: bool)
    requires c < |s.clients| && s.clients[c].ShuttingDown? && Answers(s, c, request, failed)
    ensures request == SpawnShutdown && !failed
  {
  }

  lemma ShutAnswers(s: State, c: nat)
    requires c < |s.clients| && s.clients[c].ShutdownDone?
    ensures Answers(s, c, SpawnShutdown, !s.clients[c].didShutdown)
  {
  }

  lemma OwnAnswers(s: State, step: Step, c: nat, request: Step, failed: bool)
    requires Inv(s) && Enabled(s, step) && IsStepOf(step, c)
    requires c < |s.clients| && Answers(s, c, request, failed)
    ensures var s' := Apply(s, step); c < |s'.clients| && Answers(s', c, request, failed || Fails(s, step, c))
  {
    hide Answers, Fails, Steadfast, TableInv;
    InvParts(s);
    hide Inv;
    match step
    case NewProcStep(_) => NewProcAnswers(s, c, request, failed);
    case Rollback(_) => RollbackAnswers(s, c, request, failed);
    case DeleteProcStep(_) => DeleteAnswers(s, c, request, failed);
    case Attach(_) => AttachAnswers(s, c, request, failed);
    case Shutdown(_) => ShutdownAnswers(s, c, request, failed);
    case SetProxy(_) => WiringOwn(s, step, c, request, failed);
    case StartProxy(_) => WiringOwn(s, step, c, request, failed);
    case SetCopyDone(_) => WiringOwn(s, step, c, request, failed);
    case CallReturns(_, _) => CallAnswers(s, step, c, request, failed);
    case InitArrives(_) => CallAnswers(s, step, c, request, failed);
    case _ => AgentAnswers(s, step, c, request, failed);
  }

  lemma WiringOwn(s: State, step: Step, c: nat, request: Step, failed: bool)
    requires Inv(s) && Enabled(s, step) && IsStepOf(step, c)
    requires step.SetProxy? || step.StartProxy? || step.SetCopyDone?
    requires c < |s.clients| && Answers(s, c, request, failed)
    ensures var s' := Apply(s, step); c < |s'.clients| && Answers(s', c, request, failed || Fails(s, step, c))
  {
    hide Inv, Answers, Fails, Steadfast;
    SteadfastStep(s, step);
    WiringAnswers(s, step, c, request, failed);
  }

  lemma SpawnAnswers(s: State, step: Step)
    requires Spawns(step)
    ensures var s', c := Apply(s, step), |s.clients|;
            |s'.clients| == c + 1 && Answers(s', c, step, false)
  {
  }

  // ----- every run -----

  lemma {:induction false} RunAnswers(run: seq<Step>, c: nat)
    requires After(run).Some?
    ensures |Requests(run)| == |After(run).value.clients|
    ensures if c < |Requests(run)| then Answers(After(run).value, c, Requests(run)[c], Failed(run, c))
            else !Failed(run, c)
    decreases |run|
  {
    if run != [] {
      hide Enabled, Apply, Inv, Answers, Fails, Steadfast;
      var init, last := run[..|run| - 1], run[|run| - 1];
      var s := After(init).value;
      RunInv(init);
      RunAnswers(init, c);
      ClientCount(s, last);
      if c < |s.clients| {
        if IsStepOf(last, c) {
          OwnAnswers(s, last, c, Requests(init)[c], Failed(init, c));
        } else {
          SameClient(s, last, c);
          FailsByItself(s, last, c);
          SteadfastStep(s, last);
          OthersAnswer(s, Apply(s, last), c, Requests(init)[c], Failed(init, c));
        }
      } else {
        NotYet(s, last, c);
        if Spawns(last) {
          SpawnAnswers(s, last);
        }
      }
    }
  }

  lemma ClientCount(s: State, step: Step)
    requires Enabled(s, step)
    ensures |Apply(s, step).clients| == |s.clients| + if Spawns(step) then 1 else 0
  {
    hide NewProc, Find, IoPair.SessionApply, IoPair.SessionEnabled, IoPair.InitOk, IoPair.InitFailedWith,
         IoPair.CopyDone, IoPair.NewSession;
  }

  lemma NotYet(s: State, step: Step, c: nat)
    requires c >= |s.clients|
    ensures !Fails(s, step, c)
  {
  }

  /** In every interleaving each call does what was asked, with the IDs and the proxy of its request, and it fails if
      and only if one of its steps failed: a create if newProc is refused, the task service reports an error or the
      stdio is not initialised; a delete if the task service reports an error or nothing is registered; an attach if
      there is nothing to attach to; a shutdown if a process is registered. */
  lemma AnswersAreExact(run: seq<Step>, c: nat)
    requires After(run).Some? && c < |After(run).value.clients|
    ensures c < |Requests(run)| && DoesAsAsked(After(run).value, c, Requests(run)[c])
    ensures HasFailed(After(run).value.clients[c]) <==> Failed(run, c)
  {
    hide After, DoesAsAsked, Failed;
    RunAnswers(run, c);
  }

  // ----- the task service is asked first -----

  /** The task service has consented to the call: a delete that goes on to the table, a create that goes on to wait for
      its stdio or has succeeded. */
  predicate HasConsent(client: Client) {
    (client.Deleting? && client.agentDone) || Deleted(client).Some? || client.AwaitingInit? || client.CreateOk?
  }

  /** The answer of the task service that a client needs. */
  predicate Consents(step: Step, c: nat) {
    step == AgentDeletes(c, true) || step == CallReturns(c, true)
  }

  lemma ConsentStep(s: State, step: Step, c: nat)
    requires Enabled(s, step) && c < |s.clients|
    requires c < |Apply(s, step).clients| && HasConsent(Apply(s, step).clients[c])
    ensures HasConsent(s.clients[c]) || Consents(step, c)
  {
    hide HasConsent, Enabled, Apply;
    if IsStepOf(step, c) {
      match step
      case NewProcStep(_) => NewProcConsent(s, c);
      case Rollback(_) => RollbackConsent(s, c);
      case Attach(_) => AttachConsent(s, c);
      case DeleteProcStep(_) => DeleteConsent(s, c);
      case _ => OtherConsent(s, step, c);
    } else {
      SameClient(s, step, c);
    }
  }

  lemma NewProcConsent(s: State, c: nat)
    requires Enabled(s, NewProcStep(c))
    ensures c < |s.clients| && !HasConsent(Apply(s, NewProcStep(c)).clients[c])
  {
    hide NewProc;
  }

  lemma RollbackConsent(s: State, c: nat)
    requires Enabled(s, Rollback(c))
    ensures c < |s.clients| && !HasConsent(Apply(s, Rollback(c)).clients[c])
  {
    RollbackClients(s, c);
    hide ApplyRollback;
  }

  lemma AttachConsent(s: State, c: nat)
    requires Enabled(s, Attach(c))
    ensures c < |s.clients| && !HasConsent(Apply(s, Attach(c)).clients[c])
  {
    hide Find;
  }

  lemma DeleteConsent(s: State, c: nat)
    requires Enabled(s, DeleteProcStep(c))
    ensures HasConsent(s.clients[c])
  {
  }

  lemma OtherConsent(s: State, step: Step, c: nat)
    requires Enabled(s, step) && IsStepOf(step, c) && c < |s.clients| && HasConsent(Apply(s, step).clients[c])
    requires !step.NewProcStep? && !step.Rollback? && !step.Attach? && !step.DeleteProcStep?
    ensures HasConsent(s.clients[c]) || Consents(step, c)
  {
    hide IoPair.InitOk, IoPair.InitFailedWith, IoPair.CopyDone;
  }

  lemma NoConsentYet(s: State, step: Step, c: nat)
    requires Enabled(s, step) && |s.clients| <= c < |Apply(s, step).clients|
    ensures !HasConsent(Apply(s, step).clients[c])
  {
    ClientCount(s, step);
  }

  /** In every interleaving nothing is taken out of the table, and no create or exec succeeds, before the task service
      has consented. */
  lemma {:induction false} ConsentComesFirst(run: seq<Step>, c: nat)
    requires After(run).Some? && c < |After(run).value.clients| && HasConsent(After(run).value.clients[c])
    ensures exists step <- run :: Consents(step, c)
    decreases |run|
  {
    hide HasConsent, Enabled, Apply;
    var init, last := run[..|run| - 1], run[|run| - 1];
    var s := After(init).value;
    assert run == init + [last];
    if c >= |s.clients| {
      NoConsentYet(s, last, c);
    } else {
      ConsentStep(s, last, c);
      if HasConsent(s.clients[c]) {
        ConsentComesFirst(init, c);
        var step :| step in init && Consents(step, c);
        assert step in run;
      } else {
        assert last in run;
      }
    }
  }

  // ----- which calls can return -----

  predicate HasAnswered(client: Client) {
    client.CreateOk? || client.CreateErr? || client.DeleteOk? || client.DeleteErr? || client.AttachDone?
    || client.ShutdownDone?
  }

  /** A delete that took its record out before the create had written a channel, and read none. */
  predicate Hangs(client: Client) {
    client.AwaitingCopy? && client.chan == None
  }

  /** How far a call is from its answer. */
  function CallRank(client: Client): nat {
    match client
    case Creating(_, _, _) => 8
    case HasProc(_, _) => 7
    case HasProxy(_, _) => 6
    case HasStarted(_, _) => 5
    case Calling(_, _) => 4
    case AwaitingInit(_, _) => 3
    case RollingBack(_) => 2
    case Deleting(_, _, agentDone) => if agentDone then 4 else 5
    case HasDeleted(_, _) => 3
    case AwaitingCopy(_, _, _) => 2
    case Attaching(_, _, _) => 2
    case ShuttingDown => 2
    case _ => 0
  }

  /** The next step of a call that waits for nobody. */
  function NextOf(client: Client, c: nat): Step {
    match client
    case Creating(_, _, _) => NewProcStep(c)
    case HasProc(_, _) => SetProxy(c)
    case HasProxy(_, _) => StartProxy(c)
    case HasStarted(_, _) => SetCopyDone(c)
    case Calling(_, _) => CallReturns(c, true)
    case RollingBack(_) => Rollback(c)
    case Deleting(_, _, agentDone) => if agentDone then DeleteProcStep(c) else AgentDeletes(c, true)
    case Attaching(_, _, _) => Attach(c)
    case _ => Shutdown(c)
  }

  predicate Waits(client: Client) {
    client.AwaitingInit? || client.HasDeleted? || client.AwaitingCopy?
  }

  /** Client `c` is nearer its answer. */
  ghost predicate Nearer(s: State, s': State, c: nat)
    requires c < |s.clients|
  {
    c < |s'.clients| && CallRank(s'.clients[c]) < CallRank(s.clients[c]) && !Hangs(s'.clients[c])
  }

  lemma NextIsEnabled(s: State, c: nat)
    requires Inv(s) && c < |s.clients| && !HasAnswered(s.clients[c]) && !Waits(s.clients[c])
    ensures Enabled(s, NextOf(s.clients[c], c))
  {
    hide Inv, IoPair.InitOk, IoPair.CopyDone;
    ClientOf(s, c);
  }

  lemma NextIsNearer(s: State, c: nat)
    requires c < |s.clients| && !HasAnswered(s.clients[c]) && !Waits(s.clients[c])
    requires Enabled(s, NextOf(s.clients[c], c))
    ensures Nearer(s, Apply(s, NextOf(s.clients[c], c)), c)
  {
    hide ApplyNewProc, ApplyRollback, ApplyDelete, ApplyAttach;
    match s.clients[c]
    case Creating(_, _, _) => NewProcIsNearer(s, c);
    case RollingBack(_) => RollbackClients(s, c);
    case Attaching(_, _, _) => AttachIsNearer(s, c);
    case Deleting(_, _, agentDone) => if agentDone { DeleteIsNearer(s, c); }
    case _ =>
  }

  lemma NewProcIsNearer(s: State, c: nat)
    requires Enabled(s, NewProcStep(c))
    ensures Nearer(s, ApplyNewProc(s, c), c)
  {
    hide NewProc;
  }

  lemma DeleteIsNearer(s: State, c: nat)
    requires Enabled(s, DeleteProcStep(c))
    ensures Nearer(s, ApplyDelete(s, c), c)
  {
    hide Returned, Removed;
  }

  lemma AttachIsNearer(s: State, c: nat)
    requires Enabled(s, Attach(c))
    ensures Nearer(s, ApplyAttach(s, c), c)
  {
    hide Find;
  }

  /** The streams of the client's own proxy run to their ends, and then its initialisation is known. */
  lemma InitCanArrive(run: seq<Step>, s: State, c: nat) returns (more: seq<Step>, s': State)
    requires After(run) == Some(s) && c < |s.clients| && s.clients[c].AwaitingInit?
    ensures After(run + more) == Some(s') && Nearer(s, s', c)
  {
    hide After, Inv, FreshInv, IoPair.InitOk, IoPair.InitFailedWith, IoPair.CopyDone, IoPair.SessionInv, IoPair.Failed;
    var x := s.clients[c].proxy;
    RunInv(run);
    ClientOf(s, c);
    InvParts(s);
    RunFresh(run);
    StartedWhenAwaiting(s, c);
    assert run + [] == run;
    var session;
    more, session := RunsOutFrom(run, [], s, x, 0);
    more, s' := Onward(run, more, WithSession(s, x, session), InitArrives(c));
  }

  lemma StartedWhenAwaiting(s: State, c: nat)
    requires FreshInv(s) && c < |s.clients| && s.clients[c].AwaitingInit?
    ensures s.clients[c].proxy < |s.proxies| && s.proxies[s.clients[c].proxy].started
  {
    assert FreshClient(s.clients[c], s.proxies);
  }

  /** The create of a record whose channel is not written can go on to write it. */
  lemma ChannelCanBeWritten(run: seq<Step>, s: State, c: nat) returns (more: seq<Step>, s': State)
    requires After(run) == Some(s) && c < |s.clients| && s.clients[c].HasDeleted?
    ensures After(run + more) == Some(s') && |s'.clients| == |s.clients| && s'.clients[c] == s.clients[c]
    ensures s.clients[c].proc < |s'.procs| && s'.procs[s.clients[c].proc].ioCopyDone.Some?
  {
    hide After, Inv, IoPair.InitOk, IoPair.CopyDone;
    var p := s.clients[c].proc;
    RunInv(run);
    ClientOf(s, c);
    more, s' := [], s;
    assert run + more == run;
    if s.procs[p].ioCopyDone == None {
      var d := UnwrittenCreator(run, s, p);
      if s'.clients[d].HasProc? {
        more, s' := Onward(run, more, s', SetProxy(d));
      }
      if s'.clients[d].HasProxy? {
        more, s' := Onward(run, more, s', StartProxy(d));
      }
      more, s' := Onward(run, more, s', SetCopyDone(d));
    }
  }

  lemma UnwrittenCreator(run: seq<Step>, s: State, p: nat) returns (d: nat)
    requires After(run) == Some(s) && p < |s.procs| && s.procs[p].ioCopyDone == None
    ensures d < |s.clients| && s.procs[p].own < |s.proxies|
    ensures var x := s.procs[p].own;
            s.clients[d] == HasProc(p, x) || s.clients[d] == HasProxy(p, x) || s.clients[d] == HasStarted(p, x)
  {
    hide After, Inv;
    RunInv(run);
    InvParts(s);
    assert ProcInv(s.procs[p], s.proxies);
    FlushRuns.RunCreators(run);
    assert FlushRuns.CreatorAt(s, p);
    d := s.procs[p].creator;
  }

  lemma ChannelCanBeRead(run: seq<Step>, s: State, c: nat) returns (more: seq<Step>, s': State)
    requires After(run) == Some(s) && c < |s.clients| && s.clients[c].HasDeleted?
    ensures After(run + more) == Some(s') && Nearer(s, s', c)
  {
    hide After;
    more, s' := ChannelCanBeWritten(run, s, c);
    more, s' := Onward(run, more, s', ReadChannel(c));
  }

  /** The streams behind a channel that was read run to their ends. */
  lemma CopyCanArrive(run: seq<Step>, s: State, c: nat) returns (more: seq<Step>, s': State)
    requires After(run) == Some(s) && c < |s.clients| && s.clients[c].AwaitingCopy? && s.clients[c].chan.Some?
    ensures After(run + more) == Some(s') && Nearer(s, s', c)
  {
    hide After, Inv, IoPair.InitOk, IoPair.InitFailedWith, IoPair.CopyDone, IoPair.SessionInv, IoPair.Failed;
    var x := s.clients[c].chan.value;
    RunInv(run);
    ClientOf(s, c);
    InvParts(s);
    assert run + [] == run;
    var session;
    more, session := RunsOutFrom(run, [], s, x, 0);
    more, s' := Onward(run, more, WithSession(s, x, session), CopyArrives(c));
  }

  lemma GoesOn(run: seq<Step>, s: State, c: nat) returns (more: seq<Step>, s': State)
    requires After(run) == Some(s) && c < |s.clients| && !HasAnswered(s.clients[c]) && !Hangs(s.clients[c])
    ensures After(run + more) == Some(s') && Nearer(s, s', c)
  {
    hide After, Nearer, Inv, Enabled, Apply, NextOf;
    var client := s.clients[c];
    if client.AwaitingInit? {
      more, s' := InitCanArrive(run, s, c);
    } else if client.HasDeleted? {
      more, s' := ChannelCanBeRead(run, s, c);
    } else if client.AwaitingCopy? {
      more, s' := CopyCanArrive(run, s, c);
    } else {
      RunInv(run);
      NextIsEnabled(s, c);
      NextIsNearer(s, c);
      assert run + [] == run;
      more, s' := Onward(run, [], s, NextOf(client, c));
    }
  }

  /** From every reachable state, whatever the other calls are at, a call can come to its answer, unless it is a delete
      that has read a channel not yet written. */
  lemma {:induction false} CanReturn(run: seq<Step>, s: State, c: nat) returns (more: seq<Step>, t: State)
    requires After(run) == Some(s) && c < |s.clients| && !Hangs(s.clients[c])
    ensures After(run + more) == Some(t) && c < |t.clients| && HasAnswered(t.clients[c])
    decreases CallRank(s.clients[c])
  {
    hide After, HasAnswered, Hangs, CallRank;
    if HasAnswered(s.clients[c]) {
      more, t := [], s;
      assert run + more == run;
    } else {
      var first, s1 := GoesOn(run, s, c);
      var rest;
      rest, t := CanReturn(run + first, s1, c);
      more := first + rest;
      assert run + more == run + first + rest;
    }
  }

  /** Such a delete never returns. */
  lemma {:induction false} HangsForever(run: seq<Step>, more: seq<Step>, c: nat)
    requires After(run).Some? && c < |After(run).value.clients| && Hangs(After(run).value.clients[c])
    requires After(run + more).Some?
    ensures c < |After(run + more).value.clients|
    ensures After(run + more).value.clients[c] == After(run).value.clients[c]
    decreases |more|
  {
    hide After, Enabled, Apply;
    if more == [] {
      assert run + more == run;
    } else {
      var init, last := more[..|more| - 1], more[|more| - 1];
      LastOfMore(run, more);
      HangsForever(run, init, c);
      HangsOn(After(run + init).value, last, c);
      SameClient(After(run + init).value, last, c);
    }
  }

  lemma HangsOn(s: State, step: Step, c: nat)
    requires Enabled(s, step) && c < |s.clients| && Hangs(s.clients[c])
    ensures !IsStepOf(step, c)
  {
  }

  /** So a call of which nothing is answered yet can return if and only if it is not such a delete. */
  lemma CanReturnIff(run: seq<Step>, s: State, c: nat)
    requires After(run) == Some(s) && c < |s.clients|
    ensures !Hangs(s.clients[c]) <==>
            exists more :: && After(run + more).Some? && c < |After(run + more).value.clients|
                           && HasAnswered(After(run + more).value.clients[c])
  {
    hide After;
    if Hangs(s.clients[c]) {
      forall more | After(run + more).Some? && c < |After(run + more).value.clients|
        ensures !HasAnswered(After(run + more).value.clients[c])
      {
        HangsForever(run, more, c);
      }
    } else {
      var more, t := CanReturn(run, s, c);
    }
  }

  /** It does happen: a task is deleted before its create has written the channel. */
  lemma DeleteHangs() returns (run: seq<Step>, s: State)
    ensures After(run) == Some(s) && |s.clients| == 2 && Hangs(s.clients[1])
  {
    hide After;
    run, s := BeginCreate();
    run, s := DeleteNew(run, s, "t", "");
    run, s := Go(run, s, ReadChannel(1));
  }
}
