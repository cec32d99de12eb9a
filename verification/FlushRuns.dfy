/** When DeleteProcess has flushed the proxy that was attached last (internal/vm/task.go): the creator's write of its
    own channel is not under the lock, so that it may replace the channel of an AttachIO. */
module FlushRuns {
  import opened Outcomes
  import opened ProcRegistry
  import opened TaskRuns
  import opened ProxyRuns
  import IoPair

  // ----- who is still wiring a record -----

  predicate Wiring(client: Client) {
    client.HasProc? || client.HasProxy? || client.HasStarted?
  }

  /** Until the channel is written, the creator stands where the stage of the record says. */
  ghost predicate CreatorAt(s: State, p: nat)
    requires p < |s.procs|
  {
    var proc := s.procs[p];
    && (proc.stage != Wired ==> proc.creator < |s.clients|)
    && match proc.stage
       case Fresh => s.clients[proc.creator] == HasProc(p, proc.own)
       case ProxySet => s.clients[proc.creator] == HasProxy(p, proc.own)
       case Started => s.clients[proc.creator] == HasStarted(p, proc.own)
       case Wired => true
  }

  ghost predicate CreatorsInv(s: State) {
    forall p :: 0 <= p < |s.procs| ==> CreatorAt(s, p)
  }

  /** A step of a client that does not wire, which moves no stage. */
  lemma OthersKeepCreators(s: State, s': State, c: nat)
    requires CreatorsInv(s) && |s'.procs| == |s.procs| && |s.clients| <= |s'.clients|
    requires c < |s.clients| ==> !Wiring(s.clients[c])
    requires forall d :: 0 <= d < |s.clients| && d != c ==> s'.clients[d] == s.clients[d]
    requires forall p :: 0 <= p < |s.procs| ==>
               s'.procs[p].stage == s.procs[p].stage && s'.procs[p].creator == s.procs[p].creator
               && s'.procs[p].own == s.procs[p].own
    ensures CreatorsInv(s')
  {
    forall p | 0 <= p < |s'.procs| ensures CreatorAt(s', p) {
      assert CreatorAt(s, p);
    }
  }

  lemma NewProcKeepsCreators(s: State, c: nat)
    requires CreatorsInv(s) && Enabled(s, NewProcStep(c))
    ensures CreatorsInv(ApplyNewProc(s, c))
  {
    hide NewProc;
    var s' := ApplyNewProc(s, c);
    forall p | 0 <= p < |s'.procs| ensures CreatorAt(s', p) {
      if p < |s.procs| {
        assert CreatorAt(s, p);
      }
    }
  }

  lemma WiringKeepsCreators(s: State, step: Step)
    requires Inv(s) && CreatorsInv(s) && Enabled(s, step) && (step.SetProxy? || step.StartProxy? || step.SetCopyDone?)
    ensures CreatorsInv(Apply(s, step))
  {
    hide Inv, IoPair.InitOk, IoPair.CopyDone;
    ClientOf(s, step.c);
    var s' := Apply(s, step);
    forall p | 0 <= p < |s'.procs| ensures CreatorAt(s', p) {
      assert CreatorAt(s, p);
    }
  }

  lemma SpawnKeepsCreators(s: State, step: Step)
    requires CreatorsInv(s)
    requires step.SpawnCreate? || step.SpawnDelete? || step.SpawnAttach? || step.SpawnShutdown?
    ensures CreatorsInv(Apply(s, step))
  {
    hide CreatorsInv, IoPair.NewSession;
    OthersKeepCreators(s, Apply(s, step), |s.clients|);
  }

  lemma MovesKeepCreators(s: State, step: Step)
    requires CreatorsInv(s) && Enabled(s, step)
    requires step.CallReturns? || step.InitArrives? || step.AgentDeletes? || step.ReadChannel? || step.CopyArrives?
             || step.Shutdown?
    ensures CreatorsInv(Apply(s, step))
  {
    hide CreatorsInv, IoPair.InitOk, IoPair.InitFailedWith, IoPair.CopyDone;
    OthersKeepCreators(s, Apply(s, step), step.c);
  }

  lemma ProxiesKeepCreators(s: State, step: Step)
    requires CreatorsInv(s) && Enabled(s, step) && (step.MonitorFires? || step.InitErrorCloses? || step.ProxyStep?)
    ensures CreatorsInv(Apply(s, step))
  {
    hide CreatorsInv, IoPair.SessionApply, IoPair.SessionEnabled, IoPair.InitFailedWith, IoPair.CopyDone;
    OthersKeepCreators(s, Apply(s, step), |s.clients|);
  }

  lemma RollbackKeepsCreators(s: State, c: nat)
    requires CreatorsInv(s) && Enabled(s, Rollback(c))
    ensures CreatorsInv(ApplyRollback(s, c))
  {
    hide CreatorsInv;
    OthersKeepCreators(s, ApplyRollback(s, c), c);
  }

  lemma DeleteKeepsCreators(s: State, c: nat)
    requires CreatorsInv(s) && Enabled(s, DeleteProcStep(c))
    ensures CreatorsInv(ApplyDelete(s, c))
  {
    hide CreatorsInv;
    OthersKeepCreators(s, ApplyDelete(s, c), c);
  }

  lemma AttachKeepsCreators(s: State, c: nat)
    requires CreatorsInv(s) && Enabled(s, Attach(c))
    ensures CreatorsInv(ApplyAttach(s, c))
  {
    hide CreatorsInv;
    OthersKeepCreators(s, ApplyAttach(s, c), c);
  }

  lemma CreatorsStep(s: State, step: Step)
    requires Inv(s) && CreatorsInv(s) && Enabled(s, step)
    ensures CreatorsInv(Apply(s, step))
  {
    hide Inv, CreatorsInv;
    match step
    case SpawnCreate(_, _, _, _) => SpawnKeepsCreators(s, step);
    case SpawnDelete(_, _) => SpawnKeepsCreators(s, step);
    case SpawnAttach(_, _, _, _) => SpawnKeepsCreators(s, step);
    case SpawnShutdown => SpawnKeepsCreators(s, step);
    case NewProcStep(c) => NewProcKeepsCreators(s, c);
    case SetProxy(_) => WiringKeepsCreators(s, step);
    case StartProxy(_) => WiringKeepsCreators(s, step);
    case SetCopyDone(_) => WiringKeepsCreators(s, step);
    case Rollback(c) => RollbackKeepsCreators(s, c);
    case DeleteProcStep(c) => DeleteKeepsCreators(s, c);
    case Attach(c) => AttachKeepsCreators(s, c);
    case MonitorFires(_) => ProxiesKeepCreators(s, step);
    case InitErrorCloses(_) => ProxiesKeepCreators(s, step);
    case ProxyStep(_, _) => ProxiesKeepCreators(s, step);
    case _ => MovesKeepCreators(s, step);
  }

  lemma {:induction false} RunCreators(run: seq<Step>)
    requires After(run).Some?
    ensures CreatorsInv(After(run).value)
    decreases |run|
  {
    hide Inv, Enabled, Apply;
    if run != [] {
      hide CreatorsInv;
      RunInv(run[..|run| - 1]);
      RunCreators(run[..|run| - 1]);
      CreatorsStep(After(run[..|run| - 1]).value, run[|run| - 1]);
    }
  }

  // ----- a delete remembers the truth about the create -----

  /** The delete of record `p` found its create returned. */
  predicate FoundReturned(client: Client, p: nat) {
    || client == HasDeleted(p, true)
    || (client.AwaitingCopy? && client.proc == p && client.returned)
    || (client.DeleteOk? && client.proc == p && client.returned)
  }

  lemma FoundStep(s: State, step: Step, d: nat, p: nat)
    requires Enabled(s, step) && d < |Apply(s, step).clients| && FoundReturned(Apply(s, step).clients[d], p)
    ensures (d < |s.clients| && FoundReturned(s.clients[d], p)) || Returned(s, p)
  {
    hide Enabled, Apply, Returned, FoundReturned;
    match step
    case NewProcStep(_) => TableFound(s, step, d, p);
    case Rollback(_) => TableFound(s, step, d, p);
    case Attach(_) => TableFound(s, step, d, p);
    case DeleteProcStep(c) => DeleteFound(s, c, d, p);
    case _ => OtherFound(s, step, d, p);
  }

  lemma TableFound(s: State, step: Step, d: nat, p: nat)
    requires step.NewProcStep? || step.Rollback? || step.Attach?
    requires Enabled(s, step) && d < |Apply(s, step).clients| && FoundReturned(Apply(s, step).clients[d], p)
    ensures d < |s.clients| && FoundReturned(s.clients[d], p)
  {
    hide NewProc, Find;
  }

  lemma DeleteFound(s: State, c: nat, d: nat, p: nat)
    requires Enabled(s, DeleteProcStep(c))
    requires var s' := Apply(s, DeleteProcStep(c)); d < |s'.clients| && FoundReturned(s'.clients[d], p)
    ensures (d < |s.clients| && FoundReturned(s.clients[d], p)) || Returned(s, p)
  {
    hide Returned;
  }

  lemma OtherFound(s: State, step: Step, d: nat, p: nat)
    requires !step.NewProcStep? && !step.Rollback? && !step.Attach? && !step.DeleteProcStep?
    requires Enabled(s, step) && d < |Apply(s, step).clients| && FoundReturned(Apply(s, step).clients[d], p)
    ensures d < |s.clients| && FoundReturned(s.clients[d], p)
  {
    hide IoPair.SessionApply, IoPair.SessionEnabled, IoPair.InitOk, IoPair.InitFailedWith, IoPair.CopyDone,
         IoPair.NewSession;
  }

  lemma {:induction false} RunFound(run: seq<Step>, d: nat, p: nat)
    requires After(run).Some? && d < |After(run).value.clients| && FoundReturned(After(run).value.clients[d], p)
    ensures Returned(After(run).value, p)
    decreases |run|
  {
    if run != [] {
      hide Enabled, Apply, FoundReturned, Returned;
      var init, last := run[..|run| - 1], run[|run| - 1];
      var s := After(init).value;
      FoundStep(s, last, d, p);
      if d < |s.clients| && FoundReturned(s.clients[d], p) {
        RunFound(init, d, p);
      }
      ReturnedStays(s, last, p);
    }
  }

  // ----- the promise -----

  /** If proxy `x` is the one that record `p` was given last, then every DeleteProcess of `p` that has succeeded, after
      the create had returned, has drained `x`. */
  ghost predicate Flushed(run: seq<Step>, p: nat, x: nat)
    requires After(run).Some?
  {
    var s := After(run).value;
    LastGiven(run, p) == Some(x) ==>
      forall d :: 0 <= d < |s.clients| && Deleted(s.clients[d], p) ==>
        x < |s.proxies| && IoPair.Drained(s.proxies[x].session)
  }

  predicate Deleted(client: Client, p: nat) {
    client.DeleteOk? && client.proc == p && client.returned
  }

  /** What an AttachIO of proxy `x` to record `p` has to wait for: that the create has written its own channel, unless
      it can only fail. A proxy without streams need not wait. */
  ghost predicate ChannelSettled(s: State, p: nat, x: nat)
    requires p < |s.procs| && x < |s.proxies|
  {
    || |s.proxies[x].session.pairs| == 0
    || s.procs[p].stage == Wired
    || Doomed(s.proxies, s.procs[p].own)
  }

  // ----- it is enough -----

  ghost predicate WiredAndNotOvertaken(run: seq<Step>, p: nat) {
    && After(run).Some? && p < |After(run).value.procs| && After(run).value.procs[p].stage == Wired
    && !Overtaken(run, p)
  }

  lemma {:induction false} NotOvertakenLater(run: seq<Step>, more: seq<Step>, p: nat)
    requires WiredAndNotOvertaken(run, p) && After(run + more).Some?
    ensures WiredAndNotOvertaken(run + more, p)
    decreases |more|
  {
    hide After, Enabled, Apply, Inv, LastGiven, Given, AttachesTo;
    if more == [] {
      assert run + more == run;
    } else {
      var init, last := more[..|more| - 1], more[|more| - 1];
      LastOfMore(run, more);
      NotOvertakenLater(run, init, p);
      var s := After(run + init).value;
      RunInv(run + init);
      RewiresStep(s, last, p);
      WiredIsWiredOnce(s, last, p);
    }
  }

  lemma WiredIsWiredOnce(s: State, step: Step, p: nat)
    requires Inv(s) && p < |s.procs| && s.procs[p].stage == Wired
    ensures !Wires(s, step, p)
  {
    hide Inv, IoPair.InitOk, IoPair.CopyDone;
    if step.SetCopyDone? && step.c < |s.clients| {
      ClientOf(s, step.c);
    }
  }

  lemma {:induction false} OwnLater(run: seq<Step>, more: seq<Step>, p: nat)
    requires After(run).Some? && p < |After(run).value.procs| && After(run + more).Some?
    ensures p < |After(run + more).value.procs|
    ensures After(run + more).value.procs[p].own == After(run).value.procs[p].own
    decreases |more|
  {
    hide After, Enabled, Apply, Inv, Given, Wires, AttachesTo;
    if more == [] {
      assert run + more == run;
    } else {
      var init, last := more[..|more| - 1], more[|more| - 1];
      LastOfMore(run, more);
      OwnLater(run, init, p);
      RunInv(run + init);
      RewiresStep(After(run + init).value, last, p);
    }
  }

  /** A create whose proxy is doomed does not return, so no delete finds it returned. */
  lemma DoomedIsNotDeleted(run: seq<Step>, p: nat, d: nat)
    requires After(run).Some? && p < |After(run).value.procs| && d < |After(run).value.clients|
    requires Doomed(After(run).value.proxies, After(run).value.procs[p].own)
    ensures !Deleted(After(run).value.clients[d], p)
  {
    hide After, Inv, IoPair.Failed, IoPair.InitOk, IoPair.CopyDone, IoPair.SessionInv;
    var s := After(run).value;
    RunInv(run);
    InvParts(s);
    IoPair.SessionReports(s.proxies[s.procs[p].own].session);
    if Returned(s, p) {
      ClientOf(s, s.procs[p].creator);
    }
    if Deleted(s.clients[d], p) {
      RunFound(run, d, p);
    }
  }

  /** The last proxy given is drained if the record was wired before it was attached. */
  lemma WiredIsFlushed(run: seq<Step>, p: nat, x: nat)
    requires WiredAndNotOvertaken(run, p)
    ensures Flushed(run, p, x)
  {
    hide After, LastGiven, Overtaken, IoPair.Drained;
    var s := After(run).value;
    forall d | 0 <= d < |s.clients| && Deleted(s.clients[d], p) && LastGiven(run, p) == Some(x)
      ensures x < |s.proxies| && IoPair.Drained(s.proxies[x].session)
    {
      DeletedIsDrained(run, d);
    }
  }

  lemma SettledIsFlushed(run: seq<Step>, s: State, c: nat, p: nat, x: nat, more: seq<Step>)
    requires After(run) == Some(s) && Attaches(s, Attach(c), p, x) && p < |s.procs| && x < |s.proxies|
    requires ChannelSettled(s, p, x) && After(run + [Attach(c)] + more).Some?
    ensures Flushed(run + [Attach(c)] + more, p, x)
  {
    hide After, LastGiven, IoPair.Failed, Inv, FreshInv, Untouched, ApplyAttach, Enabled;
    var run1 := run + [Attach(c)];
    var s1 := Attached(run, s, c, p, x);
    var t := After(run1 + more).value;
    if |s.proxies[x].session.pairs| == 0 {
      ProxyLater(run1, more, x);
    } else if s.procs[p].stage == Wired {
      AttachIsNotOvertaken(run, s, c, p, x);
      NotOvertakenLater(run1, more, p);
      hide Overtaken;
      WiredIsFlushed(run1 + more, p, x);
    } else {
      var own := s.procs[p].own;
      assert s1.procs[p].own == own by { RunInv(run); RewiresStep(s, Attach(c), p); StageAfterAttach(s, c, p); }
      OwnLater(run1, more, p);
      ProxyLater(run1, more, own);
      forall d | 0 <= d < |t.clients| ensures !Deleted(t.clients[d], p) {
        DoomedIsNotDeleted(run1 + more, p, d);
      }
    }
  }

  lemma StageAfterAttach(s: State, c: nat, p: nat)
    requires Enabled(s, Attach(c)) && p < |s.procs|
    ensures var s' := ApplyAttach(s, c);
            p < |s'.procs| && s'.procs[p].stage == s.procs[p].stage && s'.procs[p].own == s.procs[p].own
  {
  }

  lemma AttachIsNotOvertaken(run: seq<Step>, s: State, c: nat, p: nat, x: nat)
    requires After(run) == Some(s) && Attaches(s, Attach(c), p, x) && p < |s.procs| && s.procs[p].stage == Wired
    ensures WiredAndNotOvertaken(run + [Attach(c)], p)
  {
    var run1 := run + [Attach(c)];
    assert run1[..|run1| - 1] == run && run1[|run1| - 1] == Attach(c);
    StageAfterAttach(s, c, p);
  }

  // ----- and it is needed -----

  /** A create that still has to write its channel and can succeed: it does, and then the process is deleted while the
      attached proxy has not opened a stream. */
  lemma UnsettledIsNotFlushed(run: seq<Step>, s: State, c: nat, p: nat, x: nat) returns (more: seq<Step>)
    requires After(run) == Some(s) && Attaches(s, Attach(c), p, x) && p < |s.procs| && x < |s.proxies|
    requires !ChannelSettled(s, p, x)
    ensures After(run + [Attach(c)] + more).Some? && !Flushed(run + [Attach(c)] + more, p, x)
  {
    hide After, LastGiven, IoPair.Failed, IoPair.CopyDone, Inv, FreshInv, ApplyAttach, Enabled;
    var run1 := run + [Attach(c)];
    assert run1 + [] == run1;
    var s1 := Attached(run, s, c, p, x);
    var d := PendingCreator(run, s, c, p);
    PendingIsElsewhere(run, s, d, p, c);
    var t;
    more, t := PendingReturns(run1, [], s1, d, p, x);
    var run', t' := DeleteOutright(run1 + more, t, s.clients[c].taskID, s.clients[c].execID, s.procs[p].own);
    more := run'[|run1|..];
    assert run1 + more == run';
    RunGiven(run', p);
    assert Deleted(t'.clients[|t.clients|], p);
    assert t'.proxies[x].session.pairs[0] == IoPair.NEW_PAIR;
  }

  /** A returned process is deleted, and the channel of proxy `y`, which it has, has reported. */
  lemma DeleteOutright(run: seq<Step>, s: State, t: string, e: string, y: nat) returns (run': seq<Step>, s': State)
    requires After(run) == Some(s) && Has(s.tasks, t, e) && s.tasks[t][e] < |s.procs|
    requires Returned(s, s.tasks[t][e]) && s.procs[s.tasks[t][e]].ioCopyDone == Some(y)
    requires y < |s.proxies| && IoPair.CopyDone(s.proxies[y].session)
    ensures var p := s.tasks[t][e];
            && run <= run' && After(run') == Some(s') && s'.proxies == s.proxies
            && |s'.procs| == |s.procs| && s'.procs[p].proxy == s.procs[p].proxy
            && |s'.clients| == |s.clients| + 1 && s'.clients[|s.clients|] == DeleteOk(p, y, true)
  {
    hide After, IoPair.CopyDone, DeleteProc;
    var d := |s.clients|;
    run', s' := DeleteNew(run, s, t, e);
    run', s' := Go(run', s', ReadChannel(d));
    run', s' := Go(run', s', CopyArrives(d));
  }

  /** The creator of a record that was found by AttachIO and is not wired. */
  lemma PendingCreator(run: seq<Step>, s: State, c: nat, p: nat) returns (d: nat)
    requires After(run) == Some(s) && AttachesTo(s, Attach(c), p) && p < |s.procs| && s.procs[p].stage != Wired
    ensures d == s.procs[p].creator && d < |s.clients| && d != c
    ensures s.clients[d] == HasProxy(p, s.procs[p].own) || s.clients[d] == HasStarted(p, s.procs[p].own)
  {
    hide After, Inv;
    RunInv(run);
    InvParts(s);
    assert ProcInv(s.procs[p], s.proxies);
    RunCreators(run);
    assert CreatorAt(s, p);
    d := s.procs[p].creator;
  }

  /** Exactly when an AttachIO may go ahead so that deletes flush its proxy: in every continuation in which it is still
      the proxy given last, whatever else happens, each DeleteProcess of the process that succeeded after the create had
      returned has drained it, if and only if the proxy has no streams, or the create has written its own channel, or
      the create can only fail. */
  lemma AttachIsFlushedIff(run: seq<Step>, s: State, c: nat, p: nat, x: nat)
    requires After(run) == Some(s) && Attaches(s, Attach(c), p, x)
    ensures p < |s.procs| && x < |s.proxies|
    ensures ChannelSettled(s, p, x) <==>
            forall more :: After(run + [Attach(c)] + more).Some? ==> Flushed(run + [Attach(c)] + more, p, x)
  {
    hide After, Inv, FreshInv, Enabled, ApplyAttach, Find, ChannelSettled, Flushed, Untouched;
    var s1 := Attached(run, s, c, p, x);
    if ChannelSettled(s, p, x) {
      forall more | After(run + [Attach(c)] + more).Some? ensures Flushed(run + [Attach(c)] + more, p, x) {
        SettledIsFlushed(run, s, c, p, x, more);
      }
    } else {
      var more := UnsettledIsNotFlushed(run, s, c, p, x);
      assert After(run + [Attach(c)] + more).Some? && !Flushed(run + [Attach(c)] + more, p, x);
    }
  }
}
