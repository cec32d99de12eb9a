/** When a proxy may be marked closed (internal/vm/task.go): monitorIO closes the proxy that a record has when the
    channel it watches reports, which need not be the proxy of that channel. */
module ProxyRuns {
  import opened Outcomes
  import opened ProcRegistry
  import opened TaskRuns
  import IoPair

  /** A create of record `p` that has set its proxy and not yet returned. */
  predicate Pending(client: Client, p: nat) {
    (client.HasProxy? || client.HasStarted? || client.Calling? || client.AwaitingInit?) && client.proc == p
  }

  /** The streams of the proxy can no longer all be initialised. */
  ghost predicate Doomed(proxies: seq<Proxy>, x: nat) {
    x < |proxies| && IoPair.Failed(proxies[x].session)
  }

  /** The create of record `p` has returned, or can only fail. */
  ghost predicate Settled(s: State, p: nat) {
    forall c :: 0 <= c < |s.clients| && Pending(s.clients[c], p) ==> Doomed(s.proxies, s.clients[c].proxy)
  }

  ghost predicate AllFired(s: State, p: nat) {
    forall m :: 0 <= m < |s.monitors| && s.monitors[m].proc == p ==> s.monitors[m].fired
  }

  /** What an AttachIO on record `p` has to wait for. */
  ghost predicate Safe(s: State, p: nat) {
    Settled(s, p) && AllFired(s, p)
  }

  /** The step attaches proxy `x` to record `p`. */
  predicate Attaches(s: State, step: Step, p: nat, x: nat) {
    step.Attach? && Given(s, step, p) == Some(x)
  }

  /** Whenever the run attached proxy `x` it was safe. This says nothing about the proxies that creates bring. */
  ghost predicate SafelyAttached(run: seq<Step>, x: nat)
    decreases |run|
  {
    run == [] ||
    var init, last := run[..|run| - 1], run[|run| - 1];
    && SafelyAttached(init, x)
    && (After(init).Some? ==> forall p :: Attaches(After(init).value, last, p, x) ==> Safe(After(init).value, p))
  }

  // ----- the invariant -----

  /** All streams have ended, or the proxy of an attach has reported that it could not be initialised. */
  ghost predicate Quiet(p: Proxy) {
    IoPair.CopyDone(p.session) || (p.forAttach && IoPair.InitFailedWith(p.session))
  }

  /** While record `p` has proxy `x`, nobody watches it, or will, on behalf of another proxy. */
  ghost predicate Watched(s: State, p: nat, x: nat) {
    && (forall m :: 0 <= m < |s.monitors| && s.monitors[m].proc == p && !s.monitors[m].fired ==>
        s.monitors[m].chan == x)
    && (forall c :: 0 <= c < |s.clients| && Pending(s.clients[c], p) ==>
          s.clients[c].proxy == x || Doomed(s.proxies, s.clients[c].proxy))
  }

  ghost predicate AllWatched(s: State, x: nat) {
    forall p :: 0 <= p < |s.procs| && s.procs[p].proxy == Some(x) ==> Watched(s, p, x)
  }

  ghost predicate ClosedQuiet(s: State, x: nat) {
    x < |s.proxies| && s.proxies[x].closed ==> Quiet(s.proxies[x])
  }

  ghost predicate MonitorsPlaced(s: State) {
    forall m :: 0 <= m < |s.monitors| ==> s.monitors[m].proc < |s.procs| && s.procs[s.monitors[m].proc].proxy.Some?
  }

  ghost predicate WatchInv(s: State, x: nat) {
    AllWatched(s, x) && ClosedQuiet(s, x) && MonitorsPlaced(s)
  }

  /** Nothing happens that WatchInv speaks about, except that records, proxies and reports are added. */
  ghost predicate Calm(s: State, s': State) {
    && s'.monitors == s.monitors && |s.procs| <= |s'.procs| && |s.proxies| <= |s'.proxies|
    && (forall p :: 0 <= p < |s.procs| ==> s'.procs[p].proxy == s.procs[p].proxy)
    && (forall p :: |s.procs| <= p < |s'.procs| ==> s'.procs[p].proxy == None)
    && (forall x :: 0 <= x < |s.proxies| ==>
          && s'.proxies[x].closed == s.proxies[x].closed && s'.proxies[x].forAttach == s.proxies[x].forAttach
          && IoPair.Persists(s.proxies[x].session, s'.proxies[x].session))
    && (forall x :: |s.proxies| <= x < |s'.proxies| ==> !s'.proxies[x].closed)
    && forall c, p :: 0 <= c < |s'.clients| && Pending(s'.clients[c], p) ==>
         c < |s.clients| && Pending(s.clients[c], p) && s'.clients[c].proxy == s.clients[c].proxy
  }

  lemma CalmKeeps(s: State, s': State, x: nat)
    requires WatchInv(s, x) && Calm(s, s')
    ensures WatchInv(s', x)
  {
    hide IoPair.CopyDone, IoPair.InitFailedWith, IoPair.InitOk, IoPair.Failed;
    forall p | 0 <= p < |s'.procs| && s'.procs[p].proxy == Some(x) ensures Watched(s', p, x) {
      assert Watched(s, p, x);
      forall c | 0 <= c < |s'.clients| && Pending(s'.clients[c], p)
        ensures s'.clients[c].proxy == x || Doomed(s'.proxies, s'.clients[c].proxy)
      {
        assert Pending(s.clients[c], p);
      }
    }
  }

  lemma PersistsSelf(s: IoPair.Session)
    ensures IoPair.Persists(s, s)
  {
  }

  lemma AllPersist(s: State)
    ensures forall x :: 0 <= x < |s.proxies| ==> IoPair.Persists(s.proxies[x].session, s.proxies[x].session)
  {
    hide IoPair.Persists;
    forall x | 0 <= x < |s.proxies| ensures IoPair.Persists(s.proxies[x].session, s.proxies[x].session) {
      PersistsSelf(s.proxies[x].session);
    }
  }

  lemma SpawnIsCalm(s: State, step: Step)
    requires step.SpawnCreate? || step.SpawnDelete? || step.SpawnAttach? || step.SpawnShutdown?
    ensures Calm(s, Apply(s, step))
  {
    hide IoPair.Persists, IoPair.NewSession;
    AllPersist(s);
  }

  lemma CreateIsCalm(s: State, step: Step)
    requires Enabled(s, step) && (step.StartProxy? || step.SetCopyDone? || step.CallReturns?)
    ensures Calm(s, Apply(s, step))
  {
    hide IoPair.Persists;
    AllPersist(s);
  }

  lemma DeletingIsCalm(s: State, step: Step)
    requires Enabled(s, step) && (step.AgentDeletes? || step.ReadChannel? || step.CopyArrives? || step.Shutdown?)
    ensures Calm(s, Apply(s, step))
  {
    hide IoPair.Persists, IoPair.CopyDone;
    AllPersist(s);
  }

  lemma NewProcIsCalm(s: State, c: nat)
    requires Inv(s) && Enabled(s, NewProcStep(c))
    ensures Calm(s, ApplyNewProc(s, c))
  {
    hide IoPair.Persists, Inv, NewProc;
    AllPersist(s);
  }

  lemma RollbackIsCalm(s: State, c: nat)
    requires Enabled(s, Rollback(c))
    ensures Calm(s, ApplyRollback(s, c))
  {
    hide IoPair.Persists;
    AllPersist(s);
  }

  lemma DeleteIsCalm(s: State, c: nat)
    requires Enabled(s, DeleteProcStep(c))
    ensures Calm(s, ApplyDelete(s, c))
  {
    hide IoPair.Persists;
    AllPersist(s);
  }

  lemma ProxyIsCalm(s: State, y: nat, session: IoPair.Session)
    requires y < |s.proxies| && IoPair.Persists(s.proxies[y].session, session)
    ensures Calm(s, s.(proxies := s.proxies[y := s.proxies[y].(session := session)]))
  {
    hide IoPair.Persists;
    AllPersist(s);
  }

  /** The creating client sets its proxy before anybody watches the record. */
  lemma SetProxyKeepsWatch(s: State, c: nat, x: nat)
    requires Inv(s) && WatchInv(s, x) && Enabled(s, SetProxy(c))
    ensures WatchInv(Apply(s, SetProxy(c)), x)
  {
    hide TableInv, ProxiesInv, IoPair.Failed, IoPair.InitOk, IoPair.CopyDone, IoPair.InitFailedWith;
    var HasProc(q, y) := s.clients[c];
    var s' := Apply(s, SetProxy(c));
    assert ClientInv(c, s.clients[c], s.procs, s.proxies) && ProcInv(s.procs[q], s.proxies);
    forall p | 0 <= p < |s'.procs| && s'.procs[p].proxy == Some(x) ensures Watched(s', p, x) {
      if p != q {
        assert Watched(s, p, x);
      }
    }
  }

  lemma InitArrivesKeepsWatch(s: State, c: nat, x: nat)
    requires Inv(s) && WatchInv(s, x) && Enabled(s, InitArrives(c))
    ensures WatchInv(Apply(s, InitArrives(c)), x)
  {
    hide TableInv, IoPair.Failed, IoPair.InitOk, IoPair.CopyDone, IoPair.InitFailedWith, IoPair.SessionInv;
    var AwaitingInit(q, y) := s.clients[c];
    var s' := Apply(s, InitArrives(c));
    assert ClientInv(c, s.clients[c], s.procs, s.proxies) && ProcInv(s.procs[q], s.proxies);
    assert Pending(s.clients[c], q);
    if IoPair.InitOk(s.proxies[y].session) {
      IoPair.SessionReports(s.proxies[y].session);
    }
    forall p | 0 <= p < |s'.procs| && s'.procs[p].proxy == Some(x) ensures Watched(s', p, x) {
      assert Watched(s, p, x);
    }
  }

  lemma MonitorKeepsWatch(s: State, m: nat, x: nat)
    requires WatchInv(s, x) && Enabled(s, MonitorFires(m))
    ensures WatchInv(Apply(s, MonitorFires(m)), x)
  {
    hide IoPair.Failed, IoPair.InitOk, IoPair.CopyDone, IoPair.InitFailedWith;
    var s' := Apply(s, MonitorFires(m));
    var q := s.monitors[m].proc;
    if s.procs[q].proxy == Some(x) {
      assert Watched(s, q, x);
    }
    forall p | 0 <= p < |s'.procs| && s'.procs[p].proxy == Some(x) ensures Watched(s', p, x) {
      assert Watched(s, p, x);
    }
  }

  lemma InitErrorKeepsWatch(s: State, y: nat, x: nat)
    requires WatchInv(s, x) && Enabled(s, InitErrorCloses(y))
    ensures WatchInv(Apply(s, InitErrorCloses(y)), x)
  {
    hide IoPair.Failed, IoPair.InitOk, IoPair.CopyDone, IoPair.InitFailedWith;
    var s' := Apply(s, InitErrorCloses(y));
    forall p | 0 <= p < |s'.procs| && s'.procs[p].proxy == Some(x) ensures Watched(s', p, x) {
      assert Watched(s, p, x);
    }
  }

  lemma AttachKeepsWatch(s: State, c: nat, x: nat)
    requires WatchInv(s, x) && Enabled(s, Attach(c))
    requires forall p :: Attaches(s, Attach(c), p, x) ==> Safe(s, p)
    ensures WatchInv(ApplyAttach(s, c), x)
  {
    hide IoPair.Failed, IoPair.InitOk, IoPair.CopyDone, IoPair.InitFailedWith;
    var Attaching(t, e, y) := s.clients[c];
    var s' := ApplyAttach(s, c);
    match Find(s, t, e)
    case None =>
      forall p | 0 <= p < |s'.procs| && s'.procs[p].proxy == Some(x) ensures Watched(s', p, x) {
        assert Watched(s, p, x);
      }
    case Some(q) =>
      assert y == x ==> Attaches(s, Attach(c), q, x);
      forall p | 0 <= p < |s'.procs| && s'.procs[p].proxy == Some(x) ensures Watched(s', p, x) {
        if p != q {
          assert Watched(s, p, x);
        }
      }
  }

  lemma ProxyKeepsWatch(s: State, y: nat, st: IoPair.SessionStep, x: nat)
    requires ProxiesInv(s.proxies) && WatchInv(s, x) && Enabled(s, ProxyStep(y, st))
    ensures WatchInv(Apply(s, ProxyStep(y, st)), x)
  {
    hide WatchInv, Calm, IoPair.SessionInv, IoPair.SessionApply, IoPair.SessionEnabled, IoPair.Persists;
    IoPair.SessionInvStep(s.proxies[y].session, st);
    ProxyIsCalm(s, y, IoPair.SessionApply(s.proxies[y].session, st));
    CalmKeeps(s, Apply(s, ProxyStep(y, st)), x);
  }

  lemma WatchStep(s: State, step: Step, x: nat)
    requires Inv(s) && WatchInv(s, x) && Enabled(s, step)
    requires forall p :: Attaches(s, step, p, x) ==> Safe(s, p)
    ensures WatchInv(Apply(s, step), x)
  {
    hide TableInv, ProcsInv, ClientsInv, ProxiesInv, WatchInv, Calm, Attaches, Safe;
    match step
    case SetProxy(c) => SetProxyKeepsWatch(s, c, x);
    case InitArrives(c) => InitArrivesKeepsWatch(s, c, x);
    case MonitorFires(m) => MonitorKeepsWatch(s, m, x);
    case InitErrorCloses(y) => InitErrorKeepsWatch(s, y, x);
    case Attach(c) => AttachKeepsWatch(s, c, x);
    case NewProcStep(c) => NewProcIsCalm(s, c); CalmKeeps(s, Apply(s, step), x);
    case Rollback(c) => RollbackIsCalm(s, c); CalmKeeps(s, Apply(s, step), x);
    case DeleteProcStep(c) => DeleteIsCalm(s, c); CalmKeeps(s, Apply(s, step), x);
    case ProxyStep(y, st) => ProxyKeepsWatch(s, y, st, x);
    case StartProxy(_) => CreateIsCalm(s, step); CalmKeeps(s, Apply(s, step), x);
    case SetCopyDone(_) => CreateIsCalm(s, step); CalmKeeps(s, Apply(s, step), x);
    case CallReturns(_, _) => CreateIsCalm(s, step); CalmKeeps(s, Apply(s, step), x);
    case AgentDeletes(_, _) => DeletingIsCalm(s, step); CalmKeeps(s, Apply(s, step), x);
    case ReadChannel(_) => DeletingIsCalm(s, step); CalmKeeps(s, Apply(s, step), x);
    case CopyArrives(_) => DeletingIsCalm(s, step); CalmKeeps(s, Apply(s, step), x);
    case Shutdown(_) => DeletingIsCalm(s, step); CalmKeeps(s, Apply(s, step), x);
    case _ => SpawnIsCalm(s, step); CalmKeeps(s, Apply(s, step), x);
  }

  lemma {:induction false} RunWatch(run: seq<Step>, x: nat)
    requires After(run).Some? && SafelyAttached(run, x)
    ensures WatchInv(After(run).value, x)
    decreases |run|
  {
    hide Inv, Enabled, Apply, WatchInv, Attaches, Safe;
    if run == [] {
      NothingWatched(x);
    } else {
      RunInv(run[..|run| - 1]);
      RunWatch(run[..|run| - 1], x);
      WatchStep(After(run[..|run| - 1]).value, run[|run| - 1], x);
    }
  }

  lemma NothingWatched(x: nat)
    ensures WatchInv(INIT, x)
  {
  }

  /** In every run, a proxy that is marked closed has been drained, or was attached and has reported that it could not
      be initialised; provided that, if an AttachIO brought it, it waited for the create of the process to return or
      fail and for the monitors of all its earlier proxies. */
  lemma ClosedIsDrained(run: seq<Step>, x: nat)
    requires After(run).Some? && SafelyAttached(run, x)
    requires x < |After(run).value.proxies| && After(run).value.proxies[x].closed
    ensures var p := After(run).value.proxies[x];
            IoPair.Drained(p.session) || (p.forAttach && IoPair.InitFailedWith(p.session))
  {
    hide TableInv, ProcsInv, ClientsInv, AllWatched, MonitorsPlaced, IoPair.SessionInv, IoPair.Drained, After,
        SafelyAttached;
    RunInv(run);
    RunWatch(run, x);
    IoPair.SessionReports(After(run).value.proxies[x].session);
  }

  // ----- what no step changes about a proxy -----

  /** A proxy keeps its kind and its number of streams, that it was started, and what its streams reported or
      suffered. */
  ghost predicate SameProxy(p: Proxy, p': Proxy) {
    && (p.started ==> p'.started)
    && p'.forAttach == p.forAttach && p'.isNull == p.isNull && |p'.session.pairs| == |p.session.pairs|
    && IoPair.Persists(p.session, p'.session)
  }

  lemma SameSession(p: Proxy, p': Proxy)
    requires p'.forAttach == p.forAttach && p'.isNull == p.isNull && p'.session == p.session
    requires p.started ==> p'.started
    ensures SameProxy(p, p')
  {
    PersistsSelf(p.session);
  }

  lemma ProxyStays(s: State, step: Step, x: nat)
    requires ProxiesInv(s.proxies) && Enabled(s, step) && x < |s.proxies|
    ensures x < |Apply(s, step).proxies| && SameProxy(s.proxies[x], Apply(s, step).proxies[x])
  {
    hide SameProxy, ProxiesInv, Enabled, Apply;
    match step
    case ProxyStep(y, st) => StreamStays(s, y, st, x);
    case NewProcStep(_) => TableProxySteps(s, step, x);
    case Rollback(_) => TableProxySteps(s, step, x);
    case DeleteProcStep(_) => TableProxySteps(s, step, x);
    case _ => OtherProxySteps(s, step, x);
  }

  lemma StreamStays(s: State, y: nat, st: IoPair.SessionStep, x: nat)
    requires ProxiesInv(s.proxies) && Enabled(s, ProxyStep(y, st)) && x < |s.proxies|
    ensures var s' := Apply(s, ProxyStep(y, st)); x < |s'.proxies| && SameProxy(s.proxies[x], s'.proxies[x])
  {
    hide SameProxy, IoPair.SessionInv, IoPair.SessionApply, IoPair.SessionEnabled;
    if x == y {
      IoPair.SessionInvStep(s.proxies[x].session, st);
      IoPair.StreamRankStep(s.proxies[x].session, st);
      SteppedProxy(s.proxies[x], IoPair.SessionApply(s.proxies[x].session, st));
    } else {
      SameSession(s.proxies[x], s.proxies[x]);
    }
  }

  lemma TableProxySteps(s: State, step: Step, x: nat)
    requires Enabled(s, step) && (step.NewProcStep? || step.Rollback? || step.DeleteProcStep?) && x < |s.proxies|
    ensures x < |Apply(s, step).proxies| && SameProxy(s.proxies[x], Apply(s, step).proxies[x])
  {
    hide SameProxy, NewProc;
    assert Apply(s, step).proxies == s.proxies;
    SameSession(s.proxies[x], s.proxies[x]);
  }

  lemma SteppedProxy(p: Proxy, session: IoPair.Session)
    requires |session.pairs| == |p.session.pairs| && IoPair.Persists(p.session, session)
    ensures SameProxy(p, p.(session := session))
  {
  }

  lemma OtherProxySteps(s: State, step: Step, x: nat)
    requires Enabled(s, step) && x < |s.proxies|
    requires !step.ProxyStep? && !step.NewProcStep? && !step.Rollback? && !step.DeleteProcStep?
    ensures x < |Apply(s, step).proxies| && SameProxy(s.proxies[x], Apply(s, step).proxies[x])
  {
    hide SameProxy, IoPair.InitOk, IoPair.InitFailedWith, IoPair.CopyDone, IoPair.NewSession;
    SameSession(s.proxies[x], Apply(s, step).proxies[x]);
  }

  lemma NewNull(s: State, step: Step, x: nat)
    requires Enabled(s, step) && |s.proxies| <= x < |Apply(s, step).proxies| && Apply(s, step).proxies[x].isNull
    ensures |Apply(s, step).proxies[x].session.pairs| == 0
  {
    hide NewProc, Find, IoPair.SessionApply, IoPair.SessionEnabled, IoPair.InitOk, IoPair.InitFailedWith,
         IoPair.CopyDone;
  }

  lemma {:induction false} NullHasNoStreams(run: seq<Step>, x: nat)
    requires After(run).Some? && x < |After(run).value.proxies| && After(run).value.proxies[x].isNull
    ensures |After(run).value.proxies[x].session.pairs| == 0
    decreases |run|
  {
    if run != [] {
      hide Apply, Enabled, Inv, IoPair.Persists;
      var init, last := run[..|run| - 1], run[|run| - 1];
      var s := After(init).value;
      if x < |s.proxies| {
        RunInv(init);
        InvParts(s);
        ProxyStays(s, last, x);
        NullHasNoStreams(init, x);
      } else {
        NewNull(s, last, x);
      }
    }
  }

  /** The last step of a continuation. */
  lemma LastOfMore(run: seq<Step>, more: seq<Step>)
    requires more != [] && After(run + more).Some?
    ensures var all, init, last := run + more, more[..|more| - 1], more[|more| - 1];
            && all[..|all| - 1] == run + init && all[|all| - 1] == last
            && After(run + init).Some? && Enabled(After(run + init).value, last)
            && After(all).value == Apply(After(run + init).value, last)
  {
    hide Enabled, Apply;
    var all, init := run + more, more[..|more| - 1];
    assert all[..|all| - 1] == run + init;
  }

  lemma {:induction false} ProxyLater(run: seq<Step>, more: seq<Step>, x: nat)
    requires After(run).Some? && x < |After(run).value.proxies| && After(run + more).Some?
    ensures x < |After(run + more).value.proxies|
    ensures var p, q := After(run).value.proxies[x], After(run + more).value.proxies[x];
            |q.session.pairs| == |p.session.pairs| && (IoPair.Failed(p.session) ==> IoPair.Failed(q.session))
    decreases |more|
  {
    hide After, Enabled, Apply, Inv, IoPair.Failed, IoPair.CopyDone, IoPair.InitOk, IoPair.InitFailedWith;
    if more == [] {
      assert run + more == run;
    } else {
      var init, last := more[..|more| - 1], more[|more| - 1];
      LastOfMore(run, more);
      ProxyLater(run, init, x);
      RunInv(run + init);
      InvParts(After(run + init).value);
      ProxyStays(After(run + init).value, last, x);
    }
  }

  lemma NullStaysOpen(s: State, step: Step, x: nat)
    requires Enabled(s, step) && x < |Apply(s, step).proxies| && Apply(s, step).proxies[x].closed
    ensures !Apply(s, step).proxies[x].isNull || (x < |s.proxies| && s.proxies[x].closed && s.proxies[x].isNull)
  {
    hide NewProc, Find, IoPair.SessionApply, IoPair.SessionEnabled, IoPair.InitOk, IoPair.InitFailedWith,
         IoPair.CopyDone, IoPair.NewSession;
  }

  /** A null proxy, which has nothing to close, is never marked closed. */
  lemma {:induction false} NullIsNeverClosed(run: seq<Step>, x: nat)
    requires After(run).Some? && x < |After(run).value.proxies| && After(run).value.proxies[x].isNull
    ensures !After(run).value.proxies[x].closed
    decreases |run|
  {
    hide Enabled, Apply;
    if After(run).value.proxies[x].closed {
      NullStaysOpen(After(run[..|run| - 1]).value, run[|run| - 1], x);
      NullIsNeverClosed(run[..|run| - 1], x);
    }
  }

  /** The proxy that a create brought is attached by nobody. */
  lemma {:induction false} CreatedNeverAttached(run: seq<Step>, x: nat)
    requires After(run).Some? && (x < |After(run).value.proxies| ==> !After(run).value.proxies[x].forAttach)
    ensures SafelyAttached(run, x)
    decreases |run|
  {
    if run != [] {
      hide Apply, Enabled, Safe, Inv, SameProxy, Attaches;
      var init, last := run[..|run| - 1], run[|run| - 1];
      var s := After(init).value;
      RunInv(init);
      InvParts(s);
      if x < |s.proxies| {
        ProxyStays(s, last, x);
        assert s.proxies[x].forAttach == After(run).value.proxies[x].forAttach by { KindStays(s, last, x); }
      }
      CreatedNeverAttached(init, x);
      NotForAttach(s, last, x);
    }
  }

  lemma KindStays(s: State, step: Step, x: nat)
    requires Enabled(s, step) && x < |s.proxies| && x < |Apply(s, step).proxies|
    requires SameProxy(s.proxies[x], Apply(s, step).proxies[x])
    ensures s.proxies[x].forAttach == Apply(s, step).proxies[x].forAttach
  {
  }

  lemma NotForAttach(s: State, step: Step, x: nat)
    requires Inv(s) && (x < |s.proxies| ==> !s.proxies[x].forAttach)
    ensures forall p :: !Attaches(s, step, p, x)
  {
    hide Inv, IoPair.InitOk, IoPair.CopyDone;
    if step.Attach? && step.c < |s.clients| {
      ClientOf(s, step.c);
    }
  }

  /** So for the proxy that a create brought, closed means drained, in every run. */
  lemma CreatedClosedIsDrained(run: seq<Step>, x: nat)
    requires After(run).Some? && x < |After(run).value.proxies|
    requires After(run).value.proxies[x].closed && !After(run).value.proxies[x].forAttach
    ensures IoPair.Drained(After(run).value.proxies[x].session)
  {
    hide After, SafelyAttached, IoPair.Drained, IoPair.InitFailedWith;
    CreatedNeverAttached(run, x);
    ClosedIsDrained(run, x);
  }

  /** In particular it is safe to attach once the create has returned and every monitor of the record has closed its
      proxy. */
  lemma OrderlyIsSafe(run: seq<Step>, p: nat)
    requires After(run).Some? && p < |After(run).value.procs|
    requires Returned(After(run).value, p) && AllFired(After(run).value, p)
    ensures Safe(After(run).value, p)
  {
    hide After, TableInv, ProcsInv, ProxiesInv, IoPair.InitOk, IoPair.CopyDone;
    RunInv(run);
    var s := After(run).value;
    forall c | 0 <= c < |s.clients| ensures !Pending(s.clients[c], p) {
      assert ClientInv(c, s.clients[c], s.procs, s.proxies);
    }
  }

  // ----- proxies that were not started yet -----

  /** The create has started its proxy. */
  predicate Running(client: Client) {
    client.HasStarted? || client.Calling? || client.AwaitingInit?
  }

  ghost predicate Untouched(session: IoPair.Session) {
    && |session.initGot| == |session.pairs|
    && forall i :: 0 <= i < |session.pairs| ==>
        session.pairs[i] == IoPair.NEW_PAIR && session.initGot[i] == IoPair.Waiting
  }

  ghost predicate FreshClient(client: Client, proxies: seq<Proxy>) {
    && (client.Attaching? ==> client.proxy < |proxies| && !proxies[client.proxy].started)
    && (Running(client) ==> client.proxy < |proxies| && proxies[client.proxy].started)
  }

  ghost predicate FreshInv(s: State) {
    && (forall x :: 0 <= x < |s.proxies| && !s.proxies[x].started ==> Untouched(s.proxies[x].session))
    && (forall c :: 0 <= c < |s.clients| ==> FreshClient(s.clients[c], s.proxies))
    && (forall c, d :: 0 <= c < d < |s.clients| && s.clients[c].Attaching? && s.clients[d].Attaching? ==>
          s.clients[c].proxy != s.clients[d].proxy)
    && (forall m :: 0 <= m < |s.monitors| ==> s.monitors[m].chan < |s.proxies| && s.proxies[s.monitors[m].chan].started)
  }

  /** No proxy is added or started, and no client begins to attach or to run. */
  ghost predicate Steady(s: State, s': State) {
    && |s'.proxies| == |s.proxies| && |s.clients| <= |s'.clients| && |s'.monitors| == |s.monitors|
    && (forall m :: 0 <= m < |s.monitors| ==> s'.monitors[m].chan == s.monitors[m].chan)
    && (forall x :: 0 <= x < |s.proxies| ==> s'.proxies[x].started == s.proxies[x].started)
    && (forall x :: 0 <= x < |s.proxies| && !s.proxies[x].started ==> s'.proxies[x].session == s.proxies[x].session)
    && (forall c :: |s.clients| <= c < |s'.clients| ==> !s'.clients[c].Attaching? && !Running(s'.clients[c]))
    && (forall c :: 0 <= c < |s.clients| && s'.clients[c].Attaching? ==>
          s.clients[c].Attaching? && s'.clients[c].proxy == s.clients[c].proxy)
    && (forall c :: 0 <= c < |s.clients| && Running(s'.clients[c]) ==>
          Running(s.clients[c]) && s'.clients[c].proxy == s.clients[c].proxy)
  }

  lemma SteadyKeeps(s: State, s': State)
    requires FreshInv(s) && Steady(s, s')
    ensures FreshInv(s')
  {
    hide Untouched;
    forall c | 0 <= c < |s'.clients| ensures FreshClient(s'.clients[c], s'.proxies) {
      if c < |s.clients| {
        assert FreshClient(s.clients[c], s.proxies);
      }
    }
  }

  lemma CreateIsSteady(s: State, step: Step)
    requires Enabled(s, step) && (step.SetProxy? || step.SetCopyDone? || step.CallReturns?)
    ensures Steady(s, Apply(s, step))
  {
  }

  lemma ClientIsSteady(s: State, step: Step)
    requires Enabled(s, step)
    requires step.SpawnDelete? || step.SpawnShutdown? || step.AgentDeletes? || step.ReadChannel? || step.CopyArrives?
             || step.Shutdown?
    ensures Steady(s, Apply(s, step))
  {
    hide IoPair.CopyDone;
  }

  lemma NewProcIsSteady(s: State, c: nat)
    requires Enabled(s, NewProcStep(c))
    ensures Steady(s, ApplyNewProc(s, c))
  {
    hide NewProc;
  }

  lemma RollbackIsSteady(s: State, c: nat)
    requires Enabled(s, Rollback(c))
    ensures Steady(s, ApplyRollback(s, c))
  {
  }

  lemma DeleteIsSteady(s: State, c: nat)
    requires Enabled(s, DeleteProcStep(c))
    ensures Steady(s, ApplyDelete(s, c))
  {
  }

  lemma ClosingIsSteady(s: State, step: Step)
    requires Enabled(s, step) && (step.MonitorFires? || step.InitErrorCloses? || step.ProxyStep?)
    ensures Steady(s, Apply(s, step))
  {
    hide IoPair.CopyDone, IoPair.InitFailedWith, IoPair.SessionApply, IoPair.SessionEnabled;
  }

  lemma SpawnKeepsFresh(s: State, step: Step)
    requires Inv(s) && FreshInv(s) && (step.SpawnCreate? || step.SpawnAttach?)
    ensures FreshInv(Apply(s, step))
  {
    hide TableInv, ProxiesInv, ProcsInv, Untouched;
    var s' := Apply(s, step);
    NewIsUntouched(if step.isNull then 0 else step.streams);
    forall c | 0 <= c < |s'.clients| ensures FreshClient(s'.clients[c], s'.proxies) {
      if c < |s.clients| {
        assert FreshClient(s.clients[c], s.proxies);
      }
    }
  }

  lemma NewIsUntouched(streams: nat)
    ensures Untouched(IoPair.NewSession(streams))
  {
  }

  lemma StartKeepsFresh(s: State, c: nat)
    requires Inv(s) && FreshInv(s) && Enabled(s, StartProxy(c))
    ensures FreshInv(Apply(s, StartProxy(c)))
  {
    hide TableInv, ProxiesInv, ProcsInv, Untouched, IoPair.InitOk, IoPair.CopyDone;
    var s' := Apply(s, StartProxy(c));
    assert ClientInv(c, s.clients[c], s.procs, s.proxies);
    forall d | 0 <= d < |s'.clients| ensures FreshClient(s'.clients[d], s'.proxies) {
      assert FreshClient(s.clients[d], s.proxies) && ClientInv(d, s.clients[d], s.procs, s.proxies);
    }
  }

  lemma AttachKeepsFresh(s: State, c: nat)
    requires FreshInv(s) && Enabled(s, Attach(c))
    ensures FreshInv(ApplyAttach(s, c))
  {
    hide Untouched, Find;
    var s' := ApplyAttach(s, c);
    assert FreshClient(s.clients[c], s.proxies);
    forall d | 0 <= d < |s'.clients| ensures FreshClient(s'.clients[d], s'.proxies) {
      assert FreshClient(s.clients[d], s.proxies);
    }
  }

  lemma InitArrivesKeepsFresh(s: State, c: nat)
    requires FreshInv(s) && Enabled(s, InitArrives(c))
    ensures FreshInv(Apply(s, InitArrives(c)))
  {
    hide Untouched, IoPair.InitOk, IoPair.InitFailedWith;
    assert FreshClient(s.clients[c], s.proxies);
  }

  lemma FreshStep(s: State, step: Step)
    requires Inv(s) && FreshInv(s) && Enabled(s, step)
    ensures FreshInv(Apply(s, step))
  {
    hide Inv, FreshInv, Steady;
    match step
    case SpawnCreate(_, _, _, _) => SpawnKeepsFresh(s, step);
    case SpawnAttach(_, _, _, _) => SpawnKeepsFresh(s, step);
    case StartProxy(c) => StartKeepsFresh(s, c);
    case Attach(c) => AttachKeepsFresh(s, c);
    case InitArrives(c) => InitArrivesKeepsFresh(s, c);
    case NewProcStep(c) => NewProcIsSteady(s, c); SteadyKeeps(s, Apply(s, step));
    case Rollback(c) => RollbackIsSteady(s, c); SteadyKeeps(s, Apply(s, step));
    case DeleteProcStep(c) => DeleteIsSteady(s, c); SteadyKeeps(s, Apply(s, step));
    case MonitorFires(_) => ClosingIsSteady(s, step); SteadyKeeps(s, Apply(s, step));
    case InitErrorCloses(_) => ClosingIsSteady(s, step); SteadyKeeps(s, Apply(s, step));
    case ProxyStep(_, _) => ClosingIsSteady(s, step); SteadyKeeps(s, Apply(s, step));
    case SetProxy(_) => CreateIsSteady(s, step); SteadyKeeps(s, Apply(s, step));
    case SetCopyDone(_) => CreateIsSteady(s, step); SteadyKeeps(s, Apply(s, step));
    case CallReturns(_, _) => CreateIsSteady(s, step); SteadyKeeps(s, Apply(s, step));
    case _ => ClientIsSteady(s, step); SteadyKeeps(s, Apply(s, step));
  }

  lemma {:induction false} RunFresh(run: seq<Step>)
    requires After(run).Some?
    ensures FreshInv(After(run).value)
    decreases |run|
  {
    hide Inv, Enabled, Apply, FreshInv;
    if run == [] {
      assert FreshInv(INIT) by { NothingFresh(); }
    } else {
      RunInv(run[..|run| - 1]);
      RunFresh(run[..|run| - 1]);
      FreshStep(After(run[..|run| - 1]).value, run[|run| - 1]);
    }
  }

  lemma NothingFresh()
    ensures FreshInv(INIT)
  {
  }

  // ----- what an attach that does not wait risks -----

  /** One more step at the end of a continuation. */
  lemma Onward(run: seq<Step>, more: seq<Step>, s: State, step: Step) returns (more': seq<Step>, s': State)
    requires After(run + more) == Some(s) && Enabled(s, step)
    ensures After(run + more') == Some(s') && s' == Apply(s, step)
  {
    Extend(run + more, s, step);
    more', s' := more + [step], Apply(s, step);
    assert run + more' == run + more + [step];
  }

  function WithSession(s: State, x: nat, session: IoPair.Session): State
    requires x < |s.proxies|
  {
    s.(proxies := s.proxies[x := s.proxies[x].(session := session)])
  }

  /** The session changed in stream `i` only, and that stream did not fail. */
  ghost predicate OnlyStream(session: IoPair.Session, session': IoPair.Session, i: nat) {
    && IoPair.SessionInv(session') && |session.initGot| == |session.copyGot| == |session.pairs| == |session'.pairs|
    && i < |session.pairs|
    && (forall j :: 0 <= j < |session.pairs| && j != i ==>
          session'.pairs[j] == session.pairs[j] && session'.initGot[j] == session.initGot[j]
          && session'.copyGot[j] == session.copyGot[j])
    && (IoPair.PairFailed(session'.pairs[i]) ==> IoPair.PairFailed(session.pairs[i]))
  }

  lemma OneStreamStep(session: IoPair.Session, i: nat)
    requires IoPair.SessionInv(session) && i < |session.pairs| && !IoPair.Idle(session, i)
    ensures var st := IoPair.Next(session, i);
            && IoPair.SessionEnabled(session, st)
            && var session' := IoPair.SessionApply(session, st);
               && OnlyStream(session, session', i)
               && IoPair.StreamRank(session', i) < IoPair.StreamRank(session, i)
  {
    hide IoPair.StreamInv, IoPair.PairFailed, IoPair.StreamRank, IoPair.Idle, IoPair.Next, IoPair.Persists;
    IoPair.NoDeadlock(session, i);
    IoPair.StreamRankStep(session, IoPair.Next(session, i));
    IoPair.SessionInvStep(session, IoPair.Next(session, i));
    hide IoPair.SessionApply, IoPair.SessionEnabled;
  }

  /** Stream `i` of a started proxy can run to its end while everything else stands still. */
  lemma {:induction false} StreamRunsOut(run: seq<Step>, more: seq<Step>, s: State, x: nat, i: nat)
    returns (more': seq<Step>, session: IoPair.Session)
    requires After(run + more) == Some(s) && x < |s.proxies| && s.proxies[x].started
    requires IoPair.SessionInv(s.proxies[x].session) && i < |s.proxies[x].session.pairs|
    ensures After(run + more') == Some(WithSession(s, x, session))
    ensures OnlyStream(s.proxies[x].session, session, i) && IoPair.Idle(session, i)
    decreases IoPair.StreamRank(s.proxies[x].session, i)
  {
    hide After, IoPair.StreamInv, IoPair.PairFailed, IoPair.SessionApply, IoPair.SessionEnabled, IoPair.Next,
        IoPair.StreamRank;
    session := s.proxies[x].session;
    more' := more;
    if IoPair.Idle(session, i) {
      assert WithSession(s, x, session) == s;
    } else {
      OneStreamStep(session, i);
      hide IoPair.Idle;
      var st := IoPair.Next(session, i);
      var s';
      more', s' := Onward(run, more, s, ProxyStep(x, st));
      more', session := StreamRunsOut(run, more', s', x, i);
      assert WithSession(s', x, session) == WithSession(s, x, session);
    }
  }

  /** So a started proxy can run to its end, and be initialised if no connector has failed yet. */
  lemma {:induction false} RunsOutFrom(run: seq<Step>, more: seq<Step>, s: State, x: nat, i: nat)
    returns (more': seq<Step>, session: IoPair.Session)
    requires After(run + more) == Some(s) && x < |s.proxies| && s.proxies[x].started
    requires IoPair.SessionInv(s.proxies[x].session) && i <= |s.proxies[x].session.pairs|
    requires forall j :: 0 <= j < i ==> IoPair.Idle(s.proxies[x].session, j)
    ensures After(run + more') == Some(WithSession(s, x, session))
    ensures IoPair.CopyDone(session) && (!IoPair.Failed(s.proxies[x].session) ==> IoPair.InitOk(session))
    ensures IoPair.InitOk(session) || IoPair.InitFailedWith(session)
    decreases |s.proxies[x].session.pairs| - i
  {
    hide After, IoPair.StreamInv, IoPair.PairFailed;
    session := s.proxies[x].session;
    if i == |session.pairs| {
      IoPair.AllIdle(session);
      assert WithSession(s, x, session) == s;
      more' := more;
    } else {
      hide IoPair.CopyDone, IoPair.InitOk;
      var before := session;
      more', session := StreamRunsOut(run, more, s, x, i);
      assert !IoPair.Failed(before) ==> !IoPair.Failed(session);
      var s' := WithSession(s, x, session);
      forall j | 0 <= j < i + 1 ensures IoPair.Idle(session, j) {
        if j < i {
          assert IoPair.Idle(before, j);
        }
      }
      more', session := RunsOutFrom(run, more', s', x, i + 1);
      assert WithSession(s', x, session) == WithSession(s, x, session);
    }
  }

  /** A monitor that watches another proxy than the record has: it can come to close that one as it is. */
  lemma MonitorMisfires(run: seq<Step>, more: seq<Step>, s: State, m: nat, y: nat) returns (more': seq<Step>, s': State)
    requires After(run + more) == Some(s) && ProxiesInv(s.proxies) && m < |s.monitors| && !s.monitors[m].fired
    requires s.monitors[m].proc < |s.procs| && s.procs[s.monitors[m].proc].proxy == Some(y)
    requires y < |s.proxies| && !s.proxies[y].isNull
    requires var x := s.monitors[m].chan; x != y && x < |s.proxies| && s.proxies[x].started
    ensures After(run + more') == Some(s') && y < |s'.proxies|
    ensures s'.proxies[y].closed && s'.proxies[y].session == s.proxies[y].session
  {
    hide After, IoPair.CopyDone, IoPair.InitOk, IoPair.SessionInv;
    var session;
    more', session := RunsOutFrom(run, more, s, s.monitors[m].chan, 0);
    more', s' := Onward(run, more', WithSession(s, s.monitors[m].chan, session), MonitorFires(m));
  }

  /** A create whose connectors have not failed can return, which adds a monitor of its own proxy. */
  lemma {:induction false} PendingReturns(run: seq<Step>, more: seq<Step>, s: State, c: nat, p: nat, y: nat)
    returns (more': seq<Step>, s': State)
    requires After(run + more) == Some(s) && Inv(s) && FreshInv(s) && c < |s.clients| && Pending(s.clients[c], p)
    requires p < |s.procs| && s.procs[p].proxy == Some(y) && y < |s.proxies|
    requires s.clients[c].proxy < |s.proxies| && s.clients[c].proxy != y
    requires !IoPair.Failed(s.proxies[s.clients[c].proxy].session)
    ensures After(run + more') == Some(s') && Inv(s')
    ensures p < |s'.procs| && s'.procs[p].proxy == Some(y) && y < |s'.proxies| && s'.proxies[y] == s.proxies[y]
    ensures var x, m := s.clients[c].proxy, |s.monitors|;
            && x < |s'.proxies| && s'.proxies[x].started
            && |s'.monitors| == m + 1 && s'.monitors[m] == Monitor(p, x, false)
            && IoPair.CopyDone(s'.proxies[x].session)
    ensures |s'.clients| == |s.clients| && s'.clients[c] == CreateOk(p) && s'.tasks == s.tasks
    ensures |s'.procs| == |s.procs| && s'.procs[p].creator == s.procs[p].creator
    ensures s'.procs[p].ioCopyDone == ChannelLeft(s, c, p)
    decreases Left(s.clients[c])
  {
    hide After, Inv, FreshInv, IoPair.Failed, IoPair.CopyDone, Enabled, Apply;
    if s.clients[c].AwaitingInit? {
      more', s' := AwaitedReturns(run, more, s, c);
    } else {
      var step := PendingStep(s, c, p, y);
      more', s' := Onward(run, more, s, step);
      InvStep(s, step);
      FreshStep(s, step);
      more', s' := PendingReturns(run, more', s', c, p, y);
    }
  }

  function Left(client: Client): nat {
    match client
    case HasProxy(_, _) => 3
    case HasStarted(_, _) => 2
    case Calling(_, _) => 1
    case _ => 0
  }

  /** The channel that record `p` will have when the pending create of client `c` has written its own. */
  function ChannelLeft(s: State, c: nat, p: nat): Option<nat>
    requires c < |s.clients| && Pending(s.clients[c], p) && p < |s.procs|
  {
    if s.clients[c].HasProxy? || s.clients[c].HasStarted? then Some(s.clients[c].proxy) else s.procs[p].ioCopyDone
  }

  /** The next step of a pending create, which leaves proxy `y` of its record alone. */
  lemma PendingStep(s: State, c: nat, p: nat, y: nat) returns (step: Step)
    requires c < |s.clients| && Pending(s.clients[c], p) && !s.clients[c].AwaitingInit?
    requires p < |s.procs| && s.procs[p].proxy == Some(y) && y < |s.proxies|
    requires s.clients[c].proxy < |s.proxies| && s.clients[c].proxy != y
    ensures Enabled(s, step)
    ensures var s' := Apply(s, step);
            && |s'.clients| == |s.clients| && Pending(s'.clients[c], p) && s'.clients[c].proxy == s.clients[c].proxy
            && Left(s'.clients[c]) < Left(s.clients[c])
            && |s'.procs| == |s.procs| && s'.procs[p].proxy == Some(y)
            && |s'.proxies| == |s.proxies| && s'.proxies[y] == s.proxies[y] && s'.monitors == s.monitors
            && s'.proxies[s.clients[c].proxy].session == s.proxies[s.clients[c].proxy].session
            && s'.tasks == s.tasks && s'.procs[p].creator == s.procs[p].creator
            && ChannelLeft(s', c, p) == ChannelLeft(s, c, p)
  {
    match s.clients[c]
    case HasProxy(_, _) => step := StartProxy(c);
    case HasStarted(_, _) => step := SetCopyDone(c);
    case _ => step := CallReturns(c, true);
  }

  lemma AwaitedReturns(run: seq<Step>, more: seq<Step>, s: State, c: nat) returns (more': seq<Step>, s': State)
    requires After(run + more) == Some(s) && Inv(s) && FreshInv(s) && c < |s.clients| && s.clients[c].AwaitingInit?
    requires s.clients[c].proxy < |s.proxies| && !IoPair.Failed(s.proxies[s.clients[c].proxy].session)
    ensures After(run + more') == Some(s') && Inv(s')
    ensures var AwaitingInit(p, x) := s.clients[c];
            && s'.procs == s.procs && s'.monitors == s.monitors + [Monitor(p, x, false)]
            && |s'.proxies| == |s.proxies| && s'.proxies[x].started
            && IoPair.CopyDone(s'.proxies[x].session)
            && s'.tasks == s.tasks && s'.clients == s.clients[c := CreateOk(p)]
            && forall y :: 0 <= y < |s.proxies| && y != x ==> s'.proxies[y] == s.proxies[y]
  {
    hide After, TableInv, ProcsInv, ClientsInv, IoPair.Failed, IoPair.InitOk, IoPair.CopyDone, IoPair.SessionInv,
        Untouched;
    var x := s.clients[c].proxy;
    assert FreshClient(s.clients[c], s.proxies);
    var session;
    more', session := RunsOutFrom(run, more, s, x, 0);
    RunInv(run + more');
    var s1 := WithSession(s, x, session);
    more', s' := Onward(run, more', s1, InitArrives(c));
    InvStep(s1, InitArrives(c));
  }

  /** The proxy is marked closed although its streams were neither drained nor refused. */
  ghost predicate ClosedTooEarly(s: State, x: nat) {
    && x < |s.proxies| && s.proxies[x].closed
    && !IoPair.Drained(s.proxies[x].session) && !IoPair.InitFailedWith(s.proxies[x].session)
  }

  lemma UntouchedIsEarly(s: State, x: nat)
    requires x < |s.proxies| && s.proxies[x].closed && Untouched(s.proxies[x].session)
        && |s.proxies[x].session.pairs| > 0
    ensures ClosedTooEarly(s, x)
  {
    assert s.proxies[x].session.pairs[0] == IoPair.NEW_PAIR && s.proxies[x].session.initGot[0] == IoPair.Waiting;
  }

  /** What the state is after an attach that finds its record. */
  lemma Attached(run: seq<Step>, s: State, c: nat, p: nat, x: nat) returns (s': State)
    requires After(run) == Some(s) && Attaches(s, Attach(c), p, x)
    ensures After(run + [Attach(c)]) == Some(s') && s' == ApplyAttach(s, c) && Inv(s') && FreshInv(s')
    ensures p < |s.procs| && s'.procs[p].proxy == Some(x) && |s'.procs| == |s.procs|
    ensures s'.procs[p].creator == s.procs[p].creator && s'.tasks == s.tasks
    ensures x < |s.proxies| && !s.proxies[x].started
    ensures c < |s.clients| && s.clients[c].Attaching? && s.clients[c].proxy == x
        && s'.clients == s.clients[c := AttachDone(true)]
    ensures s'.proxies == s.proxies[x := s.proxies[x].(started := true)]
    ensures Untouched(s.proxies[x].session) && s'.monitors == s.monitors + [Monitor(p, x, false)]
  {
    hide After, Inv;
    s' := ApplyAttach(s, c);
    Extend(run, s, Attach(c));
    RunInv(run + [Attach(c)]);
    RunFresh(run);
    RunFresh(run + [Attach(c)]);
    assert FreshClient(s.clients[c], s.proxies);
  }

  /** An AttachIO that does not wait, of a proxy with a stream, can have its proxy closed before a stream is opened. */
  lemma AttachedUnsafely(run: seq<Step>, s: State, c: nat, p: nat, x: nat) returns (more: seq<Step>, t: State)
    requires After(run) == Some(s) && Attaches(s, Attach(c), p, x) && !Safe(s, p)
    requires !s.proxies[x].isNull && |s.proxies[x].session.pairs| > 0
    ensures After(run + [Attach(c)] + more) == Some(t) && ClosedTooEarly(t, x)
  {
    hide After, Inv, FreshInv, Untouched, ClosedTooEarly, Enabled, ApplyAttach, Attaches;
    var s1 := Attached(run, s, c, p, x);
    var run1 := run + [Attach(c)];
    assert run1 + [] == run1;
    var m: nat;
    if !AllFired(s, p) {
      m :| m < |s.monitors| && s.monitors[m].proc == p && !s.monitors[m].fired;
      MonitorIsElsewhere(run, s, m, x);
      more, t := [], s1;
    } else {
      var d :| 0 <= d < |s.clients| && Pending(s.clients[d], p) && !Doomed(s.proxies, s.clients[d].proxy);
      PendingIsElsewhere(run, s, d, p, c);
      m := |s1.monitors|;
      more, t := PendingReturns(run1, [], s1, d, p, x);
    }
    RunInv(run1 + more);
    more, t := MonitorMisfires(run1, more, t, m, x) by { InvProxies(t); }
    UntouchedIsEarly(t, x);
  }

  lemma InvProxies(s: State)
    requires Inv(s)
    ensures ProxiesInv(s.proxies)
  {
  }

  lemma MonitorIsElsewhere(run: seq<Step>, s: State, m: nat, x: nat)
    requires After(run) == Some(s) && m < |s.monitors| && x < |s.proxies| && !s.proxies[x].started
    ensures var y := s.monitors[m].chan; y != x && y < |s.proxies| && s.proxies[y].started
  {
    hide After;
    RunFresh(run);
  }

  lemma PendingIsElsewhere(run: seq<Step>, s: State, d: nat, p: nat, c: nat)
    requires After(run) == Some(s) && d < |s.clients| && Pending(s.clients[d], p) && c < |s.clients|
        && s.clients[c].Attaching?
    ensures s.clients[d].proxy != s.clients[c].proxy && s.clients[d].proxy < |s.proxies|
  {
    hide After, TableInv, ProcsInv, ProxiesInv, IoPair.InitOk, IoPair.CopyDone;
    RunInv(run);
    assert ClientInv(c, s.clients[c], s.procs, s.proxies) && ClientInv(d, s.clients[d], s.procs, s.proxies);
  }

  // ----- a proxy is attached once -----

  lemma StartedStays(run: seq<Step>, step: Step, x: nat)
    requires After(run).Some? && Enabled(After(run).value, step) && x < |After(run).value.proxies|
    ensures var s := After(run).value;
            x < |Apply(s, step).proxies| && (s.proxies[x].started ==> Apply(s, step).proxies[x].started)
  {
    hide After, Inv, Enabled, Apply;
    RunInv(run);
    InvParts(After(run).value);
    ProxyStays(After(run).value, step, x);
  }

  lemma {:induction false} UnstartedNeverAttached(run: seq<Step>, x: nat)
    requires After(run).Some? && (x < |After(run).value.proxies| ==> !After(run).value.proxies[x].started)
    ensures SafelyAttached(run, x)
    decreases |run|
  {
    if run != [] {
      hide Apply, Enabled, Safe;
      var init, last := run[..|run| - 1], run[|run| - 1];
      var s := After(init).value;
      if x < |s.proxies| {
        StartedStays(init, last, x);
      }
      UnstartedNeverAttached(init, x);
      AttachStarts(s, last, x);
    }
  }

  lemma AttachStarts(s: State, step: Step, x: nat)
    requires Enabled(s, step) && (x < |Apply(s, step).proxies| ==> !Apply(s, step).proxies[x].started)
    ensures forall p :: !Attaches(s, step, p, x)
  {
  }

  ghost predicate StartedIn(run: seq<Step>, x: nat) {
    After(run).Some? && x < |After(run).value.proxies| && After(run).value.proxies[x].started
  }

  lemma NotAttachedNow(run: seq<Step>, step: Step, x: nat)
    requires StartedIn(run, x) && SafelyAttached(run, x) && After(run + [step]).Some?
    ensures StartedIn(run + [step], x) && SafelyAttached(run + [step], x)
  {
    var all := run + [step];
    assert all[..|all| - 1] == run && all[|all| - 1] == step;
    var s := After(run).value;
    hide Apply, Enabled, Safe, FreshInv, Attaches;
    StartedStays(run, step, x);
    RunFresh(run);
    NotAttachable(s, step, x);
  }

  lemma {:induction false} StartedNotAttachedAgain(run: seq<Step>, more: seq<Step>, x: nat)
    requires StartedIn(run, x) && SafelyAttached(run, x) && After(run + more).Some?
    ensures StartedIn(run + more, x) && SafelyAttached(run + more, x)
    decreases |more|
  {
    hide After, SafelyAttached, StartedIn, Enabled, Apply;
    if more == [] {
      assert run + more == run;
    } else {
      var init := more[..|more| - 1];
      LastOfMore(run, more);
      assert run + more == run + init + [more[|more| - 1]];
      StartedNotAttachedAgain(run, init, x);
      NotAttachedNow(run + init, more[|more| - 1], x);
    }
  }

  lemma NotAttachable(s: State, step: Step, x: nat)
    requires FreshInv(s) && x < |s.proxies| && s.proxies[x].started
    ensures forall p :: !Attaches(s, step, p, x)
  {
    if step.Attach? && step.c < |s.clients| {
      assert FreshClient(s.clients[step.c], s.proxies);
    }
  }

  /** Exactly when an AttachIO may go ahead: no continuation, whatever else is attached in it, closes its proxy too
      early, if and only if the proxy has no streams, or every monitor of the record has fired and the create of the
      process has returned or can only fail. */
  lemma AttachIsSafeIff(run: seq<Step>, s: State, c: nat, p: nat, x: nat)
    requires After(run) == Some(s) && Attaches(s, Attach(c), p, x)
    ensures x < |s.proxies|
    ensures |s.proxies[x].session.pairs| == 0 || Safe(s, p) <==>
            forall more :: After(run + [Attach(c)] + more).Some? ==>
              !ClosedTooEarly(After(run + [Attach(c)] + more).value, x)
  {
    hide After, Inv, FreshInv, Enabled, ApplyAttach, Attaches, Find, Safe, ClosedTooEarly, Untouched, SafelyAttached;
    var s1 := Attached(run, s, c, p, x);
    var run1 := run + [Attach(c)];
    if |s.proxies[x].session.pairs| == 0 {
      forall more | After(run1 + more).Some? ensures !ClosedTooEarly(After(run1 + more).value, x) {
        ProxyLater(run1, more, x);
        NoStreamsIsDrained(After(run1 + more).value, x);
      }
    } else if Safe(s, p) {
      SafelyAttachedNow(run, s, c, p, x);
      forall more | After(run1 + more).Some? ensures !ClosedTooEarly(After(run1 + more).value, x) {
        StartedNotAttachedAgain(run1, more, x);
        NotTooEarly(run1 + more, x);
      }
    } else {
      if s.proxies[x].isNull {
        NullHasNoStreams(run, x);
      }
      var more, t := AttachedUnsafely(run, s, c, p, x);
      assert After(run1 + more) == Some(t);
    }
  }

  lemma NoStreamsIsDrained(s: State, x: nat)
    requires x < |s.proxies| && |s.proxies[x].session.pairs| == 0
    ensures !ClosedTooEarly(s, x)
  {
  }

  lemma NotTooEarly(run: seq<Step>, x: nat)
    requires After(run).Some? && SafelyAttached(run, x)
    ensures !ClosedTooEarly(After(run).value, x)
  {
    hide After, SafelyAttached, IoPair.Drained, IoPair.InitFailedWith;
    var s := After(run).value;
    if x < |s.proxies| && s.proxies[x].closed {
      ClosedIsDrained(run, x);
    }
  }

  lemma SafelyAttachedNow(run: seq<Step>, s: State, c: nat, p: nat, x: nat)
    requires After(run) == Some(s) && Attaches(s, Attach(c), p, x) && Safe(s, p) && x < |s.proxies|
        && !s.proxies[x].started
    ensures SafelyAttached(run + [Attach(c)], x)
  {
    hide After, Safe, Enabled;
    UnstartedNeverAttached(run, x);
    var all := run + [Attach(c)];
    assert all[..|all| - 1] == run && all[|all| - 1] == Attach(c);
  }

  // ----- closed and still copying -----

  /** A stream both whose connectors have answered, the writing one with success, and whose answer was received. */
  function Answered(readOk: bool): (IoPair.Pair, IoPair.Received) {
    var p := IoPair.NEW_PAIR.(readConn := IoPair.Taken, writeConn := IoPair.Taken, writer := IoPair.Open);
    if readOk
    then (p.(reader := IoPair.Open, initDone := IoPair.Channel(0, 1), pc := IoPair.Copying, copy := IoPair.Running),
        IoPair.GotNil)
    else (p.(ioInitErr := true, initDone := IoPair.Channel(1, 1), pc := IoPair.InitFailed), IoPair.GotError)
  }

  function WithPair(session: IoPair.Session, i: nat, pair: IoPair.Pair): IoPair.Session
    requires i < |session.pairs|
  {
    session.(pairs := session.pairs[i := pair])
  }

  /** The goroutine of stream `i` makes a step. `session` is what its proxy had before some such steps. */
  lemma PairGoes(run: seq<Step>, s: State, x: nat, session: IoPair.Session, i: nat, pair: IoPair.Pair, st: IoPair.Step)
    returns (run': seq<Step>)
    requires x < |s.proxies| && s.proxies[x].started && i < |session.pairs| == |session.initGot| == |session.copyGot|
    requires After(run) == Some(WithSession(s, x, WithPair(session, i, pair)))
    requires IoPair.Enabled(pair, st) && st != IoPair.SendCopyErr
    ensures After(run') == Some(WithSession(s, x, WithPair(session, i, IoPair.Apply(pair, st))))
  {
    hide After, IoPair.Enabled, IoPair.Apply;
    var s', pair' := WithSession(s, x, WithPair(session, i, pair)), IoPair.Apply(pair, st);
    run', s' := Go(run, s', ProxyStep(x, IoPair.PairStep(i, st)));
    assert WithPair(session, i, pair).pairs[i := pair'] == session.pairs[i := pair'];
    assert s'.proxies == WithSession(s, x, WithPair(session, i, pair')).proxies;
  }

  lemma PairAnswers(run: seq<Step>, s: State, x: nat, session: IoPair.Session, i: nat, readOk: bool)
      returns (run': seq<Step>)
    requires x < |s.proxies| && s.proxies[x].started && i < |session.pairs| == |session.initGot| == |session.copyGot|
    requires After(run) == Some(WithSession(s, x, WithPair(session, i, IoPair.NEW_PAIR)))
    ensures After(run') == Some(WithSession(s, x, WithPair(session, i, Answered(readOk).0)))
  {
    hide After, WithSession, WithPair;
    var p0 := IoPair.NEW_PAIR;
    run' := PairGoes(run, s, x, session, i, p0, IoPair.ReadDelivers(readOk));
    var p1 := p0.(readConn := IoPair.Delivered(readOk));
    run' := PairGoes(run', s, x, session, i, p1, IoPair.WriteDelivers(true));
    var p2 := p1.(writeConn := IoPair.Delivered(true));
    run' := PairGoes(run', s, x, session, i, p2, IoPair.TakeRead);
    var p3 := IoPair.Apply(p2, IoPair.TakeRead);
    run' := PairGoes(run', s, x, session, i, p3, IoPair.TakeWrite);
    var p4 := p3.(writeConn := IoPair.Taken, writer := IoPair.Open);
    run' := PairGoes(run', s, x, session, i, p4, IoPair.CloseInit);
  }

  lemma StreamAnswers(run: seq<Step>, s: State, x: nat, i: nat, readOk: bool)
    returns (run': seq<Step>, session': IoPair.Session)
    requires After(run) == Some(s) && x < |s.proxies| && s.proxies[x].started
    requires var session := s.proxies[x].session;
             && i < |session.pairs| == |session.initGot| == |session.copyGot|
             && session.pairs[i] == IoPair.NEW_PAIR && session.initGot[i] == IoPair.Waiting
    ensures var session := s.proxies[x].session;
            session' == WithPair(session, i, Answered(readOk).0).(initGot := session.initGot[i := Answered(readOk).1])
    ensures After(run') == Some(WithSession(s, x, session'))
  {
    hide After;
    var session := s.proxies[x].session;
    assert session.pairs[i := IoPair.NEW_PAIR] == session.pairs;
    assert WithSession(s, x, session).proxies == s.proxies;
    run' := PairAnswers(run, s, x, session, i, readOk);
    var s';
    run', s' := Go(run', WithSession(s, x, WithPair(session, i, Answered(readOk).0)),
        ProxyStep(x, IoPair.InitReceive(i)));
    session' := s'.proxies[x].session;
    assert s'.proxies == WithSession(s, x, session').proxies;
  }

  /** Process 0 is running; its own proxy is closed, and proxy 1, of two streams, was attached safely. */
  lemma AttachTwoStreams() returns (run: seq<Step>, s: State)
    ensures After(run) == Some(s) && |s.clients| == 2 && s.clients[0] == CreateOk(0)
    ensures |s.procs| == 1 && s.procs[0].creator == 0 && s.procs[0].proxy == Some(1) && Find(s, "t", "") == Some(0)
    ensures s.monitors == [Monitor(0, 0, true), Monitor(0, 1, false)]
    ensures |s.proxies| == 2 && s.proxies[1] == NewProxy(false, true, 2).(started := true)
  {
    hide After;
    run, s := BeginCreate();
    run, s := WireUp(run, s, 0);
    run, s := ReturnOk(run, s, 0);
    run, s := Go(run, s, MonitorFires(0));
    assert s.monitors == [Monitor(0, 0, true)];
    run, s := AttachNew(run, s, "t", "", 2);
  }

  /** The other way to be closed before being drained: one stream of an attached proxy cannot be initialised, and the
      proxy is closed while the other stream is being copied. It is then reported as not open, although its monitor has
      not fired, so that asking IsProxyOpen before the next AttachIO does not make that one safe. */
  lemma InitErrorClosesCopying() returns (run: seq<Step>, s: State)
    ensures After(run) == Some(s) && |s.proxies| == 2 && s.proxies[1].closed
    ensures IoPair.InitFailedWith(s.proxies[1].session) && !IoPair.Drained(s.proxies[1].session)
    ensures |s.procs| == 1 && s.procs[0].proxy == Some(1) && Find(s, "t", "") == Some(0)
    ensures |s.clients| == 2 && s.clients[0] == CreateOk(0) && !Safe(s, 0)
  {
    hide After;
    run, s := AttachTwoStreams();
    var session;
    run, session := StreamAnswers(run, s, 1, 0, false);
    s := WithSession(s, 1, session);
    run, session := StreamAnswers(run, s, 1, 1, true);
    s := WithSession(s, 1, session);
    assert session.initGot == [IoPair.GotError, IoPair.GotNil];
    assert session.initGot[0] == IoPair.GotError && session.pairs[1].copy == IoPair.Running;
    run, s := Go(run, s, InitErrorCloses(1));
    assert !s.monitors[1].fired;
  }
}
