/** The ports of the metrics proxies (snapshotter/demux/metrics/proxy.go). */
module MetricsPorts {
  import opened Outcomes

  /** The lowest free port from `p` on. */
  function LeastFree(inUse: set<int>, p: int, endPort: int): Option<int>
    decreases endPort - p
  {
    if p > endPort then None
    else if p !in inUse then Some(p)
    else LeastFree(inUse, p + 1, endPort)
  }

  lemma {:induction false} LeastFreeIsLeast(inUse: set<int>, p: int, endPort: int)
    ensures match LeastFree(inUse, p, endPort)
            case None => forall q :: p <= q <= endPort ==> q in inUse
            case Some(q) => p <= q <= endPort && q !in inUse && forall r :: p <= r < q ==> r in inUse
    decreases endPort - p
  {
    if p <= endPort && p in inUse {
      LeastFreeIsLeast(inUse, p + 1, endPort);
    }
  }

  predicate ValidRange(startPort: int, endPort: int) {
    0 < startPort <= endPort
  }

  class Monitor {
    var portsInUse: set<int>
    const startPort: int
    const endPort: int

    constructor (startPort: int, endPort: int)
      ensures this.startPort == startPort && this.endPort == endPort && portsInUse == {}
    {
      this.startPort := startPort;
      this.endPort := endPort;
      portsInUse := {};
    }

    /** Finds the lowest free port of the range and marks it. */
    method FindOpenPort() returns (r: Result<int>)
      requires ValidRange(startPort, endPort)
      modifies this`portsInUse
      ensures match LeastFree(old(portsInUse), startPort, endPort)
              case Some(p) => r == Ok(p) && portsInUse == old(portsInUse) + {p}
              case None => r.Err? && portsInUse == old(portsInUse)
      ensures forall s: State :: s.portsInUse == old(portsInUse) ==>
                Apply(s, Allocate, startPort, endPort).portsInUse == portsInUse
    {
      var metricsProxyPort := -1;
      var p := startPort;
      while p <= endPort
        invariant startPort <= p <= endPort + 1
        invariant metricsProxyPort == -1 && portsInUse == old(portsInUse)
        invariant LeastFree(portsInUse, startPort, endPort) == LeastFree(portsInUse, p, endPort)
        decreases endPort - p
      {
        if p !in portsInUse {
          metricsProxyPort := p;
          portsInUse := portsInUse + {p};
          break;
        }
        p := p + 1;
      }
      if metricsProxyPort < 0 {
        return Err("unable to find port in range");
      }
      return Ok(metricsProxyPort);
    }

    /** What Start does with one message of a server that has closed: the reaping of any proxy that sent it. */
    method Free(freePort: int)
      modifies this`portsInUse
      ensures forall s: State :: Enabled(s, Reap) && s.portsInUse == old(portsInUse)
                                 && s.proxies[s.receiving.value].port == freePort ==>
                Apply(s, Reap, startPort, endPort).portsInUse == portsInUse
    {
      portsInUse := portsInUse - {freePort};
    }
  }

  method NewMonitor(startPort: int, endPort: int) returns (r: Result<Monitor>)
    ensures r.Ok? <==> 0 < startPort && 0 < endPort && startPort <= endPort
    ensures r.Ok? ==> ValidRange(startPort, endPort)
    ensures r.Ok? ==>
        fresh(r.value) && r.value.portsInUse == {} && r.value.startPort == startPort && r.value.endPort == endPort
  {
    if startPort <= 0 || endPort <= 0 || startPort > endPort {
      return Err("invalid port range");
    }
    var m := new Monitor(startPort, endPort);
    return Ok(m);
  }

  // ----- every interleaving -----

  /** A proxy holds its port while it serves, while it waits to hand the port back, and until the monitor, which takes
      one message at a time, has unmarked it. */
  datatype Phase = Serving | HandingBack | Received | Reaped

  datatype Proxy = Proxy(port: int, phase: Phase)

  datatype State = State(portsInUse: set<int>, proxies: seq<Proxy>, receiving: Option<nat>)

  const INIT := State({}, [], None)

  datatype Step =
    | Allocate
    | ServerExits(i: nat)
    | Receive(i: nat)
    | Reap

  predicate Enabled(s: State, step: Step) {
    match step
    case Allocate => true
    case ServerExits(i) => i < |s.proxies| && s.proxies[i].phase == Serving
    case Receive(i) => i < |s.proxies| && s.proxies[i].phase == HandingBack && s.receiving == None
    case Reap => s.receiving.Some? && s.receiving.value < |s.proxies|
  }

  function Apply(s: State, step: Step, startPort: int, endPort: int): State
    requires Enabled(s, step)
  {
    match step
    case Allocate =>
      (match LeastFree(s.portsInUse, startPort, endPort)
       case None => s
       case Some(p) => s.(portsInUse := s.portsInUse + {p}, proxies := s.proxies + [Proxy(p, Serving)]))
    case ServerExits(i) => s.(proxies := s.proxies[i := s.proxies[i].(phase := HandingBack)])
    case Receive(i) => s.(proxies := s.proxies[i := s.proxies[i].(phase := Received)], receiving := Some(i))
    case Reap =>
      var i := s.receiving.value;
      State(s.portsInUse - {s.proxies[i].port}, s.proxies[i := s.proxies[i].(phase := Reaped)], None)
  }

  ghost function After(run: seq<Step>, startPort: int, endPort: int): Option<State>
    decreases |run|
  {
    if run == [] then Some(INIT)
    else
      var last := run[|run| - 1];
      match After(run[..|run| - 1], startPort, endPort)
      case None => None
      case Some(s) => if Enabled(s, last) then Some(Apply(s, last, startPort, endPort)) else None
  }

  predicate Holds(p: Proxy) {
    p.phase != Reaped
  }

  ghost predicate HeldBy(proxies: seq<Proxy>, i: int, port: int) {
    0 <= i < |proxies| && Holds(proxies[i]) && proxies[i].port == port
  }

  /** The marked ports are exactly those of the proxies not yet reaped, no two of which share one. */
  ghost predicate Inv(s: State, startPort: int, endPort: int) {
    && (forall i, p :: HeldBy(s.proxies, i, p) ==> p in s.portsInUse && startPort <= p <= endPort)
    && (forall p :: p in s.portsInUse ==> exists i :: HeldBy(s.proxies, i, p))
    && (forall i, j, p :: HeldBy(s.proxies, i, p) && HeldBy(s.proxies, j, p) ==> i == j)
    && (s.receiving.Some? ==> s.receiving.value < |s.proxies|)
    && (forall i :: 0 <= i < |s.proxies| ==> (s.proxies[i].phase == Received <==> s.receiving == Some(i)))
  }

  lemma InvAllocate(s: State, p: int, startPort: int, endPort: int)
    requires Inv(s, startPort, endPort) && p !in s.portsInUse && startPort <= p <= endPort
    ensures Inv(s.(portsInUse := s.portsInUse + {p}, proxies := s.proxies + [Proxy(p, Serving)]), startPort, endPort)
  {
    var proxies := s.proxies + [Proxy(p, Serving)];
    forall i, q | HeldBy(proxies, i, q) ensures HeldBy(s.proxies, i, q) || (i == |s.proxies| && q == p) {
    }
    forall q | q in s.portsInUse + {p} ensures exists i :: HeldBy(proxies, i, q) {
      if q == p {
        assert HeldBy(proxies, |s.proxies|, q);
      } else {
        var i :| HeldBy(s.proxies, i, q);
        assert HeldBy(proxies, i, q);
      }
    }
  }

  /** A proxy that changes phase but keeps its port. */
  lemma InvPhase(s: State, i: nat, phase: Phase, receiving: Option<nat>, startPort: int, endPort: int)
    requires Inv(s, startPort, endPort) && i < |s.proxies| && Holds(s.proxies[i]) && phase != Reaped
        && s.proxies[i].phase != Received
    requires if phase == Received then s.receiving == None && receiving == Some(i) else receiving == s.receiving
    ensures Inv(s.(proxies := s.proxies[i := s.proxies[i].(phase := phase)], receiving := receiving), startPort,
        endPort)
  {
    var proxies := s.proxies[i := s.proxies[i].(phase := phase)];
    forall k, q ensures HeldBy(proxies, k, q) <==> HeldBy(s.proxies, k, q) {
    }
  }

  lemma InvReap(s: State, startPort: int, endPort: int)
    requires Inv(s, startPort, endPort) && Enabled(s, Reap)
    ensures Inv(Apply(s, Reap, startPort, endPort), startPort, endPort)
  {
    var i := s.receiving.value;
    var port := s.proxies[i].port;
    var proxies := s.proxies[i := s.proxies[i].(phase := Reaped)];
    assert HeldBy(s.proxies, i, port);
    forall k, q ensures HeldBy(proxies, k, q) <==> HeldBy(s.proxies, k, q) && k != i {
    }
    forall q | q in s.portsInUse - {port} ensures exists k :: HeldBy(proxies, k, q) {
      var k :| HeldBy(s.proxies, k, q);
      assert HeldBy(proxies, k, q);
    }
  }

  lemma InvStep(s: State, step: Step, startPort: int, endPort: int)
    requires Inv(s, startPort, endPort) && Enabled(s, step)
    ensures Inv(Apply(s, step, startPort, endPort), startPort, endPort)
  {
    match step
    case Allocate =>
      LeastFreeIsLeast(s.portsInUse, startPort, endPort);
      if LeastFree(s.portsInUse, startPort, endPort).Some? {
        InvAllocate(s, LeastFree(s.portsInUse, startPort, endPort).value, startPort, endPort);
      }
    case ServerExits(i) => InvPhase(s, i, HandingBack, s.receiving, startPort, endPort);
    case Receive(i) => InvPhase(s, i, Received, Some(i), startPort, endPort);
    case Reap => InvReap(s, startPort, endPort);
  }

  lemma {:induction false} PortsInUseAreHeld(run: seq<Step>, startPort: int, endPort: int)
    requires After(run, startPort, endPort).Some?
    ensures Inv(After(run, startPort, endPort).value, startPort, endPort)
    decreases |run|
  {
    hide Enabled, Apply;
    if run != [] {
      PortsInUseAreHeld(run[..|run| - 1], startPort, endPort);
      InvStep(After(run[..|run| - 1], startPort, endPort).value, run[|run| - 1], startPort, endPort);
    }
  }

  function Run(s: State, steps: seq<Step>, startPort: int, endPort: int): Option<State>
    decreases |steps|
  {
    if steps == [] then Some(s)
    else if !Enabled(s, steps[0]) then None
    else Run(Apply(s, steps[0], startPort, endPort), steps[1..], startPort, endPort)
  }

  /** What brings the port of proxy `i` back: its server exits, and the monitor, once it is done with the message
      before, takes the message of this one. */
  function HandBack(s: State, i: nat): seq<Step>
    requires i < |s.proxies|
  {
    match s.proxies[i].phase
    case Serving => (if s.receiving.Some? then [Reap] else []) + [ServerExits(i), Receive(i), Reap]
    case HandingBack => (if s.receiving.Some? then [Reap] else []) + [Receive(i), Reap]
    case Received => [Reap]
    case Reaped => []
  }

  /** No port is lost: from every reachable state the port of any proxy can come back, and then it is free. */
  lemma PortComesBack(run: seq<Step>, startPort: int, endPort: int, i: nat)
    requires After(run, startPort, endPort).Some? && i < |After(run, startPort, endPort).value.proxies|
    requires After(run, startPort, endPort).value.proxies[i].phase != Reaped
    ensures var s := After(run, startPort, endPort).value;
            var t := Run(s, HandBack(s, i), startPort, endPort);
            && t.Some? && |t.value.proxies| == |s.proxies| && t.value.proxies[i] == s.proxies[i].(phase := Reaped)
            && s.proxies[i].port !in t.value.portsInUse
  {
    PortsInUseAreHeld(run, startPort, endPort);
    var s := After(run, startPort, endPort).value;
    hide After;
    if s.receiving.Some? && s.receiving.value != i {
      assert HandBack(s, i)[0] == Reap;
      var s1 := Apply(s, Reap, startPort, endPort);
      InvReap(s, startPort, endPort);
      assert s1.proxies[i] == s.proxies[i];
      assert HandBack(s, i)[1..] == HandBack(s1, i);
      ComesBack(s1, startPort, endPort, i);
    } else {
      ComesBack(s, startPort, endPort, i);
    }
  }

  lemma {:induction false} ComesBack(s: State, startPort: int, endPort: int, i: nat)
    requires Inv(s, startPort, endPort) && i < |s.proxies| && s.proxies[i].phase != Reaped
    requires s.receiving == None || s.receiving == Some(i)
    ensures var t := Run(s, HandBack(s, i), startPort, endPort);
            && t.Some? && |t.value.proxies| == |s.proxies| && t.value.proxies[i] == s.proxies[i].(phase := Reaped)
            && s.proxies[i].port !in t.value.portsInUse
    decreases |HandBack(s, i)|
  {
    PhaseOf(s, startPort, endPort, i);
    hide Inv;
    var steps := HandBack(s, i);
    var s1 := Apply(s, steps[0], startPort, endPort);
    if s.proxies[i].phase == Received {
      assert steps[1..] == [];
    } else {
      InvStep(s, steps[0], startPort, endPort);
      assert steps[1..] == HandBack(s1, i);
      ComesBack(s1, startPort, endPort, i);
    }
  }

  lemma PhaseOf(s: State, startPort: int, endPort: int, i: nat)
    requires Inv(s, startPort, endPort) && i < |s.proxies|
    ensures s.proxies[i].phase == Received <==> s.receiving == Some(i)
  {
  }

  /** The number of proxies that hold a port. */
  function HeldCount(proxies: seq<Proxy>): nat {
    if proxies == [] then 0
    else HeldCount(proxies[..|proxies| - 1]) + (if Holds(proxies[|proxies| - 1]) then 1 else 0)
  }

  ghost function HeldPorts(proxies: seq<Proxy>): set<int> {
    set i | 0 <= i < |proxies| && Holds(proxies[i]) :: proxies[i].port
  }

  lemma {:induction false} HeldPortsCount(proxies: seq<Proxy>)
    requires forall i, j :: 0 <= i < j < |proxies| && Holds(proxies[i]) && Holds(proxies[j]) ==>
        proxies[i].port != proxies[j].port
    ensures |HeldPorts(proxies)| == HeldCount(proxies)
    decreases |proxies|
  {
    if proxies != [] {
      var init, last := proxies[..|proxies| - 1], proxies[|proxies| - 1];
      HeldPortsCount(init);
      HeldPortsLast(proxies);
      if Holds(last) {
        assert last.port !in HeldPorts(init);
      }
    }
  }

  lemma HeldPortsLast(proxies: seq<Proxy>)
    requires proxies != []
    ensures var init, last := proxies[..|proxies| - 1], proxies[|proxies| - 1];
            HeldPorts(proxies) == HeldPorts(init) + if Holds(last) then {last.port} else {}
  {
    var init, last := proxies[..|proxies| - 1], proxies[|proxies| - 1];
    forall p ensures p in HeldPorts(proxies) <==> p in HeldPorts(init) || (Holds(last) && p == last.port) {
      if p in HeldPorts(init) {
        var i :| 0 <= i < |init| && Holds(init[i]) && init[i].port == p;
        assert proxies[i] == init[i];
      }
      if Holds(last) && p == last.port {
        assert proxies[|proxies| - 1].port == p;
      }
      if p in HeldPorts(proxies) {
        var i :| 0 <= i < |proxies| && Holds(proxies[i]) && proxies[i].port == p;
        assert i < |init| ==> init[i] == proxies[i];
      }
    }
  }

  function Range(a: int, b: int): (r: set<int>)
    requires a <= b + 1
    ensures |r| == b - a + 1
    ensures forall p :: p in r <==> a <= p <= b
    decreases b - a
  {
    if a > b then {} else {a} + Range(a + 1, b)
  }

  /** In every reachable state the next allocation gets the lowest port that no unreaped proxy holds, and it fails
      exactly when as many proxies hold ports as the range has. */
  lemma AllocationIsExact(run: seq<Step>, startPort: int, endPort: int)
    requires After(run, startPort, endPort).Some? && ValidRange(startPort, endPort)
    ensures var s := After(run, startPort, endPort).value;
            var next := LeastFree(s.portsInUse, startPort, endPort);
            && s.portsInUse == HeldPorts(s.proxies) && |s.portsInUse| == HeldCount(s.proxies)
            && (next.None? <==> HeldCount(s.proxies) == endPort - startPort + 1)
            && (next.Some? ==> startPort <= next.value <= endPort && next.value !in HeldPorts(s.proxies)
                               && forall p :: startPort <= p < next.value ==> p in HeldPorts(s.proxies))
  {
    PortsInUseAreHeld(run, startPort, endPort);
    var s := After(run, startPort, endPort).value;
    InUseIsHeld(s, startPort, endPort);
    HeldPortsCount(s.proxies);
    LeastFreeIsLeast(s.portsInUse, startPort, endPort);
    var range := Range(startPort, endPort);
    SubsetSmaller(s.portsInUse, range);
    assert LeastFree(s.portsInUse, startPort, endPort).None? <==> range <= s.portsInUse;
  }

  lemma InUseIsHeld(s: State, startPort: int, endPort: int)
    requires Inv(s, startPort, endPort)
    ensures s.portsInUse == HeldPorts(s.proxies) && forall p :: p in s.portsInUse ==> startPort <= p <= endPort
    ensures forall i, j :: 0 <= i < j < |s.proxies| && Holds(s.proxies[i]) && Holds(s.proxies[j]) ==>
        s.proxies[i].port != s.proxies[j].port
  {
    forall p ensures p in s.portsInUse <==> p in HeldPorts(s.proxies) {
      if p in s.portsInUse {
        var i :| HeldBy(s.proxies, i, p);
      }
      if p in HeldPorts(s.proxies) {
        var i :| 0 <= i < |s.proxies| && Holds(s.proxies[i]) && s.proxies[i].port == p;
        assert HeldBy(s.proxies, i, p);
      }
    }
    forall i, j | 0 <= i < j < |s.proxies| && Holds(s.proxies[i]) && Holds(s.proxies[j])
      ensures s.proxies[i].port != s.proxies[j].port
    {
      assert HeldBy(s.proxies, i, s.proxies[i].port) && HeldBy(s.proxies, j, s.proxies[j].port);
    }
  }

  lemma SubsetSmaller(a: set<int>, b: set<int>)
    requires a <= b
    ensures |a| == |b| <==> b <= a
  {
    assert b == a + (b - a);
    assert |b| == |a| + |b - a|;
  }
}
