/** Every interleaving of an unbounded number of clients of one task manager. A step is one
    lock-protected section, one unlocked assignment, or one event of the outside: an answer of the task
    service, a step of a proxy's goroutines. */
module TaskRuns {
  import opened Outcomes
  import opened ProcRegistry
  import IoPair

  /** How far the client that made a record has got with wiring its stdio. */
  datatype Stage = Fresh | ProxySet | Started | Wired

  datatype Proc = Proc(
    taskID: string,
    execID: string,
    creator: nat,              // the client that made it
    own: nat,                  // the proxy that client brought
    stage: Stage,
    proxy: Option<nat>,
    ioCopyDone: Option<nat>,
    removed: bool              // deleteProc has taken it out of the table
  )

  datatype Proxy = Proxy(isNull: bool, forAttach: bool, started: bool, session: IoPair.Session, closed: bool)

  datatype Client =
    // CreateTask and ExecProcess
    | Creating(taskID: string, execID: string, proxy: nat)
    | HasProc(proc: nat, proxy: nat)
    | HasProxy(proc: nat, proxy: nat)
    | HasStarted(proc: nat, proxy: nat)
    | Calling(proc: nat, proxy: nat)
    | AwaitingInit(proc: nat, proxy: nat)
    | RollingBack(proc: nat)
    | CreateOk(proc: nat)
    | CreateErr
    // DeleteProcess; `returned` records that the create of the process had returned when it was deleted
    | Deleting(taskID: string, execID: string, agentDone: bool)
    | HasDeleted(proc: nat, returned: bool)
    | AwaitingCopy(proc: nat, chan: Option<nat>, returned: bool)
    | DeleteOk(proc: nat, drained: nat, returned: bool)
    | DeleteErr
    // AttachIO
    | Attaching(taskID: string, execID: string, proxy: nat)
    | AttachDone(ok: bool)
    // ShutdownIfEmpty
    | ShuttingDown
    | ShutdownDone(didShutdown: bool)

  /** monitorIO, started by a successful create and by every attach. */
  datatype Monitor = Monitor(proc: nat, chan: nat, fired: bool)

  datatype State = State(
    tasks: Table<nat>,
    isShutdown: bool,
    procs: seq<Proc>,
    proxies: seq<Proxy>,
    clients: seq<Client>,
    monitors: seq<Monitor>
  )

  const INIT := State(map[], false, [], [], [], [])

  datatype Step =
    | SpawnCreate(taskID: string, execID: string, isNull: bool, streams: nat)
    | SpawnDelete(taskID: string, execID: string)
    | SpawnAttach(taskID: string, execID: string, isNull: bool, streams: nat)
    | SpawnShutdown
    | NewProcStep(c: nat)
    | SetProxy(c: nat)
    | StartProxy(c: nat)
    | SetCopyDone(c: nat)
    | CallReturns(c: nat, ok: bool)
    | InitArrives(c: nat)
    | Rollback(c: nat)
    | AgentDeletes(c: nat, ok: bool)
    | DeleteProcStep(c: nat)
    | ReadChannel(c: nat)
    | CopyArrives(c: nat)
    | Attach(c: nat)
    | Shutdown(c: nat)
    | MonitorFires(m: nat)
    | InitErrorCloses(x: nat)
    | ProxyStep(x: nat, step: IoPair.SessionStep)

  /** A null proxy has no streams and so is initialised and drained from the start. */
  function NewProxy(isNull: bool, forAttach: bool, streams: nat): Proxy {
    Proxy(isNull, forAttach, false, IoPair.NewSession(if isNull then 0 else streams), false)
  }

  /** findProc: the record, if it is registered and has a proxy. */
  function Find(s: State, taskID: string, execID: string): Option<nat> {
    if Has(s.tasks, taskID, execID) && s.tasks[taskID][execID] < |s.procs|
        && s.procs[s.tasks[taskID][execID]].proxy.Some?
    then Some(s.tasks[taskID][execID]) else None
  }

  /** The create of record `p` has returned successfully. */
  predicate Returned(s: State, p: nat) {
    p < |s.procs| && s.procs[p].creator < |s.clients| && s.clients[s.procs[p].creator] == CreateOk(p)
  }

  predicate Enabled(s: State, step: Step) {
    match step
    case SpawnCreate(_, _, _, _) => true
    case SpawnDelete(_, _) => true
    case SpawnAttach(_, _, _, _) => true
    case SpawnShutdown => true
    case NewProcStep(c) => c < |s.clients| && s.clients[c].Creating?
    case SetProxy(c) => c < |s.clients| && s.clients[c].HasProc? && s.clients[c].proc < |s.procs|
    case StartProxy(c) =>
      c < |s.clients| && s.clients[c].HasProxy? && s.clients[c].proc < |s.procs| && s.clients[c].proxy < |s.proxies|
    case SetCopyDone(c) => c < |s.clients| && s.clients[c].HasStarted? && s.clients[c].proc < |s.procs|
    case CallReturns(c, _) => c < |s.clients| && s.clients[c].Calling?
    case InitArrives(c) =>
      && c < |s.clients| && s.clients[c].AwaitingInit? && s.clients[c].proxy < |s.proxies|
      && var session := s.proxies[s.clients[c].proxy].session;
         IoPair.InitOk(session) || IoPair.InitFailedWith(session)
    case Rollback(c) => c < |s.clients| && s.clients[c].RollingBack? && s.clients[c].proc < |s.procs|
    case AgentDeletes(c, _) => c < |s.clients| && s.clients[c].Deleting? && !s.clients[c].agentDone
    case DeleteProcStep(c) => c < |s.clients| && s.clients[c].Deleting? && s.clients[c].agentDone
    case ReadChannel(c) => c < |s.clients| && s.clients[c].HasDeleted? && s.clients[c].proc < |s.procs|
    case CopyArrives(c) =>
      && c < |s.clients| && s.clients[c].AwaitingCopy?
      // a receive from a nil channel blocks forever
      && s.clients[c].chan.Some? && s.clients[c].chan.value < |s.proxies|
      && IoPair.CopyDone(s.proxies[s.clients[c].chan.value].session)
    case Attach(c) => c < |s.clients| && s.clients[c].Attaching? && s.clients[c].proxy < |s.proxies|
    case Shutdown(c) => c < |s.clients| && s.clients[c].ShuttingDown?
    case MonitorFires(m) =>
      && m < |s.monitors| && !s.monitors[m].fired
      && s.monitors[m].chan < |s.proxies| && IoPair.CopyDone(s.proxies[s.monitors[m].chan].session)
      && s.monitors[m].proc < |s.procs| && s.procs[s.monitors[m].proc].proxy.Some?
      && s.procs[s.monitors[m].proc].proxy.value < |s.proxies|
    case InitErrorCloses(x) =>
      x < |s.proxies| && s.proxies[x].forAttach && s.proxies[x].started && IoPair.InitFailedWith(s.proxies[x].session)
    case ProxyStep(x, st) => x < |s.proxies| && s.proxies[x].started && IoPair.SessionEnabled(s.proxies[x].session, st)
  }

  function At(s: State, c: nat, client: Client): State
    requires c < |s.clients|
  {
    s.(clients := s.clients[c := client])
  }

  /** The process at `p` is out of the table. */
  function Removed(s: State, p: nat): seq<Proc> {
    if p < |s.procs| then s.procs[p := s.procs[p].(removed := true)] else s.procs
  }

  function Start(s: State, x: nat): seq<Proxy>
    requires x < |s.proxies|
  {
    s.proxies[x := s.proxies[x].(started := true)]
  }

  /** Close, which does nothing on a null proxy. */
  function CloseProxy(s: State, x: nat): seq<Proxy>
    requires x < |s.proxies|
  {
    s.proxies[x := s.proxies[x].(closed := s.proxies[x].closed || !s.proxies[x].isNull)]
  }

  function ApplyNewProc(s: State, c: nat): State
    requires Enabled(s, NewProcStep(c))
  {
    var Creating(t, e, x) := s.clients[c];
    var p := |s.procs|;
    match NewProc(s.tasks, s.isShutdown, t, e, p)
    case Err(_) => At(s, c, CreateErr)
    case Ok(tasks) =>
      At(s, c, HasProc(p, x)).(tasks := tasks, procs := s.procs + [Proc(t, e, c, x, Fresh, None, None, false)])
  }

  function ApplyRollback(s: State, c: nat): State
    requires Enabled(s, Rollback(c))
  {
    var proc := s.procs[s.clients[c].proc];
    match DeleteProc(s.tasks, proc.taskID, proc.execID)
    case Err(_) => At(s, c, CreateErr)
    case Ok((tasks, q)) => At(s, c, CreateErr).(tasks := tasks, procs := Removed(s, q))
  }

  function ApplyDelete(s: State, c: nat): State
    requires Enabled(s, DeleteProcStep(c))
  {
    match DeleteProc(s.tasks, s.clients[c].taskID, s.clients[c].execID)
    case Err(_) => At(s, c, DeleteErr)
    case Ok((tasks, q)) =>
      At(s, c, HasDeleted(q, Returned(s, q))).(tasks := tasks, procs := Removed(s, q))
  }

  function ApplyAttach(s: State, c: nat): State
    requires Enabled(s, Attach(c))
  {
    var Attaching(t, e, x) := s.clients[c];
    match Find(s, t, e)
    case None => At(s, c, AttachDone(false))
    case Some(p) =>
      var proc := s.procs[p];
      At(s, c, AttachDone(true)).(
        procs := s.procs[p := proc.(proxy := Some(x), ioCopyDone := Some(x))],
        proxies := Start(s, x),
        monitors := s.monitors + [Monitor(p, x, false)])
  }

  function Apply(s: State, step: Step): State
    requires Enabled(s, step)
  {
    match step
    case SpawnCreate(t, e, isNull, n) =>
      s.(clients := s.clients + [Creating(t, e, |s.proxies|)], proxies := s.proxies + [NewProxy(isNull, false, n)])
    case SpawnDelete(t, e) => s.(clients := s.clients + [Deleting(t, e, false)])
    case SpawnAttach(t, e, isNull, n) =>
      s.(clients := s.clients + [Attaching(t, e, |s.proxies|)], proxies := s.proxies + [NewProxy(isNull, true, n)])
    case SpawnShutdown => s.(clients := s.clients + [ShuttingDown])
    case NewProcStep(c) => ApplyNewProc(s, c)
    case SetProxy(c) =>
      var HasProc(p, x) := s.clients[c];
      At(s, c, HasProxy(p, x)).(procs := s.procs[p := s.procs[p].(proxy := Some(x), stage := ProxySet)])
    case StartProxy(c) =>
      var HasProxy(p, x) := s.clients[c];
      At(s, c, HasStarted(p, x)).(proxies := Start(s, x), procs := s.procs[p := s.procs[p].(stage := Started)])
    case SetCopyDone(c) =>
      var HasStarted(p, x) := s.clients[c];
      At(s, c, Calling(p, x)).(procs := s.procs[p := s.procs[p].(ioCopyDone := Some(x), stage := Wired)])
    case CallReturns(c, ok) =>
      At(s, c, if ok then AwaitingInit(s.clients[c].proc, s.clients[c].proxy) else RollingBack(s.clients[c].proc))
    case InitArrives(c) =>
      var AwaitingInit(p, x) := s.clients[c];
      if IoPair.InitOk(s.proxies[x].session)
      then At(s, c, CreateOk(p)).(monitors := s.monitors + [Monitor(p, x, false)])
      else At(s, c, RollingBack(p))
    case Rollback(c) => ApplyRollback(s, c)
    case AgentDeletes(c, ok) => At(s, c, if ok then s.clients[c].(agentDone := true) else DeleteErr)
    case DeleteProcStep(c) => ApplyDelete(s, c)
    case ReadChannel(c) =>
      At(s, c, AwaitingCopy(s.clients[c].proc, s.procs[s.clients[c].proc].ioCopyDone, s.clients[c].returned))
    case CopyArrives(c) => At(s, c, DeleteOk(s.clients[c].proc, s.clients[c].chan.value, s.clients[c].returned))
    case Attach(c) => ApplyAttach(s, c)
    case Shutdown(c) =>
      if |s.tasks| == 0 then At(s, c, ShutdownDone(true)).(isShutdown := true) else At(s, c, ShutdownDone(false))
    case MonitorFires(m) =>
      s.(monitors := s.monitors[m := s.monitors[m].(fired := true)],
         proxies := CloseProxy(s, s.procs[s.monitors[m].proc].proxy.value))
    case InitErrorCloses(x) => s.(proxies := CloseProxy(s, x))
    case ProxyStep(x, st) =>
      s.(proxies := s.proxies[x := s.proxies[x].(session := IoPair.SessionApply(s.proxies[x].session, st))])
  }

  /** The state a run ends in, if every step of it was possible. */
  ghost function After(run: seq<Step>): Option<State>
    decreases |run|
  {
    if run == [] then Some(INIT)
    else
      var last := run[|run| - 1];
      match After(run[..|run| - 1])
      case None => None
      case Some(s) => if Enabled(s, last) then Some(Apply(s, last)) else None
  }

  lemma Extend(run: seq<Step>, s: State, step: Step)
    requires After(run) == Some(s) && Enabled(s, step)
    ensures After(run + [step]) == Some(Apply(s, step))
  {
  }

  // ----- the invariant -----

  ghost predicate TableInv(s: State) {
    && Tidy(s.tasks)
    && (forall t, e :: Has(s.tasks, t, e) ==> Entry(s.procs, s.tasks[t][e], t, e))
    && (forall p :: 0 <= p < |s.procs| && !s.procs[p].removed ==>
        Listed(s.tasks, p, s.procs[p].taskID, s.procs[p].execID))
    && (s.isShutdown ==> s.tasks == map[])
  }

  ghost predicate Listed(tasks: Table<nat>, p: nat, t: string, e: string) {
    Has(tasks, t, e) && tasks[t][e] == p
  }

  /** A registered record carries the IDs it is stored under. */
  ghost predicate Entry(procs: seq<Proc>, p: nat, t: string, e: string) {
    p < |procs| && procs[p].taskID == t && procs[p].execID == e && !procs[p].removed
  }

  ghost predicate Usable(x: Option<nat>, proxies: seq<Proxy>) {
    x.Some? && x.value < |proxies| && proxies[x.value].started
  }

  ghost predicate ProcInv(p: Proc, proxies: seq<Proxy>) {
    && p.own < |proxies| && !proxies[p.own].forAttach
    && (p.ioCopyDone.Some? ==> Usable(p.ioCopyDone, proxies))
    && match p.stage
       case Fresh => p.proxy == None && p.ioCopyDone == None
       case Wired => p.proxy.Some? && p.proxy.value < |proxies| && p.ioCopyDone.Some?
       case _ => p.proxy.Some? && p.proxy.value < |proxies|
  }

  ghost predicate Makes(c: nat, p: nat, x: nat, stage: Stage, procs: seq<Proc>, proxies: seq<Proxy>) {
    && p < |procs| && procs[p].creator == c && procs[p].own == x && procs[p].stage == stage
    && x < |proxies| && !proxies[x].forAttach
  }

  ghost predicate ClientInv(c: nat, client: Client, procs: seq<Proc>, proxies: seq<Proxy>) {
    match client
    case Creating(_, _, x) => x < |proxies| && !proxies[x].forAttach
    case HasProc(p, x) => Makes(c, p, x, Fresh, procs, proxies)
    case HasProxy(p, x) => Makes(c, p, x, ProxySet, procs, proxies)
    case HasStarted(p, x) => Makes(c, p, x, Started, procs, proxies) && proxies[x].started
    case Calling(p, x) => Makes(c, p, x, Wired, procs, proxies)
    case AwaitingInit(p, x) => Makes(c, p, x, Wired, procs, proxies)
    case RollingBack(p) => p < |procs|
    case CreateOk(p) =>
      p < |procs| && procs[p].stage == Wired && procs[p].own < |proxies| && IoPair.InitOk(proxies[procs[p].own].session)
    case HasDeleted(p, returned) => p < |procs| && procs[p].removed && (returned ==> procs[p].stage == Wired)
    case AwaitingCopy(p, ch, returned) =>
      && p < |procs| && procs[p].removed
      && (returned ==> procs[p].stage == Wired && ch == procs[p].ioCopyDone)
      && (ch.Some? ==> Usable(ch, proxies))
    case DeleteOk(p, ch, returned) =>
      && p < |procs| && procs[p].removed && ch < |proxies| && IoPair.CopyDone(proxies[ch].session)
      && (returned ==> procs[p].stage == Wired && Some(ch) == procs[p].ioCopyDone)
    case Attaching(_, _, x) => x < |proxies| && proxies[x].forAttach
    case _ => true
  }

  ghost predicate ProxiesInv(proxies: seq<Proxy>) {
    forall x :: 0 <= x < |proxies| ==> IoPair.SessionInv(proxies[x].session)
  }

  ghost predicate ProcsInv(procs: seq<Proc>, proxies: seq<Proxy>) {
    forall p :: 0 <= p < |procs| ==> ProcInv(procs[p], proxies)
  }

  ghost predicate ClientsInv(clients: seq<Client>, procs: seq<Proc>, proxies: seq<Proxy>) {
    forall c :: 0 <= c < |clients| ==> ClientInv(c, clients[c], procs, proxies)
  }

  ghost predicate Inv(s: State) {
    TableInv(s) && ProxiesInv(s.proxies) && ProcsInv(s.procs, s.proxies) && ClientsInv(s.clients, s.procs, s.proxies)
  }

  lemma InvParts(s: State)
    requires Inv(s)
    ensures TableInv(s) && ProxiesInv(s.proxies) && ProcsInv(s.procs, s.proxies)
  {
  }

  lemma ClientOf(s: State, c: nat)
    requires Inv(s) && c < |s.clients|
    ensures ClientInv(c, s.clients[c], s.procs, s.proxies)
  {
  }

  // ----- what a step may change under the feet of the other clients -----

  /** Proxies only ever start, and what their channels reported stays reported. */
  ghost predicate ProxiesGrow(proxies: seq<Proxy>, proxies': seq<Proxy>) {
    && |proxies| <= |proxies'|
    && forall x :: 0 <= x < |proxies| ==>
         && proxies'[x].forAttach == proxies[x].forAttach
         && (proxies[x].started ==> proxies'[x].started)
         && (IoPair.CopyDone(proxies[x].session) ==> IoPair.CopyDone(proxies'[x].session))
         && (IoPair.InitOk(proxies[x].session) ==> IoPair.InitOk(proxies'[x].session))
  }

  /** A record keeps its maker, changes stage only by its maker `who`, and once removed and wired is fixed. */
  ghost predicate ProcGrows(p: Proc, p': Proc, who: Option<nat>) {
    && p'.creator == p.creator && p'.own == p.own
    && (p.removed ==> p'.removed)
    && (p'.stage == p.stage || (Some(p.creator) == who && p.stage != Wired))
    && (p.removed && p.stage == Wired ==> p'.ioCopyDone == p.ioCopyDone)
  }

  ghost predicate ProcsGrow(procs: seq<Proc>, procs': seq<Proc>, who: Option<nat>) {
    && |procs| <= |procs'|
    && forall p :: 0 <= p < |procs| ==> ProcGrows(procs[p], procs'[p], who)
  }

  /** A step changes at most one client and otherwise only lets things grow. */
  lemma ClientsFrame(s: State, s': State, c: nat, who: Option<nat>)
    requires ClientsInv(s.clients, s.procs, s.proxies)
    requires ProcsGrow(s.procs, s'.procs, who) && ProxiesGrow(s.proxies, s'.proxies)
    requires |s.clients| <= |s'.clients| <= |s.clients| + 1
    requires forall d :: 0 <= d < |s.clients| && d != c ==> s'.clients[d] == s.clients[d] && who != Some(d)
    requires c < |s'.clients| && (|s.clients| < |s'.clients| ==> c == |s.clients|)
    requires ClientInv(c, s'.clients[c], s'.procs, s'.proxies)
    ensures ClientsInv(s'.clients, s'.procs, s'.proxies)
  {
  }

  lemma ProcsFrame(procs: seq<Proc>, proxies: seq<Proxy>, proxies': seq<Proxy>)
    requires ProcsInv(procs, proxies) && ProxiesGrow(proxies, proxies')
    ensures ProcsInv(procs, proxies')
  {
  }

  lemma NewSessionInv(streams: nat)
    ensures IoPair.SessionInv(IoPair.NewSession(streams))
  {
  }

  lemma TableFrame(s: State, s': State)
    requires TableInv(s) && s'.tasks == s.tasks && s'.isShutdown == s.isShutdown && |s.procs| == |s'.procs|
    requires forall p :: 0 <= p < |s.procs| ==>
               s'.procs[p].taskID == s.procs[p].taskID && s'.procs[p].execID == s.procs[p].execID
               && s'.procs[p].removed == s.procs[p].removed
    ensures TableInv(s')
  {
  }

  lemma SpawnKeeps(s: State, step: Step)
    requires Inv(s) && (step.SpawnCreate? || step.SpawnDelete? || step.SpawnAttach? || step.SpawnShutdown?)
    ensures Inv(Apply(s, step))
  {
    hide IoPair.SessionInv, IoPair.CopyDone, IoPair.InitOk, IoPair.NewSession;
    var s' := Apply(s, step);
    if step.SpawnCreate? || step.SpawnAttach? {
      NewSessionInv(if step.isNull then 0 else step.streams);
    }
    TableFrame(s, s');
    ProcsFrame(s.procs, s.proxies, s'.proxies);
    ClientsFrame(s, s', |s.clients|, None);
  }

  /** An unlocked assignment of the creating client `c` to its record `p`. */
  lemma WiringKeeps(s: State, c: nat, client: Client, p: nat, proc: Proc, proxies: seq<Proxy>)
    requires Inv(s) && c < |s.clients| && p < |s.procs| && ProxiesGrow(s.proxies, proxies) && ProxiesInv(proxies)
    requires proc == s.procs[p].(stage := proc.stage, proxy := proc.proxy, ioCopyDone := proc.ioCopyDone)
    requires ProcInv(proc, proxies) && ProcGrows(s.procs[p], proc, Some(c))
    requires ClientInv(c, client, s.procs[p := proc], proxies)
    ensures Inv(At(s, c, client).(procs := s.procs[p := proc], proxies := proxies))
  {
    hide IoPair.SessionInv, IoPair.CopyDone, IoPair.InitOk, TableInv, ProcInv, ClientInv;
    var s' := At(s, c, client).(procs := s.procs[p := proc], proxies := proxies);
    TableFrame(s, s');
    ProcsFrame(s.procs, s.proxies, proxies);
    ClientsFrame(s, s', c, Some(c));
  }

  lemma SetProxyKeeps(s: State, c: nat)
    requires Inv(s) && Enabled(s, SetProxy(c))
    ensures Inv(Apply(s, SetProxy(c)))
  {
    hide IoPair.SessionInv, IoPair.CopyDone, IoPair.InitOk, TableInv;
    var HasProc(p, x) := s.clients[c];
    assert ClientInv(c, s.clients[c], s.procs, s.proxies) && ProcInv(s.procs[p], s.proxies);
    WiringKeeps(s, c, HasProxy(p, x), p, s.procs[p].(proxy := Some(x), stage := ProxySet), s.proxies);
  }

  lemma StartProxyKeeps(s: State, c: nat)
    requires Inv(s) && Enabled(s, StartProxy(c))
    ensures Inv(Apply(s, StartProxy(c)))
  {
    hide IoPair.SessionInv, IoPair.CopyDone, IoPair.InitOk, TableInv;
    var HasProxy(p, x) := s.clients[c];
    assert ClientInv(c, s.clients[c], s.procs, s.proxies) && ProcInv(s.procs[p], s.proxies);
    WiringKeeps(s, c, HasStarted(p, x), p, s.procs[p].(stage := Started), Start(s, x));
  }

  lemma SetCopyDoneKeeps(s: State, c: nat)
    requires Inv(s) && Enabled(s, SetCopyDone(c))
    ensures Inv(Apply(s, SetCopyDone(c)))
  {
    hide IoPair.SessionInv, IoPair.CopyDone, IoPair.InitOk, TableInv;
    var HasStarted(p, x) := s.clients[c];
    assert ClientInv(c, s.clients[c], s.procs, s.proxies) && ProcInv(s.procs[p], s.proxies);
    WiringKeeps(s, c, Calling(p, x), p, s.procs[p].(ioCopyDone := Some(x), stage := Wired), s.proxies);
  }

  lemma NewProcKeeps(s: State, c: nat)
    requires Inv(s) && Enabled(s, NewProcStep(c))
    ensures Inv(ApplyNewProc(s, c))
  {
    hide IoPair.SessionInv, IoPair.CopyDone, IoPair.InitOk, TableInv, ProcInv;
    var s' := ApplyNewProc(s, c);
    assert ClientInv(c, s.clients[c], s.procs, s.proxies);
    if s'.clients[c].HasProc? {
      NewProcTable(s, s'.tasks, s'.procs[|s.procs|]);
      TableFrame(s.(tasks := s'.tasks, procs := s'.procs), s');
      FreshProc(s, s.clients[c].taskID, s.clients[c].execID, c, s.clients[c].proxy);
    } else {
      TableFrame(s, s');
    }
    ClientsFrame(s, s', c, None);
  }

  lemma FreshProc(s: State, t: string, e: string, c: nat, x: nat)
    requires x < |s.proxies| && !s.proxies[x].forAttach
    ensures ProcInv(Proc(t, e, c, x, Fresh, None, None, false), s.proxies)
  {
  }

  /** `tasks'` is `tasks` with `proc`, the next record, added. */
  ghost predicate Added(tasks: Table<nat>, tasks': Table<nat>, n: nat, taskID: string, execID: string) {
    && !Has(tasks, taskID, execID) && Listed(tasks', n, taskID, execID)
    && (forall t, e :: Has(tasks', t, e) ==>
        (t == taskID && e == execID) || (Has(tasks, t, e) && tasks'[t][e] == tasks[t][e]))
    && (forall t, e :: Has(tasks, t, e) ==> Listed(tasks', tasks[t][e], t, e))
  }

  lemma NewProcIsAdded(tasks: Table<nat>, isShutdown: bool, n: nat, taskID: string, execID: string)
    requires Tidy(tasks) && NewProc(tasks, isShutdown, taskID, execID, n).Ok?
    ensures var tasks' := NewProc(tasks, isShutdown, taskID, execID, n).value;
            Added(tasks, tasks', n, taskID, execID) && Tidy(tasks')
  {
    hide Pairs;
    NewProcAdds(tasks, isShutdown, taskID, execID, n);
    hide Tidy, NewProc;
  }

  lemma NewProcTable(s: State, tasks: Table<nat>, proc: Proc)
    requires TableInv(s) && !proc.removed
    requires NewProc(s.tasks, s.isShutdown, proc.taskID, proc.execID, |s.procs|) == Ok(tasks)
    ensures TableInv(s.(tasks := tasks, procs := s.procs + [proc]))
  {
    NewProcIsAdded(s.tasks, s.isShutdown, |s.procs|, proc.taskID, proc.execID);
    hide Tidy, Added, Has, Entry, Listed;
    AddedEntries(s.procs, s.tasks, tasks, proc);
    AddedListed(s.procs, s.tasks, tasks, proc);
  }

  lemma AddedEntries(procs: seq<Proc>, tasks: Table<nat>, tasks': Table<nat>, proc: Proc)
    requires Added(tasks, tasks', |procs|, proc.taskID, proc.execID) && !proc.removed
    requires forall t, e :: Has(tasks, t, e) ==> Entry(procs, tasks[t][e], t, e)
    ensures forall t, e :: Has(tasks', t, e) ==> Entry(procs + [proc], tasks'[t][e], t, e)
  {
  }

  lemma AddedListed(procs: seq<Proc>, tasks: Table<nat>, tasks': Table<nat>, proc: Proc)
    requires Added(tasks, tasks', |procs|, proc.taskID, proc.execID)
    requires forall p :: 0 <= p < |procs| && !procs[p].removed ==> Listed(tasks, p, procs[p].taskID, procs[p].execID)
    ensures var procs' := procs + [proc];
            forall p :: 0 <= p < |procs'| && !procs'[p].removed ==>
                Listed(tasks', p, procs'[p].taskID, procs'[p].execID)
  {
  }

  /** `tasks'` is `tasks` without its entry for the key. */
  ghost predicate Taken(tasks: Table<nat>, tasks': Table<nat>, taskID: string, execID: string) {
    && (forall t, e :: Has(tasks', t, e) <==> Has(tasks, t, e) && (t, e) != (taskID, execID))
    && (forall t, e :: Has(tasks', t, e) ==> tasks'[t][e] == tasks[t][e])
  }

  /** Taking an entry out of the table and marking its record leaves the rest of the table valid. */
  lemma RemovalTable(s: State, taskID: string, execID: string)
    requires TableInv(s) && Has(s.tasks, taskID, execID)
    ensures var (tasks, q) := DeleteProc(s.tasks, taskID, execID).value;
            q < |s.procs| && TableInv(s.(tasks := tasks, procs := Removed(s, q)))
  {
    hide Pairs;
    DeleteProcRemoves(s.tasks, taskID, execID);
    var (tasks, q) := DeleteProc(s.tasks, taskID, execID).value;
    assert Taken(s.tasks, tasks, taskID, execID);
    hide Tidy, DeleteProc, Taken, Listed;
    assert Entry(s.procs, q, taskID, execID);
    TakenEntries(s, tasks, taskID, execID);
    TakenListed(s, tasks, taskID, execID);
  }

  lemma TakenEntries(s: State, tasks: Table<nat>, taskID: string, execID: string)
    requires Taken(s.tasks, tasks, taskID, execID) && Has(s.tasks, taskID, execID)
    requires forall t, e :: Has(s.tasks, t, e) ==> Entry(s.procs, s.tasks[t][e], t, e)
    ensures forall t, e :: Has(tasks, t, e) ==> Entry(Removed(s, s.tasks[taskID][execID]), tasks[t][e], t, e)
  {
    forall t, e | Has(tasks, t, e) ensures Entry(Removed(s, s.tasks[taskID][execID]), tasks[t][e], t, e) {
      assert Entry(s.procs, s.tasks[t][e], t, e) && Entry(s.procs, s.tasks[taskID][execID], taskID, execID);
    }
  }

  lemma TakenListed(s: State, tasks: Table<nat>, taskID: string, execID: string)
    requires Taken(s.tasks, tasks, taskID, execID) && Has(s.tasks, taskID, execID)
    requires forall p :: 0 <= p < |s.procs| && !s.procs[p].removed ==>
               Listed(s.tasks, p, s.procs[p].taskID, s.procs[p].execID)
    ensures var procs := Removed(s, s.tasks[taskID][execID]);
            forall p :: 0 <= p < |procs| && !procs[p].removed ==> Listed(tasks, p, procs[p].taskID, procs[p].execID)
  {
    var procs := Removed(s, s.tasks[taskID][execID]);
    forall p | 0 <= p < |procs| && !procs[p].removed ensures Listed(tasks, p, procs[p].taskID, procs[p].execID) {
      assert Listed(s.tasks, p, s.procs[p].taskID, s.procs[p].execID);
    }
  }

  lemma RemovalProcs(s: State, q: nat)
    requires ProcsInv(s.procs, s.proxies) && q < |s.procs|
    ensures ProcsInv(Removed(s, q), s.proxies)
    ensures ProcsGrow(s.procs, Removed(s, q), None)
  {
  }

  /** A client takes the entry of a key out of the table, if there is one. */
  lemma RemovingKeeps(s: State, c: nat, client: Client, t: string, e: string)
    requires Inv(s) && c < |s.clients| && Has(s.tasks, t, e)
    requires var q := s.tasks[t][e]; q < |s.procs| && ClientInv(c, client, Removed(s, q), s.proxies)
    ensures DeleteProc(s.tasks, t, e).Ok?
    ensures var (tasks, q) := DeleteProc(s.tasks, t, e).value;
            q == s.tasks[t][e] && Inv(At(s, c, client).(tasks := tasks, procs := Removed(s, q)))
  {
    hide IoPair.SessionInv, IoPair.CopyDone, IoPair.InitOk, TableInv, ProcInv, ProcsInv, ClientInv;
    RemovalTable(s, t, e);
    var (tasks, q) := DeleteProc(s.tasks, t, e).value;
    hide DeleteProc;
    RemovalProcs(s, q);
    var s' := At(s, c, client).(tasks := tasks, procs := Removed(s, q));
    TableFrame(s.(tasks := tasks, procs := Removed(s, q)), s');
    ClientsFrame(s, s', c, None);
  }

  lemma RollbackKeeps(s: State, c: nat)
    requires Inv(s) && Enabled(s, Rollback(c))
    ensures Inv(ApplyRollback(s, c))
  {
    hide IoPair.InitOk, ProcsInv, ProxiesInv, TableInv, DeleteProc;
    var proc := s.procs[s.clients[c].proc];
    WhatIsDeleted(s, proc.taskID, proc.execID);
    if Has(s.tasks, proc.taskID, proc.execID) {
      RemovingKeeps(s, c, CreateErr, proc.taskID, proc.execID);
    } else {
      MoveKeeps(s, c, CreateErr, s.monitors);
    }
  }

  lemma DeleteKeeps(s: State, c: nat)
    requires Inv(s) && Enabled(s, DeleteProcStep(c))
    ensures Inv(ApplyDelete(s, c))
  {
    hide Inv, TableInv, ProcsInv, ProxiesInv, ApplyDelete, DeleteProc, IoPair.InitOk, IoPair.CopyDone;
    var t, e := s.clients[c].taskID, s.clients[c].execID;
    InvParts(s);
    DeleteHits(s, c);
    if Has(s.tasks, t, e) {
      var q := s.tasks[t][e];
      if Returned(s, q) {
        ClientOf(s, s.procs[q].creator);
      }
      RemovingKeeps(s, c, HasDeleted(q, Returned(s, q)), t, e);
    } else {
      MoveKeeps(s, c, DeleteErr, s.monitors);
    }
  }

  lemma DeleteHits(s: State, c: nat)
    requires TableInv(s) && Enabled(s, DeleteProcStep(c))
    ensures var t, e := s.clients[c].taskID, s.clients[c].execID;
            if Has(s.tasks, t, e) then
              var q := s.tasks[t][e];
              && Entry(s.procs, q, t, e) && DeleteProc(s.tasks, t, e).Ok?
              && ApplyDelete(s, c) == At(s, c, HasDeleted(q, Returned(s, q))).(
                   tasks := DeleteProc(s.tasks, t, e).value.0, procs := Removed(s, q))
            else ApplyDelete(s, c) == At(s, c, DeleteErr)
  {
    WhatIsDeleted(s, s.clients[c].taskID, s.clients[c].execID);
    hide TableInv;
  }

  lemma WhatIsDeleted(s: State, t: string, e: string)
    requires TableInv(s)
    ensures DeleteProc(s.tasks, t, e).Ok? <==> Has(s.tasks, t, e)
    ensures Has(s.tasks, t, e) ==>
        DeleteProc(s.tasks, t, e).value.1 == s.tasks[t][e] && Entry(s.procs, s.tasks[t][e], t, e)
  {
  }

  lemma AttachKeeps(s: State, c: nat)
    requires Inv(s) && Enabled(s, Attach(c))
    ensures Inv(ApplyAttach(s, c))
  {
    hide IoPair.SessionInv, IoPair.CopyDone, IoPair.InitOk, TableInv, ProcInv;
    var Attaching(t, e, x) := s.clients[c];
    assert ClientInv(c, s.clients[c], s.procs, s.proxies);
    if Find(s, t, e).Some? {
      var s' := ApplyAttach(s, c);
      AttachedProc(s, t, e, x);
      hide Find, ClientInv;
      TableFrame(s, s');
      ProcsFrame(s.procs, s.proxies, s'.proxies);
      ClientsFrame(s, s', c, None) by { DoneInv(c, s'.clients[c], s'.procs, s'.proxies); }
    } else {
      MoveKeeps(s, c, AttachDone(false), s.monitors);
    }
  }

  lemma AttachedProc(s: State, t: string, e: string, x: nat)
    requires TableInv(s) && ProcsInv(s.procs, s.proxies) && x < |s.proxies| && s.proxies[x].forAttach
        && Find(s, t, e).Some?
    ensures var proc := s.procs[Find(s, t, e).value];
            var proc' := proc.(proxy := Some(x), ioCopyDone := Some(x));
            ProcInv(proc', Start(s, x)) && ProcGrows(proc, proc', None)
  {
    var p := Find(s, t, e).value;
    assert Entry(s.procs, p, t, e);
    assert ProcInv(s.procs[p], s.proxies);
  }

  /** A step that only moves client `c` on. */
  lemma MoveKeeps(s: State, c: nat, client: Client, monitors: seq<Monitor>)
    requires Inv(s) && c < |s.clients| && ClientInv(c, client, s.procs, s.proxies)
    ensures Inv(At(s, c, client).(monitors := monitors))
  {
  }

  lemma CallReturnsKeeps(s: State, c: nat, ok: bool)
    requires Inv(s) && Enabled(s, CallReturns(c, ok))
    ensures Inv(Apply(s, CallReturns(c, ok)))
  {
    hide Inv, IoPair.InitOk, IoPair.CopyDone;
    ClientOf(s, c);
    MoveKeeps(s, c, Apply(s, CallReturns(c, ok)).clients[c], s.monitors);
  }

  lemma InitArrivesKeeps(s: State, c: nat)
    requires Inv(s) && Enabled(s, InitArrives(c))
    ensures Inv(Apply(s, InitArrives(c)))
  {
    hide Inv, IoPair.InitOk, IoPair.InitFailedWith, IoPair.CopyDone;
    ClientOf(s, c);
    var s' := Apply(s, InitArrives(c));
    MoveKeeps(s, c, s'.clients[c], s'.monitors);
  }

  lemma AgentDeletesKeeps(s: State, c: nat, ok: bool)
    requires Inv(s) && Enabled(s, AgentDeletes(c, ok))
    ensures Inv(Apply(s, AgentDeletes(c, ok)))
  {
    hide Inv;
    MoveKeeps(s, c, Apply(s, AgentDeletes(c, ok)).clients[c], s.monitors);
  }

  lemma ReadChannelKeeps(s: State, c: nat)
    requires Inv(s) && Enabled(s, ReadChannel(c))
    ensures Inv(Apply(s, ReadChannel(c)))
  {
    hide Inv, TableInv, IoPair.InitOk, IoPair.CopyDone;
    ClientOf(s, c);
    InvParts(s);
    assert ProcInv(s.procs[s.clients[c].proc], s.proxies);
    MoveKeeps(s, c, Apply(s, ReadChannel(c)).clients[c], s.monitors);
  }

  lemma CopyArrivesKeeps(s: State, c: nat)
    requires Inv(s) && Enabled(s, CopyArrives(c))
    ensures Inv(Apply(s, CopyArrives(c)))
  {
    hide Inv, IoPair.InitOk, IoPair.CopyDone;
    ClientOf(s, c);
    MoveKeeps(s, c, Apply(s, CopyArrives(c)).clients[c], s.monitors);
  }

  lemma ShutdownKeeps(s: State, c: nat)
    requires Inv(s) && Enabled(s, Shutdown(c))
    ensures Inv(Apply(s, Shutdown(c)))
  {
    hide TableInv, IoPair.SessionInv, ProcInv, ClientInv;
    var s' := Apply(s, Shutdown(c));
    ShutdownTable(s, c);
    ClientsFrame(s, s', c, None) by {
      assert ClientInv(c, s'.clients[c], s'.procs, s'.proxies) by { DoneInv(c, s'.clients[c], s'.procs, s'.proxies); }
    }
  }

  lemma DoneInv(c: nat, client: Client, procs: seq<Proc>, proxies: seq<Proxy>)
    requires client.ShutdownDone? || client.AttachDone?
    ensures ClientInv(c, client, procs, proxies)
  {
  }

  lemma ShutdownTable(s: State, c: nat)
    requires TableInv(s) && Enabled(s, Shutdown(c))
    ensures TableInv(Apply(s, Shutdown(c)))
  {
  }

  /** A step that only changes proxies. */
  lemma ProxiesKeep(s: State, proxies: seq<Proxy>, monitors: seq<Monitor>)
    requires Inv(s) && ProxiesGrow(s.proxies, proxies) && ProxiesInv(proxies)
    ensures Inv(s.(proxies := proxies, monitors := monitors))
  {
  }

  /** The steps of the proxies and of the goroutines that close them. */
  lemma ProxyKeeps(s: State, step: Step)
    requires Inv(s) && Enabled(s, step) && (step.MonitorFires? || step.InitErrorCloses? || step.ProxyStep?)
    ensures Inv(Apply(s, step))
  {
    hide TableInv, ProcsInv, ClientsInv;
    var s' := Apply(s, step);
    if step.ProxyStep? {
      IoPair.SessionInvStep(s.proxies[step.x].session, step.step);
    }
    hide Inv, IoPair.SessionInv, IoPair.CopyDone, IoPair.InitOk, IoPair.InitFailedWith, IoPair.SessionApply,
         IoPair.SessionEnabled;
    ProxiesKeep(s, s'.proxies, s'.monitors);
  }

  lemma InvStep(s: State, step: Step)
    requires Inv(s) && Enabled(s, step)
    ensures Inv(Apply(s, step))
  {
    hide Inv;
    match step
    case SpawnCreate(_, _, _, _) => SpawnKeeps(s, step);
    case SpawnDelete(_, _) => SpawnKeeps(s, step);
    case SpawnAttach(_, _, _, _) => SpawnKeeps(s, step);
    case SpawnShutdown => SpawnKeeps(s, step);
    case NewProcStep(c) => NewProcKeeps(s, c);
    case SetProxy(c) => SetProxyKeeps(s, c);
    case StartProxy(c) => StartProxyKeeps(s, c);
    case SetCopyDone(c) => SetCopyDoneKeeps(s, c);
    case CallReturns(c, ok) => CallReturnsKeeps(s, c, ok);
    case InitArrives(c) => InitArrivesKeeps(s, c);
    case Rollback(c) => RollbackKeeps(s, c);
    case DeleteProcStep(c) => DeleteKeeps(s, c);
    case Attach(c) => AttachKeeps(s, c);
    case MonitorFires(_) => ProxyKeeps(s, step);
    case InitErrorCloses(_) => ProxyKeeps(s, step);
    case ProxyStep(_, _) => ProxyKeeps(s, step);
    case Shutdown(c) => ShutdownKeeps(s, c);
    case AgentDeletes(c, ok) => AgentDeletesKeeps(s, c, ok);
    case ReadChannel(c) => ReadChannelKeeps(s, c);
    case CopyArrives(c) => CopyArrivesKeeps(s, c);
  }

  lemma {:induction false} RunInv(run: seq<Step>)
    requires After(run).Some?
    ensures Inv(After(run).value)
    decreases |run|
  {
    hide Inv, Enabled, Apply;
    if run == [] {
      InitInv();
    } else {
      RunInv(run[..|run| - 1]);
      InvStep(After(run[..|run| - 1]).value, run[|run| - 1]);
    }
  }

  lemma InitInv()
    ensures Inv(INIT)
  {
  }

  // ----- what every run guarantees -----

  /** In every interleaving no task is left with an empty exec map, the table holds exactly the records not
      yet removed, each under its own IDs, and a manager that was shut down has no process. */
  lemma RegistryStaysConsistent(run: seq<Step>)
    requires After(run).Some?
    ensures var s := After(run).value;
            && Tidy(s.tasks)
            && (forall t, e :: Has(s.tasks, t, e) ==> Entry(s.procs, s.tasks[t][e], t, e))
            && (forall p :: 0 <= p < |s.procs| && !s.procs[p].removed ==>
                Listed(s.tasks, p, s.procs[p].taskID, s.procs[p].execID))
            && (s.isShutdown ==> Pairs(s.tasks) == {})
  {
    RunInv(run);
  }

  /** ShutdownIfEmpty answers true exactly when no process is registered. */
  lemma ShutdownIsExact(run: seq<Step>, c: nat)
    requires After(run).Some? && Enabled(After(run).value, Shutdown(c))
    ensures var s := After(run).value;
            After(run + [Shutdown(c)]) == Some(Apply(s, Shutdown(c)))
            && Apply(s, Shutdown(c)).clients[c] == ShutdownDone(Pairs(s.tasks) == {})
            && Apply(s, Shutdown(c)).isShutdown == (s.isShutdown || Pairs(s.tasks) == {})
  {
    RunInv(run);
    TidyEmpty(After(run).value.tasks);
    Extend(run, After(run).value, Shutdown(c));
  }

  lemma ShutTable(s: State)
    requires TableInv(s) && s.isShutdown
    ensures s.tasks == map[]
  {
  }

  lemma ShutdownStep(s: State, step: Step)
    requires TableInv(s) && s.isShutdown && Enabled(s, step)
    ensures Apply(s, step).isShutdown && Apply(s, step).tasks == map[]
    ensures step.NewProcStep? ==> Apply(s, step).clients[step.c] == CreateErr
  {
    hide IoPair.SessionApply, IoPair.InitOk, IoPair.NewSession;
  }

  /** Once a shutdown has succeeded the table stays empty and every later newProc fails,
      whatever the clients do. */
  lemma {:induction false} ShutdownIsForever(run: seq<Step>, more: seq<Step>)
    requires After(run).Some? && After(run).value.isShutdown && After(run + more).Some?
    ensures After(run + more).value.isShutdown && After(run + more).value.tasks == map[]
    ensures more != [] && more[|more| - 1].NewProcStep? ==>
              After(run + more).value.clients[more[|more| - 1].c] == CreateErr
    decreases |more|
  {
    hide Enabled, Apply, TableInv, ProcsInv, ClientsInv, ProxiesInv;
    if more == [] {
      assert run + more == run;
      RunInv(run);
      ShutTable(After(run).value);
    } else {
      var all, last := run + more, more[|more| - 1];
      assert all[..|all| - 1] == run + more[..|more| - 1];
      ShutdownIsForever(run, more[..|more| - 1]);
      RunInv(run + more[..|more| - 1]);
      ShutdownStep(After(all[..|all| - 1]).value, last);
    }
  }

  /** A create that has returned successfully has begun copying on every stream it configured. */
  lemma CreatedIsCopying(run: seq<Step>, c: nat)
    requires After(run).Some? && c < |After(run).value.clients| && After(run).value.clients[c].CreateOk?
    ensures var s := After(run).value;
            var p := s.clients[c].proc;
            && p < |s.procs| && s.procs[p].own < |s.proxies|
            && var pairs := s.proxies[s.procs[p].own].session.pairs;
               forall i :: 0 <= i < |pairs| ==> pairs[i].copy != IoPair.NotStarted
  {
    RunInv(run);
    var s := After(run).value;
    assert ClientInv(c, s.clients[c], s.procs, s.proxies);
    IoPair.SessionReports(s.proxies[s.procs[s.clients[c].proc].own].session);
  }

  // ----- the proxy a process was given last -----

  /** The proxy that the step gives to record `p`: the creator's own assignment, or an AttachIO. */
  function Given(s: State, step: Step, p: nat): Option<nat> {
    if !Enabled(s, step) then None
    else match step
      case SetProxy(c) => if s.clients[c].proc == p then Some(s.clients[c].proxy) else None
      case Attach(c) => if Find(s, s.clients[c].taskID, s.clients[c].execID) == Some(p) then Some(s.clients[c].proxy)
          else None
      case _ => None
  }

  /** The step is an AttachIO that finds record `p`. */
  predicate AttachesTo(s: State, step: Step, p: nat) {
    step.Attach? && Given(s, step, p).Some?
  }

  /** The step is the creator's write of the channel of its own proxy to record `p`. */
  predicate Wires(s: State, step: Step, p: nat) {
    step.SetCopyDone? && Enabled(s, step) && s.clients[step.c].proc == p
  }

  /** The proxy that record `p` was given last in the run. */
  ghost function LastGiven(run: seq<Step>, p: nat): Option<nat>
    requires After(run).Some?
    decreases |run|
  {
    if run == [] then None
    else
      var init, last := run[..|run| - 1], run[|run| - 1];
      var given := Given(After(init).value, last, p);
      if given.Some? then given else LastGiven(init, p)
  }

  /** The creator's write of its channel came after an AttachIO, and no AttachIO has come since. */
  ghost predicate Overtaken(run: seq<Step>, p: nat)
    requires After(run).Some?
    decreases |run|
  {
    if run == [] then false
    else
      var init, last := run[..|run| - 1], run[|run| - 1];
      var s := After(init).value;
      if AttachesTo(s, last, p) then false
      else if Wires(s, last, p) then LastGiven(init, p) != Some(s.clients[last.c].proxy)
      else Overtaken(init, p)
  }

  /** Every AttachIO on record `p` came after the create of the process had returned. */
  ghost predicate Patient(run: seq<Step>, p: nat)
    requires After(run).Some?
    decreases |run|
  {
    run == [] ||
    var init, last := run[..|run| - 1], run[|run| - 1];
    Patient(init, p) && (AttachesTo(After(init).value, last, p) ==> Returned(After(init).value, p))
  }

  /** What a step does to the proxy, the channel and the stage of a record. */
  ghost predicate Rewires(s: State, step: Step, s': State, p: nat) {
    && |s.procs| <= |s'.procs|
    && (p >= |s.procs| ==> Given(s, step, p) == None && !Wires(s, step, p))
    && (|s.procs| <= p < |s'.procs| ==> s'.procs[p].proxy == None && s'.procs[p].stage == Fresh)
    && (p < |s.procs| ==>
          && s'.procs[p].own == s.procs[p].own
          && s'.procs[p].proxy == (if Given(s, step, p).Some? then Given(s, step, p) else s.procs[p].proxy)
          && s'.procs[p].ioCopyDone == (if AttachesTo(s, step, p) then Given(s, step, p)
                                        else if Wires(s, step, p) then Some(s.clients[step.c].proxy)
                                        else s.procs[p].ioCopyDone)
          && (s'.procs[p].stage == Wired <==> Wires(s, step, p) || s.procs[p].stage == Wired))
  }

  lemma RewiresNothing(s: State, step: Step, p: nat)
    requires Enabled(s, step)
    requires !step.NewProcStep? && !step.SetProxy? && !step.StartProxy? && !step.SetCopyDone? && !step.Attach?
    requires !step.Rollback? && !step.DeleteProcStep?
    ensures Rewires(s, step, Apply(s, step), p)
  {
    hide IoPair.SessionApply, IoPair.SessionEnabled, IoPair.InitOk, IoPair.InitFailedWith, IoPair.CopyDone,
        IoPair.NewSession;
  }

  lemma RewiresNewProc(s: State, c: nat, p: nat)
    requires Enabled(s, NewProcStep(c))
    ensures Rewires(s, NewProcStep(c), ApplyNewProc(s, c), p)
  {
    hide NewProc;
  }

  /** Taking a record out of the table changes nothing else of it. */
  lemma RewiresRemoval(s: State, step: Step, s': State, q: nat, p: nat)
    requires step.Rollback? || step.DeleteProcStep?
    requires s'.procs == s.procs || s'.procs == Removed(s, q)
    ensures Rewires(s, step, s', p)
  {
  }

  lemma RewiresOne(s: State, step: Step, p: nat)
    requires Inv(s) && Enabled(s, step) && (step.SetProxy? || step.StartProxy? || step.SetCopyDone? || step.Attach?)
    ensures Rewires(s, step, Apply(s, step), p)
  {
    hide TableInv, ProcsInv, ProxiesInv, IoPair.InitOk, IoPair.CopyDone;
    assert ClientInv(step.c, s.clients[step.c], s.procs, s.proxies);
  }

  lemma RewiresStep(s: State, step: Step, p: nat)
    requires Inv(s) && Enabled(s, step)
    ensures Rewires(s, step, Apply(s, step), p)
  {
    hide Inv, Rewires;
    match step
    case NewProcStep(c) => RewiresNewProc(s, c, p);
    case Rollback(c) =>
      var proc := s.procs[s.clients[c].proc];
      var r := DeleteProc(s.tasks, proc.taskID, proc.execID);
      RewiresRemoval(s, step, ApplyRollback(s, c), if r.Ok? then r.value.1 else 0, p);
    case DeleteProcStep(c) =>
      var r := DeleteProc(s.tasks, s.clients[c].taskID, s.clients[c].execID);
      RewiresRemoval(s, step, ApplyDelete(s, c), if r.Ok? then r.value.1 else 0, p);
    case SetProxy(_) => RewiresOne(s, step, p);
    case StartProxy(_) => RewiresOne(s, step, p);
    case SetCopyDone(_) => RewiresOne(s, step, p);
    case Attach(_) => RewiresOne(s, step, p);
    case _ => RewiresNothing(s, step, p);
  }

  /** The record has the proxy it was given last, and once it is wired its channel is that of another proxy exactly if
      an AttachIO was overtaken. */
  ghost predicate GivenInv(run: seq<Step>, p: nat)
    requires After(run).Some?
  {
    var s := After(run).value;
    if p < |s.procs| then
      && s.procs[p].proxy == LastGiven(run, p)
      && (Overtaken(run, p) <==> s.procs[p].stage == Wired && s.procs[p].proxy != s.procs[p].ioCopyDone)
    else LastGiven(run, p) == None && !Overtaken(run, p)
  }

  lemma {:induction false} RunGiven(run: seq<Step>, p: nat)
    requires After(run).Some?
    ensures GivenInv(run, p)
    decreases |run|
  {
    if run != [] {
      hide Inv, Enabled, Apply, Given;
      RunInv(run[..|run| - 1]);
      RunGiven(run[..|run| - 1], p);
      RewiresStep(After(run[..|run| - 1]).value, run[|run| - 1], p);
    }
  }

  /** A DeleteProcess that succeeds on a process whose create had returned has drained the proxy of the process's
      channel. That is the proxy the process was given last if and only if no AttachIO was overtaken by the creator's
      write. */
  lemma DeletedIsDrained(run: seq<Step>, c: nat)
    requires After(run).Some? && c < |After(run).value.clients|
    requires After(run).value.clients[c].DeleteOk? && After(run).value.clients[c].returned
    ensures var s := After(run).value;
            var DeleteOk(p, x, _) := s.clients[c];
            && p < |s.procs| && x < |s.proxies|
            && s.procs[p].ioCopyDone == Some(x) && IoPair.Drained(s.proxies[x].session)
            && (LastGiven(run, p) == Some(x) <==> !Overtaken(run, p))
  {
    hide After, TableInv, LastGiven, Overtaken, IoPair.Drained, IoPair.SessionInv;
    RunInv(run);
    var s := After(run).value;
    assert ClientInv(c, s.clients[c], s.procs, s.proxies);
    RunGiven(run, s.clients[c].proc);
    IoPair.SessionReports(s.proxies[s.clients[c].drained].session);
  }

  lemma ReturnedStays(s: State, step: Step, p: nat)
    requires Enabled(s, step) && Returned(s, p)
    ensures Returned(Apply(s, step), p)
  {
    hide Returned;
    match step
    case NewProcStep(c) => ReturnedNewProc(s, c, p);
    case Rollback(c) => ReturnedRollback(s, c, p);
    case DeleteProcStep(c) => ReturnedDelete(s, c, p);
    case Attach(c) => ReturnedAttach(s, c, p);
    case _ => ReturnedStaysOther(s, step, p);
  }

  lemma ReturnedNewProc(s: State, c: nat, p: nat)
    requires Enabled(s, NewProcStep(c)) && Returned(s, p)
    ensures Returned(ApplyNewProc(s, c), p)
  {
    hide NewProc;
  }

  lemma ReturnedRollback(s: State, c: nat, p: nat)
    requires Enabled(s, Rollback(c)) && Returned(s, p)
    ensures Returned(ApplyRollback(s, c), p)
  {
  }

  lemma ReturnedDelete(s: State, c: nat, p: nat)
    requires Enabled(s, DeleteProcStep(c)) && Returned(s, p)
    ensures Returned(ApplyDelete(s, c), p)
  {
  }

  lemma ReturnedAttach(s: State, c: nat, p: nat)
    requires Enabled(s, Attach(c)) && Returned(s, p)
    ensures Returned(ApplyAttach(s, c), p)
  {
  }

  lemma ReturnedStaysOther(s: State, step: Step, p: nat)
    requires Enabled(s, step) && Returned(s, p)
    requires !step.NewProcStep? && !step.Rollback? && !step.DeleteProcStep? && !step.Attach?
    ensures Returned(Apply(s, step), p)
  {
    hide IoPair.SessionApply, IoPair.SessionEnabled, IoPair.InitOk, IoPair.InitFailedWith, IoPair.CopyDone,
         IoPair.NewSession;
  }

  /** Until the create returns, a patient run leaves the record with the creator's own proxy. */
  lemma {:induction false} PatientKeepsOwn(run: seq<Step>, p: nat)
    requires After(run).Some? && Patient(run, p)
    ensures !Overtaken(run, p)
    ensures var s := After(run).value;
            p < |s.procs| && !Returned(s, p) ==> s.procs[p].proxy == None || s.procs[p].proxy == Some(s.procs[p].own)
    decreases |run|
  {
    if run != [] {
      hide Enabled, Apply, TableInv, ProcsInv, ProxiesInv, Returned;
      var init, last := run[..|run| - 1], run[|run| - 1];
      var s := After(init).value;
      RunInv(init);
      PatientKeepsOwn(init, p);
      RunGiven(init, p);
      RewiresStep(s, last, p);
      OwnStep(s, last, p);
      if Returned(s, p) {
        ReturnedStays(s, last, p);
      }
    }
  }

  /** The creator writes its own proxy, and before its create has returned. */
  lemma OwnStep(s: State, step: Step, p: nat)
    requires Inv(s) && Enabled(s, step)
    ensures step.SetProxy? && Given(s, step, p).Some? ==> p < |s.procs| && Given(s, step, p) == Some(s.procs[p].own)
    ensures Wires(s, step, p) ==> p < |s.procs| && s.clients[step.c].proxy == s.procs[p].own && !Returned(s, p)
  {
    hide TableInv, ProcsInv, ProxiesInv, IoPair.InitOk, IoPair.CopyDone;
    if step.SetProxy? || step.SetCopyDone? {
      assert ClientInv(step.c, s.clients[step.c], s.procs, s.proxies);
    }
  }

  /** So if AttachIO is only called for processes whose create has returned, a successful DeleteProcess of such a
      process has drained the proxy that was attached last. */
  lemma PatientDeleteDrainsLast(run: seq<Step>, c: nat)
    requires After(run).Some? && c < |After(run).value.clients|
    requires After(run).value.clients[c].DeleteOk? && After(run).value.clients[c].returned
    requires Patient(run, After(run).value.clients[c].proc)
    ensures var s := After(run).value;
            var x := LastGiven(run, s.clients[c].proc);
            x.Some? && x.value < |s.proxies| && IoPair.Drained(s.proxies[x.value].session)
  {
    hide After, LastGiven, Overtaken, Patient, IoPair.Drained;
    DeletedIsDrained(run, c);
    PatientKeepsOwn(run, After(run).value.clients[c].proc);
  }

  // ----- three interleavings the code allows -----

  lemma Go(run: seq<Step>, s: State, step: Step) returns (run': seq<Step>, s': State)
    requires After(run) == Some(s) && Enabled(s, step)
    ensures run' == run + [step] && After(run') == Some(s') && s' == Apply(s, step)
  {
    Extend(run, s, step);
    run', s' := run + [step], Apply(s, step);
  }

  /** Client 0 has registered process 0 as task "t", with a proxy without streams set but not yet started. */
  lemma BeginCreate() returns (run: seq<Step>, s: State)
    ensures After(run) == Some(s)
    ensures s.tasks == map["t" := map["" := 0]] && !s.isShutdown && s.monitors == [] && s.clients == [HasProxy(0, 0)]
    ensures s.procs == [Proc("t", "", 0, 0, ProxySet, Some(0), None, false)]
    ensures s.proxies == [NewProxy(false, false, 0)]
  {
    run, s := [], INIT;
    run, s := Go(run, s, SpawnCreate("t", "", false, 0));
    run, s := Go(run, s, NewProcStep(0));
    run, s := Go(run, s, SetProxy(0));
  }

  /** The creating client starts its proxy and wires it up. */
  lemma WireUp(run: seq<Step>, s: State, c: nat) returns (run': seq<Step>, s': State)
    requires After(run) == Some(s) && c < |s.clients| && s.clients[c].HasProxy?
    requires s.clients[c].proc < |s.procs| && s.clients[c].proxy < |s.proxies|
    ensures var HasProxy(p, x) := s.clients[c];
            && After(run') == Some(s')
            && s' == s.(clients := s.clients[c := Calling(p, x)], proxies := Start(s, x),
                        procs := s.procs[p := s.procs[p].(stage := Wired, ioCopyDone := Some(x))])
  {
    hide After;
    var HasProxy(p, x) := s.clients[c];
    run', s' := Go(run, s, StartProxy(c));
    run', s' := Go(run', s', SetCopyDone(c));
    assert s'.clients == s.clients[c := Calling(p, x)];
    assert s'.procs == s.procs[p := s.procs[p].(stage := Wired, ioCopyDone := Some(x))];
  }

  /** A create without streams returns. */
  lemma ReturnOk(run: seq<Step>, s: State, c: nat) returns (run': seq<Step>, s': State)
    requires After(run) == Some(s) && c < |s.clients| && s.clients[c].Calling?
    requires s.clients[c].proxy < |s.proxies| && s.proxies[s.clients[c].proxy].session.initGot == []
    ensures After(run') == Some(s')
    ensures s' == s.(clients := s.clients[c := CreateOk(s.clients[c].proc)],
                     monitors := s.monitors + [Monitor(s.clients[c].proc, s.clients[c].proxy, false)])
  {
    hide After;
    run', s' := Go(run, s, CallReturns(c, true));
    run', s' := Go(run', s', InitArrives(c));
    assert s'.clients == s.clients[c := CreateOk(s.clients[c].proc)];
  }

  /** A new client attaches a proxy. */
  lemma AttachNew(run: seq<Step>, s: State, t: string, e: string, streams: nat) returns (run': seq<Step>, s': State)
    requires After(run) == Some(s) && Find(s, t, e).Some?
    ensures var p := Find(s, t, e).value;
            var x := |s.proxies|;
            var proc := s.procs[p].(proxy := Some(x), ioCopyDone := Some(x));
            && After(run') == Some(s')
            && s' == s.(clients := s.clients + [AttachDone(true)],
                        proxies := s.proxies + [NewProxy(false, true, streams).(started := true)],
                        procs := s.procs[p := proc],
                        monitors := s.monitors + [Monitor(p, x, false)])
  {
    hide After;
    run', s' := Go(run, s, SpawnAttach(t, e, false, streams));
    run', s' := Go(run', s', Attach(|s.clients|));
    assert s'.clients == s.clients + [AttachDone(true)];
    assert s'.proxies == s.proxies + [NewProxy(false, true, streams).(started := true)];
  }

  /** A new client gets the consent of the task service and deletes. */
  lemma DeleteNew(run: seq<Step>, s: State, t: string, e: string) returns (run': seq<Step>, s': State)
    requires After(run) == Some(s) && Has(s.tasks, t, e) && s.tasks[t][e] < |s.procs|
    ensures var q := s.tasks[t][e];
            && run <= run' && After(run') == Some(s')
            && s' == s.(clients := s.clients + [HasDeleted(q, Returned(s, q))],
                        tasks := DeleteProc(s.tasks, t, e).value.0, procs := Removed(s, q))
  {
    hide After;
    var c, q := |s.clients|, s.tasks[t][e];
    run', s' := Go(run, s, SpawnDelete(t, e));
    run', s' := Go(run', s', AgentDeletes(c, true));
    assert s'.clients == s.clients + [Deleting(t, e, true)];
    run', s' := Go(run', s', DeleteProcStep(c));
    assert s'.clients == s.clients + [s'.clients[c]];
  }

  /** AttachIO can be overtaken by the create it races with: the process is deleted successfully while
      the proxy attached last has not even been initialised. */
  lemma AttachOvertaken() returns (run: seq<Step>, s: State)
    ensures After(run) == Some(s)
    ensures |s.clients| == 3 && s.clients[0] == CreateOk(0) && s.clients[1] == AttachDone(true)
        && s.clients[2] == DeleteOk(0, 0, true)
    ensures |s.procs| == 1 && s.procs[0].proxy == Some(1)
    ensures |s.proxies| == 2 && !IoPair.Drained(s.proxies[1].session)
  {
    hide After;
    run, s := BeginCreate();
    run, s := AttachNew(run, s, "t", "", 1);
    run, s := WireUp(run, s, 0);
    run, s := ReturnOk(run, s, 0);
    run, s := DeleteNew(run, s, "t", "");
    run, s := Go(run, s, ReadChannel(2));
    run, s := Go(run, s, CopyArrives(2));
    assert s.proxies[1].session.pairs[0] == IoPair.NEW_PAIR;
  }

  /** monitorIO closes whatever proxy the process has when its channel reports: here a newer one
      whose streams are still to be opened. */
  lemma MonitorClosesNewerProxy() returns (run: seq<Step>, s: State)
    ensures After(run) == Some(s)
    ensures |s.proxies| == 2 && s.proxies[1].closed && !IoPair.Drained(s.proxies[1].session)
  {
    hide After;
    run, s := BeginCreate();
    run, s := WireUp(run, s, 0);
    run, s := ReturnOk(run, s, 0);
    run, s := AttachNew(run, s, "t", "", 1);
    run, s := Go(run, s, MonitorFires(0));
    assert s.proxies[1].session.pairs[0] == IoPair.NEW_PAIR;
  }

  lemma RollbackHits(s: State, c: nat)
    requires TableInv(s) && Enabled(s, Rollback(c))
    ensures var proc := s.procs[s.clients[c].proc];
            var t, e := proc.taskID, proc.execID;
            if Has(s.tasks, t, e) then
              && DeleteProc(s.tasks, t, e).Ok?
              && ApplyRollback(s, c) == At(s, c, CreateErr).(tasks := DeleteProc(s.tasks, t, e).value.0,
                                                             procs := Removed(s, s.tasks[t][e]))
            else ApplyRollback(s, c) == At(s, c, CreateErr)
  {
    var proc := s.procs[s.clients[c].proc];
    WhatIsDeleted(s, proc.taskID, proc.execID);
    hide TableInv;
  }

  /** What a rollback does to the registry: it takes out whatever record is stored under its key. */
  lemma RollbackEffect(s: State, c: nat)
    requires TableInv(s) && Enabled(s, Rollback(c))
    ensures var p, s' := s.clients[c].proc, ApplyRollback(s, c);
            var t, e := s.procs[p].taskID, s.procs[p].execID;
            && (!s.procs[p].removed <==> Listed(s.tasks, p, t, e))
            && if Has(s.tasks, t, e) then
                 && s.tasks[t][e] < |s.procs| && !s.procs[s.tasks[t][e]].removed
                 && s'.procs == Removed(s, s.tasks[t][e]) && Pairs(s'.tasks) == Pairs(s.tasks) - {(t, e)}
               else s'.procs == s.procs && s'.tasks == s.tasks
  {
    hide Pairs, DeleteProc, ApplyRollback, Tidy;
    var proc := s.procs[s.clients[c].proc];
    RollbackHits(s, c);
    DeleteProcPairs(s.tasks, proc.taskID, proc.execID);
    if !proc.removed {
      assert Listed(s.tasks, s.clients[c].proc, proc.taskID, proc.execID);
    }
    if Has(s.tasks, proc.taskID, proc.execID) {
      assert Entry(s.procs, s.tasks[proc.taskID][proc.execID], proc.taskID, proc.execID);
    }
  }

  /** The rollback of a failed create takes out its own record if and only if nobody has deleted that record before.
      Otherwise it takes out the record of another create, if the key was used again, and nothing if it was not. */
  lemma RollbackIsOwnIffNotRemoved(run: seq<Step>, c: nat)
    requires After(run).Some? && Enabled(After(run).value, Rollback(c))
    ensures var s := After(run).value;
            var p, s' := s.clients[c].proc, ApplyRollback(s, c);
            var t, e := s.procs[p].taskID, s.procs[p].execID;
            && (!s.procs[p].removed ==> s'.procs == Removed(s, p) && Pairs(s'.tasks) == Pairs(s.tasks) - {(t, e)})
            && (s.procs[p].removed && Has(s.tasks, t, e) ==>
                  && s.tasks[t][e] != p && s.tasks[t][e] < |s.procs| && !s.procs[s.tasks[t][e]].removed
                  && s'.procs == Removed(s, s.tasks[t][e]))
            && (s.procs[p].removed && !Has(s.tasks, t, e) ==> s'.procs == s.procs && s'.tasks == s.tasks)
  {
    hide After, Pairs, Enabled, ApplyRollback, TableInv;
    RunInv(run);
    RollbackEffect(After(run).value, c);
  }

  /** The rollback of a failed create deletes by key. If its own record was deleted and the key reused
      meanwhile, it takes out the record of another, successful create. */
  lemma RollbackTakesAnother() returns (run: seq<Step>, s: State)
    ensures After(run) == Some(s)
    ensures |s.clients| == 3 && s.clients[0] == CreateErr && s.clients[2] == CreateOk(1)
    ensures |s.procs| == 2 && s.procs[1].creator == 2 && s.procs[1].removed && s.tasks == map[]
  {
    hide After;
    run, s := DeletedBeforeRollback();
    run, s := SecondCreate(run, s);
    run, s := Go(run, s, Rollback(0));
  }

  /** Client 0 has to roll back process 0, which client 1 has deleted. */
  lemma DeletedBeforeRollback() returns (run: seq<Step>, s: State)
    ensures After(run) == Some(s) && s.tasks == map[] && !s.isShutdown
    ensures |s.clients| == 2 && s.clients[0] == RollingBack(0) && |s.proxies| == 1
    ensures |s.procs| == 1 && s.procs[0].taskID == "t" && s.procs[0].execID == ""
  {
    hide After;
    run, s := BeginCreate();
    run, s := WireUp(run, s, 0);
    run, s := Go(run, s, CallReturns(0, false));
    run, s := DeleteNew(run, s, "t", "");
    assert s.tasks == map[];
  }

  /** Client 2 creates task "t" anew, as process 1. */
  lemma SecondCreate(run: seq<Step>, s: State) returns (run': seq<Step>, s': State)
    requires After(run) == Some(s) && s.tasks == map[] && !s.isShutdown && |s.procs| == 1 && |s.clients| == 2
        && |s.proxies| == 1
    ensures After(run') == Some(s')
    ensures s'.tasks == map["t" := map["" := 1]]
    ensures |s'.clients| == 3 && s'.clients[..2] == s.clients && s'.clients[2] == CreateOk(1)
    ensures |s'.procs| == 2 && s'.procs[0] == s.procs[0] && s'.procs[1].creator == 2
    ensures s'.procs[1].taskID == "t" && s'.procs[1].execID == ""
  {
    hide After;
    run', s' := Go(run, s, SpawnCreate("t", "", false, 0));
    run', s' := Go(run', s', NewProcStep(2));
    run', s' := Go(run', s', SetProxy(2));
    run', s' := WireUp(run', s', 2);
    run', s' := ReturnOk(run', s', 2);
  }
}
