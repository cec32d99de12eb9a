/** The life of the VM behind a shim (runtime/service.go): every interleaving of any number of CreateVM, StopVM and
    Shutdown requests with the monitor of the VM. sync.Once makes late callers wait until the first has finished. */
module Lifecycle {
  import opened Outcomes

  datatype Once = NotBegun | Running(holder: nat) | Over

  datatype Creation = NotRun | Succeeded | Failed

  /** What a graceful termination gets done, in this order. */
  datatype Event = VmReady | NotPaused | AgentFound | AgentShutDown | VmExited

  const GRACEFUL: seq<Event> := [VmReady, NotPaused, AgentFound, AgentShutDown, VmExited]

  /** How far createVM has got. */
  datatype Pc = Configuring | HasMachine | HasStarted | HasClients | HasMounts

  /** What createVM has done: s.machine is set, the VM was started, the clients to the agent are set, the drives
      mounted. */
  datatype Vm = Vm(machine: bool, started: bool, clients: bool, mounted: bool)

  datatype Thread =
    // CreateVM
    | CreateCalled
    | CreateRunning(pc: Pc)        // inside vmStartOnce.Do
    | CreateRan(ok: bool)          // createVM has returned
    | CreateMonitored              // the monitor was started, vmReady is still open
    | CreateOk
    | CreateErr
    | CreateRefused                // AlreadyExists
    // Shutdown and StopVM; the log is what terminate has seen so far
    | ShutdownCalled
    | ShutdownIgnored
    | Terminating(log: seq<Event>)
    | Forcing(log: seq<Event>)     // forceTerminate has stopped the jailer and calls cleanup
    | CleaningForced(log: seq<Event>)
    | TerminateOk(log: seq<Event>)
    | TerminateErr(log: seq<Event>)
    // monitorVMExit
    | Watching
    | VmGone                       // machine.Wait has returned, cleanup is called
    | CleaningUp
    | MonitorDone

  datatype State = State(
    startOnce: Once,
    cleanupOnce: Once,
    createRuns: nat,
    cleanupRuns: nat,
    readyCloses: nat,
    created: Creation,
    runner: Option<nat>,           // the thread that ran createVM
    vm: Vm,
    shimCancelled: bool,
    jailer: bool,                  // s.jailer is one: at first the one that does nothing
    dead: bool,                    // a call on a nil jailer has ended the process
    threads: seq<Thread>
  )

  const INIT := State(NotBegun, NotBegun, 0, 0, 0, NotRun, None, Vm(false, false, false, false), false, true, false, [])

  datatype Step =
    | CallCreate
    | CallShutdown
    | CallStop
    | EnterStartOnce(c: nat)
    | FindStartOver(c: nat)
    | CreateAdvances(c: nat)
    | JailerFails(c: nat)
    | CreateFails(c: nat)
    | CreateReturns(c: nat)
    | CreateGivesUp(c: nat)
    | StartMonitor(c: nat)
    | CloseReady(c: nat)
    | DecideShutdown(c: nat, go: bool)
    | SeeReady(c: nat)
    | Progress(c: nat)
    | GiveUp(c: nat)
    | Finish(c: nat)
    | VmExits(c: nat)
    | EnterCleanup(c: nat)
    | CancelShim(c: nat)
    | LeaveCleanup(c: nat)
    | FindCleanupOver(c: nat)

  predicate Enabled(s: State, step: Step) {
    !s.dead &&
    match step
    case CallCreate => true
    case CallShutdown => true
    case CallStop => true
    case EnterStartOnce(c) => c < |s.threads| && s.threads[c] == CreateCalled && s.startOnce == NotBegun
    case FindStartOver(c) => c < |s.threads| && s.threads[c] == CreateCalled && s.startOnce == Over
    case CreateAdvances(c) => c < |s.threads| && s.threads[c].CreateRunning? && s.threads[c].pc != HasMounts
    // newJailer returns nil and an error, and both are stored
    case JailerFails(c) => c < |s.threads| && s.threads[c] == CreateRunning(Configuring)
    case CreateFails(c) => c < |s.threads| && s.threads[c].CreateRunning?
    case CreateReturns(c) => c < |s.threads| && s.threads[c] == CreateRunning(HasMounts)
    case CreateGivesUp(c) => c < |s.threads| && s.threads[c] == CreateRan(false)
    case StartMonitor(c) => c < |s.threads| && s.threads[c] == CreateRan(true)
    case CloseReady(c) => c < |s.threads| && s.threads[c] == CreateMonitored
    case DecideShutdown(c, _) => c < |s.threads| && s.threads[c] == ShutdownCalled
    case SeeReady(c) => c < |s.threads| && s.threads[c] == Terminating([]) && s.readyCloses > 0
    case Progress(c) => c < |s.threads| && s.threads[c].Terminating? && 1 <= |s.threads[c].log| < |GRACEFUL|
    // a timeout, a paused VM, or any call that fails
    case GiveUp(c) => c < |s.threads| && s.threads[c].Terminating? && |s.threads[c].log| < |GRACEFUL|
    case Finish(c) => c < |s.threads| && s.threads[c].Terminating? && |s.threads[c].log| == |GRACEFUL|
    case VmExits(c) => c < |s.threads| && s.threads[c] == Watching
    case EnterCleanup(c) =>
      c < |s.threads| && (s.threads[c].Forcing? || s.threads[c] == VmGone) && s.cleanupOnce == NotBegun
    case CancelShim(c) => c < |s.threads| && (s.threads[c].CleaningForced? || s.threads[c] == CleaningUp)
    case LeaveCleanup(c) =>
      c < |s.threads| && (s.threads[c].CleaningForced? || s.threads[c] == CleaningUp) && s.shimCancelled
    case FindCleanupOver(c) =>
      c < |s.threads| && (s.threads[c].Forcing? || s.threads[c] == VmGone) && s.cleanupOnce == Over
  }

  function At(s: State, c: nat, t: Thread): State
    requires c < |s.threads|
  {
    s.(threads := s.threads[c := t])
  }

  /** The next stage of createVM. */
  function Advanced(s: State, c: nat): State
    requires c < |s.threads| && s.threads[c].CreateRunning?
  {
    match s.threads[c].pc
    case Configuring => At(s, c, CreateRunning(HasMachine)).(vm := s.vm.(machine := true))
    case HasMachine => At(s, c, CreateRunning(HasStarted)).(vm := s.vm.(started := true))
    case HasStarted => At(s, c, CreateRunning(HasClients)).(vm := s.vm.(clients := true))
    case _ => At(s, c, CreateRunning(HasMounts)).(vm := s.vm.(mounted := true))
  }

  function Apply(s: State, step: Step): State
    requires Enabled(s, step)
  {
    match step
    case CallCreate => s.(threads := s.threads + [CreateCalled])
    case CallShutdown => s.(threads := s.threads + [ShutdownCalled])
    case CallStop => s.(threads := s.threads + [Terminating([])])
    case EnterStartOnce(c) => At(s, c, CreateRunning(Configuring)).(startOnce := Running(c),
        createRuns := s.createRuns + 1, runner := Some(c))
    case FindStartOver(c) => At(s, c, CreateRefused)
    case CreateAdvances(c) => Advanced(s, c)
    case JailerFails(c) => At(s, c, CreateRan(false)).(startOnce := Over, created := Failed, jailer := false)
    case CreateFails(c) => At(s, c, CreateRan(false)).(startOnce := Over, created := Failed)
    case CreateReturns(c) => At(s, c, CreateRan(true)).(startOnce := Over, created := Succeeded)
    case CreateGivesUp(c) => At(s, c, CreateErr).(shimCancelled := true)
    case StartMonitor(c) => At(s, c, CreateMonitored).(threads := s.threads[c := CreateMonitored] + [Watching])
    case CloseReady(c) => At(s, c, CreateOk).(readyCloses := s.readyCloses + 1)
    case DecideShutdown(c, go) => At(s, c, if go then Terminating([]) else ShutdownIgnored)
    case SeeReady(c) => At(s, c, Terminating([VmReady]))
    case Progress(c) => At(s, c, Terminating(s.threads[c].log + [GRACEFUL[|s.threads[c].log|]]))
    case GiveUp(c) => if s.jailer then At(s, c, Forcing(s.threads[c].log)) else s.(dead := true)
    case Finish(c) => At(s, c, TerminateOk(s.threads[c].log))
    case VmExits(c) => At(s, c, VmGone)
    case EnterCleanup(c) =>
      At(s, c, if s.threads[c].Forcing? then CleaningForced(s.threads[c].log) else CleaningUp)
        .(cleanupOnce := Running(c), cleanupRuns := s.cleanupRuns + 1)
    case CancelShim(c) => s.(shimCancelled := true)
    case LeaveCleanup(c) =>
      At(s, c, if s.threads[c].CleaningForced? then TerminateErr(s.threads[c].log)
          else MonitorDone).(cleanupOnce := Over)
    case FindCleanupOver(c) => At(s, c, if s.threads[c].Forcing? then TerminateErr(s.threads[c].log) else MonitorDone)
  }

  ghost function After(run: seq<Step>): Option<State>
    decreases |run|
  {
    if run == [] then Some(INIT)
    else
      var last := run[|run| - 1];
      match After(run[..|run| - 1])
      case None => None
      case Some(s) => if Enabled(s, last) then Some(Apply(s, last)) else None
  }

  // ----- the invariant -----

  ghost predicate StartInv(s: State) {
    (s.jailer || s.created == Failed) &&
    match s.startOnce
    case NotBegun => s.createRuns == 0 && s.created == NotRun && s.runner == None
    case Running(c) => s.createRuns == 1 && s.created == NotRun && s.runner == Some(c)
    case Over => s.createRuns == 1 && s.created != NotRun && s.runner.Some?
  }

  ghost predicate CleanupInv(s: State) {
    match s.cleanupOnce
    case NotBegun => s.cleanupRuns == 0
    case Running(_) => s.cleanupRuns == 1
    case Over => s.cleanupRuns == 1 && s.shimCancelled
  }

  /** vmReady is closed only by the thread that created the VM, and that once. */
  ghost predicate ReadyInv(s: State) {
    && s.readyCloses <= 1
    && (s.created == Succeeded ==> Reached(s.vm, HasMounts))
    && (s.readyCloses == 1 ==>
          s.created == Succeeded && s.runner.Some? && s.runner.value < |s.threads|
              && s.threads[s.runner.value] == CreateOk)
  }

  predicate Reached(vm: Vm, pc: Pc) {
    match pc
    case Configuring => true
    case HasMachine => vm.machine
    case HasStarted => vm.machine && vm.started
    case HasClients => vm.machine && vm.started && vm.clients
    case HasMounts => vm.machine && vm.started && vm.clients && vm.mounted
  }

  ghost predicate ThreadInv(s: State, c: nat, t: Thread) {
    match t
    case CreateRunning(pc) => s.startOnce == Running(c) && s.runner == Some(c) && Reached(s.vm, pc)
    case CreateRan(ok) => s.startOnce == Over && s.runner == Some(c) && s.created == (if ok then Succeeded else Failed)
    case CreateMonitored => s.startOnce == Over && s.runner == Some(c) && s.created == Succeeded
    case CreateOk => s.runner == Some(c) && s.created == Succeeded && s.readyCloses == 1
    case CreateErr => s.runner == Some(c) && s.created == Failed && s.shimCancelled
    case CreateRefused => s.startOnce == Over
    case Terminating(log) => log <= GRACEFUL && (log != [] ==> s.readyCloses == 1)
    case Forcing(log) => log < GRACEFUL
    case CleaningForced(log) => log < GRACEFUL && s.cleanupOnce == Running(c)
    case TerminateOk(log) => log == GRACEFUL && s.readyCloses == 1
    case TerminateErr(log) => log < GRACEFUL && s.cleanupOnce == Over
    case CleaningUp => s.cleanupOnce == Running(c)
    case MonitorDone => s.cleanupOnce == Over
    case _ => true
  }

  ghost predicate ThreadsInv(s: State) {
    forall c :: 0 <= c < |s.threads| ==> ThreadInv(s, c, s.threads[c])
  }

  ghost predicate Inv(s: State) {
    StartInv(s) && CleanupInv(s) && ReadyInv(s) && ThreadsInv(s)
  }

  /** What the other threads rely on: facts only ever become true, and the once and the runner change hands only
      through the thread that holds them. */
  ghost predicate Grows(s: State, s': State, c: nat) {
    && (s.startOnce == Over ==> s'.startOnce == Over)
    && (forall d :: d != c && s.startOnce == Running(d) ==> s'.startOnce == Running(d))
    && (s.runner.Some? ==> s'.runner == s.runner)
    && (s.created != NotRun ==> s'.created == s.created)
    && s.readyCloses <= s'.readyCloses <= 1
    && (s.shimCancelled ==> s'.shimCancelled)
    && (forall pc :: Reached(s.vm, pc) ==> Reached(s'.vm, pc))
    && (s.cleanupOnce == Over ==> s'.cleanupOnce == Over)
    && (forall d :: d != c && s.cleanupOnce == Running(d) ==> s'.cleanupOnce == Running(d))
  }

  lemma ThreadsFrame(s: State, s': State, c: nat)
    requires ThreadsInv(s) && StartInv(s) && Grows(s, s', c) && |s.threads| <= |s'.threads|
    requires forall d :: 0 <= d < |s.threads| && d != c ==> s'.threads[d] == s.threads[d]
    requires c < |s'.threads| && ThreadInv(s', c, s'.threads[c])
    requires forall d :: |s.threads| <= d < |s'.threads| && d != c ==> s'.threads[d] == Watching
    ensures ThreadsInv(s')
  {
  }

  lemma InvCall(s: State, step: Step)
    requires Inv(s) && Enabled(s, step) && (step.CallCreate? || step.CallShutdown? || step.CallStop?)
    ensures Inv(Apply(s, step))
  {
    ThreadsFrame(s, Apply(s, step), |s.threads|);
  }

  /** A step that only moves thread `c` on, which is not the one that created the VM. */
  lemma InvMove(s: State, c: nat, t: Thread)
    requires Inv(s) && c < |s.threads| && s.threads[c] != CreateOk && ThreadInv(s, c, t)
    ensures Inv(At(s, c, t))
  {
    hide Reached;
    ThreadsFrame(s, At(s, c, t), c);
  }

  lemma InvEnter(s: State, step: Step)
    requires Inv(s) && Enabled(s, step) && (step.EnterStartOnce? || step.FindStartOver? || step.CreateAdvances?)
    ensures Inv(Apply(s, step))
  {
    var s' := Apply(s, step);
    assert ThreadInv(s, step.c, s.threads[step.c]);
    ThreadsFrame(s, s', step.c);
  }

  lemma InvCreated(s: State, step: Step)
    requires Inv(s) && Enabled(s, step)
    requires step.JailerFails? || step.CreateFails? || step.CreateReturns? || step.CreateGivesUp?
    ensures Inv(Apply(s, step))
  {
    hide Reached;
    var s' := Apply(s, step);
    assert ThreadInv(s, step.c, s.threads[step.c]);
    ThreadsFrame(s, s', step.c);
  }

  lemma InvReady(s: State, step: Step)
    requires Inv(s) && Enabled(s, step) && (step.StartMonitor? || step.CloseReady?)
    ensures Inv(Apply(s, step))
  {
    hide Reached;
    var s' := Apply(s, step);
    assert ThreadInv(s, step.c, s.threads[step.c]);
    ThreadsFrame(s, s', step.c);
  }

  lemma InvTerminate(s: State, step: Step)
    requires Inv(s) && Enabled(s, step) && (step.DecideShutdown? || step.SeeReady? || step.Progress?)
    ensures Inv(Apply(s, step))
  {
    assert ThreadInv(s, step.c, s.threads[step.c]) && s.readyCloses <= 1;
    hide Inv;
    InvMove(s, step.c, Apply(s, step).threads[step.c]);
  }

  lemma InvStop(s: State, step: Step)
    requires Inv(s) && Enabled(s, step) && (step.GiveUp? || step.Finish? || step.VmExits?)
    ensures Inv(Apply(s, step))
  {
    assert ThreadInv(s, step.c, s.threads[step.c]);
    if step.GiveUp? && !s.jailer {
      InvDead(s);
    } else {
      hide Inv;
      InvMove(s, step.c, Apply(s, step).threads[step.c]);
    }
  }

  lemma InvDead(s: State)
    requires Inv(s)
    ensures Inv(s.(dead := true))
  {
    hide Reached;
    var s' := s.(dead := true);
    forall c | 0 <= c < |s'.threads| ensures ThreadInv(s', c, s'.threads[c]) {
      assert ThreadInv(s, c, s.threads[c]);
    }
  }

  lemma InvCleanup(s: State, step: Step)
    requires Inv(s) && Enabled(s, step) && (step.EnterCleanup? || step.LeaveCleanup?)
    ensures Inv(Apply(s, step))
  {
    hide Reached;
    var s' := Apply(s, step);
    assert ThreadInv(s, step.c, s.threads[step.c]);
    ThreadsFrame(s, s', step.c);
  }

  lemma InvCancel(s: State, c: nat)
    requires Inv(s) && Enabled(s, CancelShim(c))
    ensures Inv(Apply(s, CancelShim(c)))
  {
    hide Reached;
    ThreadsFrame(s, Apply(s, CancelShim(c)), c);
  }

  lemma InvCleanedUp(s: State, c: nat)
    requires Inv(s) && Enabled(s, FindCleanupOver(c))
    ensures Inv(Apply(s, FindCleanupOver(c)))
  {
    assert ThreadInv(s, c, s.threads[c]);
    hide Inv;
    InvMove(s, c, Apply(s, FindCleanupOver(c)).threads[c]);
  }

  lemma InvStep(s: State, step: Step)
    requires Inv(s) && Enabled(s, step)
    ensures Inv(Apply(s, step))
  {
    hide Inv, Apply, Enabled;
    match step
    case CallCreate => InvCall(s, step);
    case CallShutdown => InvCall(s, step);
    case CallStop => InvCall(s, step);
    case DecideShutdown(_, _) => InvTerminate(s, step);
    case SeeReady(_) => InvTerminate(s, step);
    case Progress(_) => InvTerminate(s, step);
    case GiveUp(_) => InvStop(s, step);
    case Finish(_) => InvStop(s, step);
    case VmExits(_) => InvStop(s, step);
    case EnterCleanup(_) => InvCleanup(s, step);
    case CancelShim(c) => InvCancel(s, c);
    case LeaveCleanup(_) => InvCleanup(s, step);
    case FindCleanupOver(c) => InvCleanedUp(s, c);
    case EnterStartOnce(_) => InvEnter(s, step);
    case FindStartOver(_) => InvEnter(s, step);
    case CreateAdvances(_) => InvEnter(s, step);
    case StartMonitor(_) => InvReady(s, step);
    case CloseReady(_) => InvReady(s, step);
    case _ => InvCreated(s, step);
  }

  lemma {:induction false} RunInv(run: seq<Step>)
    requires After(run).Some?
    ensures Inv(After(run).value)
    decreases |run|
  {
    hide Inv, Apply, Enabled;
    if run == [] {
      InitInv();
    } else {
      RunInv(run[..|run| - 1]);
      InvStep(After(run[..|run| - 1]).value, run[|run| - 1]);
    }
  }

  lemma InitInv()
    ensures Inv(INIT)
  {
  }

  // ----- what every run guarantees -----

  /** createVM and the cleanup run at most once; vmReady is closed at most once, and only when createVM has succeeded,
      which means that it has set the machine, started the VM, set the clients and mounted the drives. */
  lemma OnceEach(run: seq<Step>)
    requires After(run).Some?
    ensures var s := After(run).value;
            && s.createRuns <= 1 && s.cleanupRuns <= 1 && s.readyCloses <= 1
            && (s.readyCloses == 1 ==> s.created == Succeeded && s.vm == Vm(true, true, true, true))
  {
    RunInv(run);
  }

  /** Of all CreateVM calls only one gets an answer other than AlreadyExists, and AlreadyExists is only answered when
      createVM is over. Success means that vmReady is closed, failure that the shim is cancelled. */
  lemma OneCreateAnswered(run: seq<Step>, c: nat, d: nat)
    requires After(run).Some?
    requires var s := After(run).value; c < |s.threads| && d < |s.threads|
    ensures var ts := After(run).value.threads;
            && ((ts[c].CreateOk? || ts[c].CreateErr?) && (ts[d].CreateOk? || ts[d].CreateErr?) ==> c == d)
            && (ts[c].CreateRefused? ==> After(run).value.created != NotRun)
            && (ts[c].CreateOk? ==> After(run).value.created == Succeeded && After(run).value.readyCloses == 1)
            && (ts[c].CreateErr? ==> After(run).value.created == Failed && After(run).value.shimCancelled)
  {
    RunInv(run);
    var s := After(run).value;
    assert ThreadInv(s, c, s.threads[c]) && ThreadInv(s, d, s.threads[d]);
  }

  /** terminate returns nil only after the full graceful path, and then a VM had been created; otherwise it returns an
      error, and only when the cleanup has completed and the shim is being cancelled. */
  lemma TerminateReports(run: seq<Step>, c: nat)
    requires After(run).Some? && c < |After(run).value.threads|
    ensures var s := After(run).value;
            && (s.threads[c].TerminateOk? ==> s.threads[c].log == GRACEFUL && s.created == Succeeded)
            && (s.threads[c].TerminateErr? ==>
                  s.threads[c].log < GRACEFUL && s.cleanupOnce == Over && s.cleanupRuns == 1 && s.shimCancelled)
  {
    RunInv(run);
    assert ThreadInv(After(run).value, c, After(run).value.threads[c]);
  }

  /** After a failed creation nothing waits in vain for vmReady and is then told that it terminated gracefully:
      vmReady stays open in every continuation. */
  lemma {:induction false} FailedStaysUnready(run: seq<Step>, more: seq<Step>)
    requires After(run).Some? && After(run).value.created == Failed && After(run + more).Some?
    ensures After(run + more).value.created == Failed && After(run + more).value.readyCloses == 0
    decreases |more|
  {
    if more == [] {
      assert run + more == run;
      RunInv(run);
    } else {
      var all := run + more;
      assert all[..|all| - 1] == run + more[..|more| - 1];
      FailedStaysUnready(run, more[..|more| - 1]);
      RunInv(all[..|all| - 1]);
      FailedStep(After(all[..|all| - 1]).value, all[|all| - 1]);
    }
  }

  lemma FailedStep(s: State, step: Step)
    requires Inv(s) && s.created == Failed && s.readyCloses == 0 && Enabled(s, step)
    ensures Apply(s, step).created == Failed && Apply(s, step).readyCloses == 0
  {
    hide Reached;
  }

  // ----- the jailer -----

  ghost predicate JailerFailed(run: seq<Step>) {
    exists i :: 0 <= i < |run| && run[i].JailerFails?
  }

  lemma {:induction false} JailerIsKept(run: seq<Step>)
    requires After(run).Some?
    ensures After(run).value.jailer <==> !JailerFailed(run)
    decreases |run|
  {
    if run != [] {
      var init, last := run[..|run| - 1], run[|run| - 1];
      JailerIsKept(init);
      JailerStep(After(init).value, last);
      hide Apply, Enabled;
      if i :| 0 <= i < |init| && init[i].JailerFails? {
        assert run[i].JailerFails?;
      }
      assert forall i :: 0 <= i < |init| ==> init[i] == run[i];
    }
  }

  lemma JailerStep(s: State, step: Step)
    requires Enabled(s, step)
    ensures Apply(s, step).jailer <==> s.jailer && !step.JailerFails?
  {
  }

  /** A termination that cannot be graceful ends the process, instead of returning, if and only if newJailer has failed
      before, which leaves no jailer to stop. */
  lemma ForcedPanicsIff(run: seq<Step>, c: nat)
    requires After(run).Some? && Enabled(After(run).value, GiveUp(c))
    ensures var s' := Apply(After(run).value, GiveUp(c));
            && (s'.dead <==> JailerFailed(run))
            && (!s'.dead ==> s'.threads[c].Forcing?)
  {
    hide After;
    JailerIsKept(run);
  }

  /** So the process dies that way only after a failed CreateVM. */
  lemma DeadAfterFailure(run: seq<Step>)
    requires After(run).Some? && After(run).value.dead
    ensures JailerFailed(run) && After(run).value.created == Failed
  {
    RunInv(run);
    JailerIsKept(run);
    DeadWithoutJailer(run);
  }

  lemma {:induction false} DeadWithoutJailer(run: seq<Step>)
    requires After(run).Some? && After(run).value.dead
    ensures !After(run).value.jailer
    decreases |run|
  {
    DeadStep(After(run[..|run| - 1]).value, run[|run| - 1]);
  }

  lemma DeadStep(s: State, step: Step)
    requires Enabled(s, step) && Apply(s, step).dead
    ensures !Apply(s, step).jailer
  {
  }

  // ----- the monitor -----

  /** A thread of monitorVMExit. */
  predicate Monitors(t: Thread) {
    t.Watching? || t.VmGone? || t.CleaningUp? || t.MonitorDone?
  }

  /** A CreateVM that has started the monitor. */
  predicate HasMonitor(t: Thread) {
    t.CreateMonitored? || t.CreateOk?
  }

  ghost predicate MonitorAt(s: State, d: int) {
    0 <= d < |s.threads| && Monitors(s.threads[d])
  }

  /** There is one monitor if createVM's caller has started it, and none before. */
  ghost predicate MonitorInv(s: State) {
    && (forall d, e :: MonitorAt(s, d) && MonitorAt(s, e) ==> d == e)
    && ((exists d :: MonitorAt(s, d)) <==>
        exists c :: 0 <= c < |s.threads| && s.runner == Some(c) && HasMonitor(s.threads[c]))
  }

  /** A step of thread `c` that keeps what kind of thread it is. */
  lemma MonitorFrame(s: State, s': State, c: nat)
    requires MonitorInv(s) && c < |s'.threads| && s'.runner == s.runner && |s.threads| <= |s'.threads|
    requires |s'.threads| <= |s.threads| + 1 && (|s.threads| < |s'.threads| ==> c == |s.threads|)
    requires forall d :: 0 <= d < |s.threads| && d != c ==> s'.threads[d] == s.threads[d]
    requires if c < |s.threads|
             then Monitors(s'.threads[c]) == Monitors(s.threads[c])
                  && HasMonitor(s'.threads[c]) == HasMonitor(s.threads[c])
             else !Monitors(s'.threads[c]) && !HasMonitor(s'.threads[c])
    ensures MonitorInv(s')
  {
    hide Monitors, HasMonitor;
    assert forall d :: MonitorAt(s', d) <==> MonitorAt(s, d);
    if d :| MonitorAt(s, d) {
      assert MonitorAt(s', d);
    }
    if c :| 0 <= c < |s.threads| && s.runner == Some(c) && HasMonitor(s.threads[c]) {
      assert HasMonitor(s'.threads[c]);
    }
    if c :| 0 <= c < |s'.threads| && s'.runner == Some(c) && HasMonitor(s'.threads[c]) {
      assert HasMonitor(s.threads[c]);
    }
  }

  lemma MonitorStarts(s: State, c: nat)
    requires Inv(s) && MonitorInv(s) && Enabled(s, StartMonitor(c))
    ensures MonitorInv(Apply(s, StartMonitor(c)))
  {
    assert ThreadInv(s, c, s.threads[c]);
    var s' := Apply(s, StartMonitor(c));
    var n := |s.threads|;
    assert forall d :: MonitorAt(s', d) <==> d == n || MonitorAt(s, d);
    assert s'.runner == Some(c) && HasMonitor(s'.threads[c]) && MonitorAt(s', n);
  }

  lemma MonitorStep(s: State, step: Step)
    requires Inv(s) && MonitorInv(s) && Enabled(s, step)
    ensures MonitorInv(Apply(s, step))
  {
    hide Inv, MonitorInv, Enabled, Apply;
    match step
    case StartMonitor(c) => MonitorStarts(s, c);
    case CallCreate => MonitorCall(s, step);
    case CallShutdown => MonitorCall(s, step);
    case CallStop => MonitorCall(s, step);
    case EnterStartOnce(c) => StartHasNoMonitor(s, c);
    case _ => MonitorMove(s, step);
  }

  lemma MonitorCall(s: State, step: Step)
    requires MonitorInv(s) && Enabled(s, step) && (step.CallCreate? || step.CallShutdown? || step.CallStop?)
    ensures MonitorInv(Apply(s, step))
  {
    hide MonitorInv;
    MonitorFrame(s, Apply(s, step), |s.threads|);
  }

  lemma MonitorMove(s: State, step: Step)
    requires MonitorInv(s) && Enabled(s, step) && !step.StartMonitor? && !step.EnterStartOnce?
    requires !step.CallCreate? && !step.CallShutdown? && !step.CallStop?
    ensures MonitorInv(Apply(s, step))
  {
    SameKind(s, step);
    hide MonitorInv, Enabled, Apply, Monitors, HasMonitor;
    MonitorFrame(s, Apply(s, step), step.c);
  }

  lemma SameKind(s: State, step: Step)
    requires Enabled(s, step) && !step.StartMonitor? && !step.EnterStartOnce?
    requires !step.CallCreate? && !step.CallShutdown? && !step.CallStop?
    ensures var s', c := Apply(s, step), step.c;
            && c < |s.threads| == |s'.threads| && s'.runner == s.runner
            && (forall d :: 0 <= d < |s.threads| && d != c ==> s'.threads[d] == s.threads[d])
            && Monitors(s'.threads[c]) == Monitors(s.threads[c])
            && HasMonitor(s'.threads[c]) == HasMonitor(s.threads[c])
  {
    OwnKind(s, step);
    hide Enabled, Apply, Monitors, HasMonitor;
    forall d | 0 <= d < |s.threads| && d != step.c ensures Apply(s, step).threads[d] == s.threads[d] {
      OtherThread(s, step, d);
    }
  }

  lemma OwnKind(s: State, step: Step)
    requires Enabled(s, step) && !step.StartMonitor? && !step.EnterStartOnce?
    requires !step.CallCreate? && !step.CallShutdown? && !step.CallStop?
    ensures var s', c := Apply(s, step), step.c;
            && c < |s.threads| == |s'.threads| && s'.runner == s.runner
            && Monitors(s'.threads[c]) == Monitors(s.threads[c])
            && HasMonitor(s'.threads[c]) == HasMonitor(s.threads[c])
  {
    if Creates(step) {
      CreatorKind(s, step);
      hide Enabled, Apply;
    }
  }

  lemma CreatorKind(s: State, step: Step)
    requires Enabled(s, step) && Creates(step) && !step.StartMonitor? && !step.EnterStartOnce? && !step.CallCreate?
    ensures var s', c := Apply(s, step), step.c;
            && c < |s.threads| == |s'.threads| && s'.runner == s.runner
            && !Monitors(s'.threads[c]) && !Monitors(s.threads[c])
            && HasMonitor(s'.threads[c]) == HasMonitor(s.threads[c])
  {
  }

  lemma StartHasNoMonitor(s: State, c: nat)
    requires Inv(s) && MonitorInv(s) && Enabled(s, EnterStartOnce(c))
    ensures MonitorInv(Apply(s, EnterStartOnce(c)))
  {
    var s' := Apply(s, EnterStartOnce(c));
    assert forall d :: !MonitorAt(s, d);
    assert forall d :: MonitorAt(s', d) ==> MonitorAt(s, d);
  }

  lemma {:induction false} RunMonitored(run: seq<Step>)
    requires After(run).Some?
    ensures MonitorInv(After(run).value)
    decreases |run|
  {
    if run != [] {
      hide Inv, MonitorInv, Enabled, Apply;
      RunInv(run[..|run| - 1]);
      RunMonitored(run[..|run| - 1]);
      MonitorStep(After(run[..|run| - 1]).value, run[|run| - 1]);
    }
  }

  /** Whenever vmReady is closed, which is when a CreateVM can succeed, exactly one thread watches the VM, or has seen
      it exit and cleans up. */
  lemma ReadyIsWatched(run: seq<Step>)
    requires After(run).Some?
    ensures var s := After(run).value;
            && (s.readyCloses > 0 ==> exists d :: MonitorAt(s, d))
            && (forall d, e :: MonitorAt(s, d) && MonitorAt(s, e) ==> d == e)
            && ((exists d :: MonitorAt(s, d)) ==> s.created == Succeeded)
  {
    hide After, Reached;
    RunInv(run);
    RunMonitored(run);
    var s := After(run).value;
    if c :| 0 <= c < |s.threads| && s.runner == Some(c) && HasMonitor(s.threads[c]) {
      assert ThreadInv(s, c, s.threads[c]);
    }
  }

  // ----- why a call ended as it did -----

  /** Thread `c` has given up the graceful path. */
  predicate GaveUp(t: Thread) {
    t.Forcing? || t.CleaningForced? || t.TerminateErr?
  }

  lemma ReasonStep(s: State, step: Step, c: nat)
    requires Enabled(s, step) && c < |Apply(s, step).threads|
    ensures var s' := Apply(s, step);
            && (!s'.dead ==>
                  (GaveUp(s'.threads[c]) <==> step == GiveUp(c) || (c < |s.threads| && GaveUp(s.threads[c]))))
            && (s'.threads[c] == ShutdownIgnored <==>
                step == DecideShutdown(c, false) || (c < |s.threads| && s.threads[c] == ShutdownIgnored))
            && (s'.threads[c] == CreateErr <==>
                step == CreateGivesUp(c) || (c < |s.threads| && s.threads[c] == CreateErr))
            && (c >= |s.threads| ==> !HasThread(step, c))
  {
    hide Enabled, Apply;
    if c >= |s.threads| {
      NewReason(s, step, c);
    } else if HasThread(step, c) {
      OwnReason(s, step, c);
    } else {
      OtherThread(s, step, c);
    }
  }

  lemma NewReason(s: State, step: Step, c: nat)
    requires Enabled(s, step) && |s.threads| <= c < |Apply(s, step).threads|
    ensures var t := Apply(s, step).threads[c];
            !GaveUp(t) && t != ShutdownIgnored && t != CreateErr && !HasThread(step, c)
  {
    SpawnedKind(s, step);
    OwnThread(s, step, c);
    hide Enabled, Apply;
  }

  lemma OwnReason(s: State, step: Step, c: nat)
    requires Enabled(s, step) && HasThread(step, c)
    ensures c < |s.threads| <= |Apply(s, step).threads|
    ensures var s' := Apply(s, step);
            var t, t' := s.threads[c], s'.threads[c];
            && (!s'.dead ==> (GaveUp(t') <==> step.GiveUp? || GaveUp(t)))
            && (t' == ShutdownIgnored <==> step == DecideShutdown(c, false) || t == ShutdownIgnored)
            && (t' == CreateErr <==> step.CreateGivesUp? || t == CreateErr)
  {
    if Creates(step) {
      CreatorReason(s, step, c);
      hide Enabled, Apply;
    }
  }

  lemma CreatorReason(s: State, step: Step, c: nat)
    requires Enabled(s, step) && Creates(step) && HasThread(step, c)
    ensures c < |s.threads| <= |Apply(s, step).threads|
    ensures var t, t' := s.threads[c], Apply(s, step).threads[c];
            && !GaveUp(t') && !GaveUp(t) && t' != ShutdownIgnored && t != ShutdownIgnored
            && (t' == CreateErr <==> step.CreateGivesUp? || t == CreateErr)
  {
  }

  lemma OtherThread(s: State, step: Step, c: nat)
    requires Enabled(s, step) && c < |s.threads| && !HasThread(step, c)
    ensures var s' := Apply(s, step); c < |s'.threads| && s'.threads[c] == s.threads[c]
  {
    if Creates(step) {
      OtherThanCreator(s, step, c);
      hide Enabled, Apply;
    }
  }

  /** The step is one of a CreateVM call. */
  predicate Creates(step: Step) {
    step.CallCreate? || step.EnterStartOnce? || step.FindStartOver? || step.CreateAdvances? || step.JailerFails?
    || step.CreateFails? || step.CreateReturns? || step.CreateGivesUp? || step.StartMonitor? || step.CloseReady?
  }

  lemma OtherThanCreator(s: State, step: Step, c: nat)
    requires Enabled(s, step) && Creates(step) && c < |s.threads| && !HasThread(step, c)
    ensures var s' := Apply(s, step); c < |s'.threads| && s'.threads[c] == s.threads[c]
  {
  }

  /** The step is one of thread `c`. */
  predicate HasThread(step: Step, c: nat) {
    !step.CallCreate? && !step.CallShutdown? && !step.CallStop? && step.c == c
  }

  lemma {:induction false} NoStepBefore(run: seq<Step>, c: nat)
    requires After(run).Some? && c >= |After(run).value.threads|
    ensures forall step :: step in run ==> !HasThread(step, c)
    decreases |run|
  {
    if run != [] {
      var init, last := run[..|run| - 1], run[|run| - 1];
      assert run == init + [last];
      OldThread(After(init).value, last, c);
      hide Enabled, Apply;
      NoStepBefore(init, c);
    }
  }

  lemma OldThread(s: State, step: Step, c: nat)
    requires Enabled(s, step) && c >= |Apply(s, step).threads|
    ensures c >= |s.threads| && !HasThread(step, c)
  {
    SpawnedKind(s, step);
    OwnThread(s, step, c);
    hide Enabled, Apply;
  }

  lemma OwnThread(s: State, step: Step, c: nat)
    requires Enabled(s, step)
    ensures HasThread(step, c) ==> c < |s.threads|
  {
  }

  /** A termination returns an error, or is about to, if and only if it gave up the graceful path; a Shutdown is ignored
      if and only if it was decided so; a CreateVM fails if and only if createVM had failed. */
  lemma {:induction false} AnswersHaveReasons(run: seq<Step>, c: nat)
    requires After(run).Some? && c < |After(run).value.threads| && !After(run).value.dead
    ensures var t := After(run).value.threads[c];
            && (GaveUp(t) <==> GiveUp(c) in run)
            && (t == ShutdownIgnored <==> DecideShutdown(c, false) in run)
            && (t == CreateErr <==> CreateGivesUp(c) in run)
    decreases |run|
  {
    var init, last := run[..|run| - 1], run[|run| - 1];
    var s := After(init).value;
    ReasonStep(s, last, c);
    hide Enabled, Apply;
    assert run == init + [last];
    if c < |s.threads| {
      AnswersHaveReasons(init, c);
    } else {
      NoStepBefore(init, c);
    }
  }

  ghost predicate CreateFailed(run: seq<Step>) {
    exists step <- run :: step.JailerFails? || step.CreateFails?
  }

  ghost predicate CreateReturned(run: seq<Step>) {
    exists step <- run :: step.CreateReturns?
  }

  lemma CreatedStep(s: State, step: Step)
    requires Enabled(s, step)
    ensures Apply(s, step).created == if step.JailerFails? || step.CreateFails? then Failed
                                      else if step.CreateReturns? then Succeeded
                                      else s.created
  {
  }

  /** createVM counts as failed if and only if one of its stages failed, and as successful if and only if it went
      through all of them and returned. */
  lemma {:induction false} CreatedIff(run: seq<Step>)
    requires After(run).Some?
    ensures After(run).value.created == Failed <==> CreateFailed(run)
    ensures After(run).value.created == Succeeded <==> CreateReturned(run)
    decreases |run|
  {
    if run != [] {
      var init, last := run[..|run| - 1], run[|run| - 1];
      assert run == init + [last];
      CreatedIff(init);
      RunInv(init);
      if last.JailerFails? || last.CreateFails? || last.CreateReturns? {
        RunningIsNotCreated(After(init).value, last);
      }
      CreatedStep(After(init).value, last);
      hide Enabled, Apply, Inv;
      assert CreateFailed(run) <==> CreateFailed(init) || last.JailerFails? || last.CreateFails? by {
        if step :| step in init && (step.JailerFails? || step.CreateFails?) {
          assert step in run;
        }
      }
      assert CreateReturned(run) <==> CreateReturned(init) || last.CreateReturns? by {
        if step :| step in init && step.CreateReturns? {
          assert step in run;
        }
      }
    }
  }

  lemma RunningIsNotCreated(s: State, step: Step)
    requires Inv(s) && Enabled(s, step) && (step.JailerFails? || step.CreateFails? || step.CreateReturns?)
    ensures s.created == NotRun
  {
    assert ThreadInv(s, step.c, s.threads[step.c]);
  }

  // ----- what each thread does -----

  /** The step starts a thread: a call, or the monitor. */
  predicate Spawns(step: Step) {
    step.CallCreate? || step.CallShutdown? || step.CallStop? || step.StartMonitor?
  }

  /** The steps of a run that started a thread, in order: the i-th started thread i. */
  function Requests(run: seq<Step>): seq<Step>
    decreases |run|
  {
    if run == [] then []
    else Requests(run[..|run| - 1]) + if Spawns(run[|run| - 1]) then [run[|run| - 1]] else []
  }

  predicate Terminates(t: Thread) {
    t.Terminating? || t.TerminateOk? || GaveUp(t)
  }

  /** A thread does what it was started for. A Shutdown terminates the VM once it was decided so, and only then. */
  predicate DoesAsAsked(t: Thread, request: Step, decided: bool) {
    match request
    case CallCreate =>
      t.CreateCalled? || t.CreateRunning? || t.CreateRan? || t.CreateMonitored? || t.CreateOk? || t.CreateErr?
      || t.CreateRefused?
    case CallShutdown => if decided then Terminates(t) else t.ShutdownCalled? || t.ShutdownIgnored?
    case CallStop => Terminates(t)
    case StartMonitor(_) => Monitors(t)
    case _ => false
  }

  lemma OwnKeepsKind(s: State, step: Step, c: nat, request: Step, decided: bool)
    requires Enabled(s, step) && HasThread(step, c) && c < |s.threads| && DoesAsAsked(s.threads[c], request, decided)
    ensures c < |Apply(s, step).threads|
    ensures DoesAsAsked(Apply(s, step).threads[c], request, decided || step == DecideShutdown(c, true))
  {
    if Creates(step) {
      CreatorKeepsKind(s, step, c, request, decided);
      hide Enabled, Apply;
    }
  }

  lemma CreatorKeepsKind(s: State, step: Step, c: nat, request: Step, decided: bool)
    requires Enabled(s, step) && Creates(step) && HasThread(step, c) && c < |s.threads|
    requires DoesAsAsked(s.threads[c], request, decided)
    ensures c < |Apply(s, step).threads| && DoesAsAsked(Apply(s, step).threads[c], request, decided)
  {
  }

  lemma SpawnedKind(s: State, step: Step)
    requires Enabled(s, step)
    ensures var s' := Apply(s, step);
            && |s'.threads| == |s.threads| + (if Spawns(step) then 1 else 0)
            && (Spawns(step) ==> s'.threads[|s.threads|] == Begun(step))
  {
  }

  /** A thread at its beginning. */
  function Begun(step: Step): Thread
    requires Spawns(step)
  {
    match step
    case CallCreate => CreateCalled
    case CallShutdown => ShutdownCalled
    case CallStop => Terminating([])
    case StartMonitor(_) => Watching
  }

  lemma BegunKind(step: Step)
    requires Spawns(step)
    ensures DoesAsAsked(Begun(step), step, false)
  {
  }

  /** In every interleaving each thread does what it was started for. */
  lemma {:induction false} ThreadsDoAsAsked(run: seq<Step>, c: nat)
    requires After(run).Some?
    ensures |Requests(run)| == |After(run).value.threads|
    ensures c < |Requests(run)| ==>
              DoesAsAsked(After(run).value.threads[c], Requests(run)[c], DecideShutdown(c, true) in run)
    decreases |run|
  {
    if run != [] {
      hide Enabled, Apply, DoesAsAsked;
      var init, last := run[..|run| - 1], run[|run| - 1];
      var s := After(init).value;
      assert run == init + [last];
      ThreadsDoAsAsked(init, c);
      SpawnedKind(s, last);
      if c < |s.threads| {
        if HasThread(last, c) {
          OwnKeepsKind(s, last, c, Requests(init)[c], DecideShutdown(c, true) in init);
        } else {
          OtherThread(s, last, c);
        }
      } else {
        NoStepBefore(init, c);
        if c < |Requests(run)| {
          BegunKind(last);
        }
      }
    }
  }

  // ----- every call can come to its end -----

  /** The thread has answered, or the monitor is through. */
  predicate Ended(t: Thread) {
    t.CreateOk? || t.CreateErr? || t.CreateRefused? || t.ShutdownIgnored? || t.TerminateOk? || t.TerminateErr?
    || t.MonitorDone?
  }

  predicate Cleaning(t: Thread) {
    t.CleaningForced? || t.CleaningUp?
  }

  ghost predicate StartHeld(s: State) {
    s.startOnce.Running? ==> s.startOnce.holder < |s.threads| && s.threads[s.startOnce.holder].CreateRunning?
  }

  ghost predicate CleanupHeld(s: State) {
    s.cleanupOnce.Running? ==> s.cleanupOnce.holder < |s.threads| && Cleaning(s.threads[s.cleanupOnce.holder])
  }

  /** Whoever holds a Once is at work in it. */
  ghost predicate HoldersInv(s: State) {
    StartHeld(s) && CleanupHeld(s)
  }

  lemma StartHeldStep(s: State, step: Step)
    requires StartHeld(s) && Enabled(s, step)
    ensures StartHeld(Apply(s, step))
  {
  }

  lemma CleanupHeldStep(s: State, step: Step)
    requires CleanupHeld(s) && Enabled(s, step)
    ensures CleanupHeld(Apply(s, step))
  {
  }

  lemma HoldersStep(s: State, step: Step)
    requires HoldersInv(s) && Enabled(s, step)
    ensures HoldersInv(Apply(s, step))
  {
    hide StartHeld, CleanupHeld, Enabled, Apply;
    StartHeldStep(s, step);
    CleanupHeldStep(s, step);
  }

  lemma {:induction false} RunHolders(run: seq<Step>)
    requires After(run).Some?
    ensures HoldersInv(After(run).value)
    decreases |run|
  {
    if run != [] {
      hide Enabled, Apply, HoldersInv;
      RunHolders(run[..|run| - 1]);
      HoldersStep(After(run[..|run| - 1]).value, run[|run| - 1]);
    }
  }

  /** What brings a cleanup nearer its end, done by thread `h`. */
  function CleanupNext(s: State, h: nat): Step {
    if s.shimCancelled then LeaveCleanup(h) else CancelShim(h)
  }

  /** What brings thread `c` nearer its end: a step of its own, or one of the thread it waits for. */
  function Next(s: State, c: nat): Step
    requires c < |s.threads| && !Ended(s.threads[c])
  {
    match s.threads[c]
    case CreateCalled =>
      (match s.startOnce
       case NotBegun => EnterStartOnce(c)
       case Running(h) => CreateFails(h)
       case Over => FindStartOver(c))
    case CreateRunning(pc) => if pc == HasMounts then CreateReturns(c) else CreateAdvances(c)
    case CreateRan(ok) => if ok then StartMonitor(c) else CreateGivesUp(c)
    case CreateMonitored => CloseReady(c)
    case ShutdownCalled => DecideShutdown(c, true)
    case Terminating(log) =>
      if |log| >= |GRACEFUL| then Finish(c)
      else if log != [] then Progress(c)
      else if s.readyCloses > 0 then SeeReady(c)
      else GiveUp(c)
    case Watching => VmExits(c)
    case CleaningForced(_) => CleanupNext(s, c)
    case CleaningUp => CleanupNext(s, c)
    case _ =>
      (match s.cleanupOnce
       case NotBegun => EnterCleanup(c)
       case Running(h) => CleanupNext(s, h)
       case Over => FindCleanupOver(c))
  }

  /** How far a thread is from its end. */
  function ThreadRank(t: Thread): nat {
    match t
    case CreateCalled => 9
    case CreateRunning(pc) =>
      (match pc
       case Configuring => 8
       case HasMachine => 7
       case HasStarted => 6
       case HasClients => 5
       case HasMounts => 4)
    case CreateRan(_) => 3
    case CreateMonitored => 2
    case ShutdownCalled => 10
    case Terminating(log) => if |log| <= 5 then 9 - |log| else 4
    case Forcing(_) => 3
    case CleaningForced(_) => 2
    case Watching => 4
    case VmGone => 3
    case CleaningUp => 2
    case _ => 0
  }

  /** How far the two Once values are from being over. */
  function OnceRank(s: State): nat {
    (if s.startOnce.Running? then 1 else 0) + (if s.cleanupOnce.Running? then 1 else 0)
    + (if s.shimCancelled then 0 else 1)
  }

  lemma Extend(run: seq<Step>, step: Step)
    requires After(run).Some? && Enabled(After(run).value, step)
    ensures After(run + [step]) == Some(Apply(After(run).value, step))
  {
  }

  lemma NextStep(s: State, c: nat)
    requires Inv(s) && HoldersInv(s) && !s.dead && c < |s.threads| && !Ended(s.threads[c])
    ensures Enabled(s, Next(s, c)) && Nearer(s, Apply(s, Next(s, c)), c)
  {
    hide Inv, StartHeld, CleanupHeld, Nearer, Enabled, Apply, Next;
    var t := s.threads[c];
    if t.CreateCalled? {
      NextCalled(s, c);
    } else if t.CreateRunning? || t.CreateRan? || t.CreateMonitored? {
      NextCreate(s, c);
    } else if t.ShutdownCalled? || t.Terminating? || t.Watching? {
      NextTerminate(s, c);
    } else if Cleaning(t) {
      NextCleaning(s, c);
    } else {
      NextWaiting(s, c);
    }
  }

  /** Thread `c` has got nearer its end, or what it waits for has. */
  predicate Nearer(s: State, s': State, c: nat)
    requires c < |s.threads|
  {
    s'.dead || (c < |s'.threads|
                && (ThreadRank(s'.threads[c]) < ThreadRank(s.threads[c])
                    || (s'.threads[c] == s.threads[c] && OnceRank(s') < OnceRank(s))))
  }

  lemma NextCalled(s: State, c: nat)
    requires StartHeld(s) && !s.dead && c < |s.threads| && s.threads[c].CreateCalled?
    ensures Enabled(s, Next(s, c)) && Nearer(s, Apply(s, Next(s, c)), c)
  {
  }

  lemma NextCreate(s: State, c: nat)
    requires !s.dead && c < |s.threads|
    requires s.threads[c].CreateRunning? || s.threads[c].CreateRan? || s.threads[c].CreateMonitored?
    ensures Enabled(s, Next(s, c)) && Nearer(s, Apply(s, Next(s, c)), c)
  {
  }

  lemma NextTerminate(s: State, c: nat)
    requires Inv(s) && !s.dead && c < |s.threads|
    requires s.threads[c].ShutdownCalled? || s.threads[c].Terminating? || s.threads[c].Watching?
    ensures Enabled(s, Next(s, c)) && Nearer(s, Apply(s, Next(s, c)), c)
  {
    assert ThreadInv(s, c, s.threads[c]);
    hide Inv, Reached;
  }

  lemma NextCleaning(s: State, c: nat)
    requires !s.dead && c < |s.threads| && Cleaning(s.threads[c])
    ensures Enabled(s, Next(s, c)) && Nearer(s, Apply(s, Next(s, c)), c)
  {
  }

  lemma NextWaiting(s: State, c: nat)
    requires CleanupHeld(s) && !s.dead && c < |s.threads| && (s.threads[c].Forcing? || s.threads[c].VmGone?)
    ensures Enabled(s, Next(s, c)) && Nearer(s, Apply(s, Next(s, c)), c)
  {
  }

  /** From every state of a live shim every call can come to its end, and the monitor too: there are further steps after
      which thread `c` has answered, or else a forced termination without a jailer has ended the process. */
  lemma {:induction false} CanEnd(run: seq<Step>, c: nat) returns (more: seq<Step>)
    requires After(run).Some? && !After(run).value.dead && c < |After(run).value.threads|
    ensures After(run + more).Some?
    ensures var s := After(run + more).value; s.dead || (c < |s.threads| && Ended(s.threads[c]))
    decreases ThreadRank(After(run).value.threads[c]), OnceRank(After(run).value)
  {
    hide After, Enabled, Apply, Inv, HoldersInv, Next, ThreadRank, OnceRank, Ended;
    var s := After(run).value;
    if Ended(s.threads[c]) {
      more := [];
      assert run + more == run;
    } else {
      RunInv(run);
      RunHolders(run);
      NextStep(s, c);
      var step := Next(s, c);
      var run1 := run + [step];
      Extend(run, step);
      if Apply(s, step).dead {
        more := [step];
      } else {
        var rest := CanEnd(run1, c);
        more := [step] + rest;
        assert run + more == run1 + rest;
      }
    }
  }
}
