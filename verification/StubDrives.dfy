/** The stub drives of a VM and the handler that lends them to containers (runtime/drive_handler.go). Calls to
    the jail, the VMM and the guest succeed or fail as the caller of the model says; one that fails changes nothing. */
module StubDrives {
  import opened Outcomes
  import opened Text
  import opened Rfc4648
  import opened StubFormat
  import opened DriveIds

  datatype DriveMount = DriveMount(hostPath: string, vmPath: string, filesystemType: string, options: seq<string>,
      isWritable: bool)

  datatype StubDrive = StubDrive(stubPath: Bytes, driveID: string, driveMount: DriveMount)

  /** A drive as the Firecracker configuration lists it. */
  datatype MachineDrive = MachineDrive(driveID: string, pathOnHost: Bytes, isReadOnly: bool)

  /** The file behind a drive of the VM. */
  datatype Backing = HostFile(path: string) | StubFile(name: Bytes)

  datatype MountRequest = MountRequest(destination: string, filesystemType: string, options: seq<string>)

  /** The outside: what each drive is patched to in the VMM, and what the guest has mounted. */
  datatype World = World(backing: map<string, Backing>, mounts: map<string, MountRequest>)

  // ----- mount options -----

  function ExpectedOption(isWritable: bool): string {
    if isWritable then "rw" else "ro"
  }

  /** The first "ro" or "rw" among the options. */
  function FirstFlag(options: seq<string>): Option<string> {
    if options == [] then None
    else if options[0] == "ro" || options[0] == "rw" then Some(options[0])
    else FirstFlag(options[1..])
  }

  /** Accepted are options whose first flag agrees with the drive, which stay as they are, and options without
      a flag, which get the right one. */
  function OptionsFor(options: seq<string>, isWritable: bool): (r: Result<seq<string>>)
    ensures r.Err? <==> FirstFlag(options).Some? && FirstFlag(options).value != ExpectedOption(isWritable)
    ensures r.Ok? ==> options <= r.value
  {
    match FirstFlag(options)
    case None => Ok(options + [ExpectedOption(isWritable)])
    case Some(flag) => if flag == ExpectedOption(isWritable) then Ok(options)
        else Err("mount option is incompatible with IsWritable")
  }

  method SetReadWriteOptions(options: seq<string>, isWritable: bool) returns (r: Result<seq<string>>)
    ensures r == OptionsFor(options, isWritable)
  {
    var expected := if isWritable then "rw" else "ro";
    for i := 0 to |options|
      invariant FirstFlag(options) == FirstFlag(options[i..])
    {
      if options[i] == "ro" || options[i] == "rw" {
        if options[i] != expected {
          return Err("mount option is incompatible with IsWritable");
        }
        return Ok(options);
      }
    }
    return Ok(options + [expected]);
  }

  predicate IsFlag(option: string) {
    option == "ro" || option == "rw"
  }

  /** FirstFlag is the flag with nothing but other options before it, and there is none only if no option is a flag. */
  lemma {:induction false} FirstFlagIs(options: seq<string>)
    ensures match FirstFlag(options)
            case None => forall i :: 0 <= i < |options| ==> !IsFlag(options[i])
            case Some(flag) => exists i :: 0 <= i < |options| && options[i] == flag && IsFlag(flag)
                                           && forall j :: 0 <= j < i ==> !IsFlag(options[j])
  {
    if options != [] && !IsFlag(options[0]) {
      FirstFlagIs(options[1..]);
      if FirstFlag(options).Some? {
        var i :| 0 <= i < |options| - 1 && options[1..][i] == FirstFlag(options).value
                 && forall j :: 0 <= j < i ==> !IsFlag(options[1..][j]);
        forall j | 0 <= j < i + 1 ensures !IsFlag(options[j]) {
          if j > 0 {
            assert options[j] == options[1..][j - 1];
          }
        }
        assert options[i + 1] == options[1..][i];
      }
    } else if options != [] {
      assert IsFlag(options[0]);
    }
  }

  /** What the options of a drive become: those of a writable drive never have "ro" as their first flag, those of a
      read-only one never "rw"; options with a flag stay as they are, and others get one at the end. */
  lemma OptionsForIs(options: seq<string>, isWritable: bool)
    ensures var r := OptionsFor(options, isWritable);
            var flag := if isWritable then "rw" else "ro";
            && (r.Ok? <==> FirstFlag(options) in {None, Some(flag)})
            && (r.Ok? ==> r.value == if exists o <- options :: IsFlag(o) then options else options + [flag])
  {
    FirstFlagIs(options);
  }

  /** Options that were set are never refused, nor changed, when set again. */
  lemma {:induction false} OptionsForIdempotent(options: seq<string>, isWritable: bool)
    ensures OptionsFor(options, isWritable).Ok? ==>
              var set1 := OptionsFor(options, isWritable).value;
              FirstFlag(set1) == Some(ExpectedOption(isWritable)) && OptionsFor(set1, isWritable) == Ok(set1)
  {
    if FirstFlag(options) == None {
      FirstFlagAppended(options, ExpectedOption(isWritable));
    }
  }

  lemma {:induction false} FirstFlagAppended(options: seq<string>, flag: string)
    requires FirstFlag(options) == None && (flag == "ro" || flag == "rw")
    ensures FirstFlag(options + [flag]) == Some(flag)
  {
    if options == [] {
      assert (options + [flag])[0] == flag;
    } else {
      assert (options + [flag])[1..] == options[1..] + [flag];
      FirstFlagAppended(options[1..], flag);
    }
  }

  // ----- creation -----

  function NewDrive(root: Bytes, stub: Stub, isWritable: bool): StubDrive {
    StubDrive(StubPath(root, stub), DriveID(root, stub), DriveMount("", "", "", [], isWritable))
  }

  function Listed(d: StubDrive): MachineDrive {
    MachineDrive(d.driveID, d.stubPath, !d.driveMount.isWritable)
  }

  /** The `n` drives of the container pool. */
  function ContainerDrives(root: Bytes, n: nat): (ds: seq<StubDrive>)
    ensures |ds| == n && forall i :: 0 <= i < n ==> ds[i] == NewDrive(root, ContainerStub(i), true)
  {
    seq(n, i requires 0 <= i => NewDrive(root, ContainerStub(i), true))
  }

  /** CreateContainerStubs; `creates(i)` says whether the i-th file could be made. Drives listed in the machine
      configuration before a failure stay listed. */
  method CreateContainerStubs(root: Bytes, containerCount: int, creates: nat -> bool, machine: seq<MachineDrive>)
    returns (r: Result<seq<StubDrive>>, machine': seq<MachineDrive>)
    ensures r.Ok? <==> forall i :: 0 <= i < containerCount ==> creates(i)
    ensures r.Ok? ==> r.value == ContainerDrives(root, if containerCount < 0 then 0 else containerCount)
    ensures machine <= machine'
    ensures r.Ok? ==> |machine'| == |machine| + |r.value|
    ensures r.Err? ==> |machine'| - |machine| < containerCount && !creates(|machine'| - |machine|)
                       && forall i :: 0 <= i < |machine'| - |machine| ==> creates(i)
    ensures forall i :: 0 <= i < |machine'| - |machine| ==>
              machine'[|machine| + i] == Listed(NewDrive(root, ContainerStub(i), true))
  {
    hide NewDrive;
    var stubs: seq<StubDrive> := [];
    machine' := machine;
    var i := 0;
    while i < containerCount
      invariant 0 <= i && (i <= containerCount || (containerCount < 0 && i == 0))
      invariant forall j :: 0 <= j < i ==> creates(j)
      invariant stubs == ContainerDrives(root, i)
      invariant |machine'| == |machine| + i && machine <= machine'
      invariant forall j :: 0 <= j < i ==>
          machine'[|machine| + j] == Listed(NewDrive(root, ContainerStub(j), true))
    {
      if !creates(i) {
        return Err("failed to create container stub drive"), machine';
      }
      var drive := NewDrive(root, ContainerStub(i), true);
      machine' := machine' + [Listed(drive)];
      stubs := stubs + [drive];
      i := i + 1;
    }
    return Ok(stubs), machine';
  }

  /** The i-th drive of the pool is the i-th container stub, writable, and the machine configuration lists it so. */
  lemma PoolDriveIs(root: Bytes, n: nat, i: nat)
    requires i < n
    ensures var d := ContainerDrives(root, n)[i];
            var name := ToBytes("ctrstub" + Decimal(i));
            && d.stubPath == root + [SLASH] + name && d.driveID == Base32(name) && d.driveMount.isWritable
            && Listed(d) == MachineDrive(Base32(name), root + [SLASH] + name, false)
  {
    hide DriveID;
    DriveIDEncodesName(root, ContainerStub(i));
  }

  /** The drives of the pool have distinct IDs. */
  lemma ContainerDrivesDistinct(root: Bytes, n: nat)
    ensures Distinct(IDs(ContainerDrives(root, n)))
  {
    hide DriveID;
    var ids := IDs(ContainerDrives(root, n));
    forall i, j | 0 <= i < j < |ids| ensures ids[i] != ids[j] {
      if ids[i] == ids[j] {
        DriveIDInjective(root, ContainerStub(i), root, ContainerStub(j));
      }
    }
  }

  function IDs(drives: seq<StubDrive>): (ids: seq<string>)
    ensures |ids| == |drives| && forall i :: 0 <= i < |ids| ==> ids[i] == drives[i].driveID
  {
    seq(|drives|, i requires 0 <= i < |drives| => drives[i].driveID)
  }

  // ----- the handler -----

  datatype State = State(free: seq<StubDrive>, used: map<string, StubDrive>, world: World)

  datatype Request = Request(hostPath: string, vmPath: string, filesystemType: string, options: seq<string>)

  /** How the outside answers a Reserve. */
  datatype ReserveCalls = ReserveCalls(expose: bool, patch: bool, mount: bool)

  /** How the outside answers a Release. */
  datatype ReleaseCalls = ReleaseCalls(unmount: bool, patch: bool)

  function WithMountConfig(d: StubDrive, req: Request, options: seq<string>): StubDrive {
    d.(driveMount := DriveMount(req.hostPath, req.vmPath, req.filesystemType, options, d.driveMount.isWritable))
  }

  function MountOf(d: StubDrive): MountRequest {
    MountRequest(d.driveMount.vmPath, d.driveMount.filesystemType, d.driveMount.options)
  }

  /** PatchAndMount: a mount that fails leaves the drive patched. */
  function PatchAndMount(w: World, d: StubDrive, calls: ReserveCalls): (World, bool) {
    if !calls.expose || !calls.patch then (w, false)
    else
      var patched := w.(backing := w.backing[d.driveID := HostFile(d.driveMount.hostPath)]);
      if !calls.mount then (patched, false)
      else (patched.(mounts := patched.mounts[d.driveID := MountOf(d)]), true)
  }

  function AfterReserve(s: State, id: string, req: Request, calls: ReserveCalls): (State, Result<()>) {
    if |s.free| == 0 then (s, Err("There are no remaining drives to be used"))
    else if id in s.used then (s, Err("drive already in use"))
    else match OptionsFor(req.options, s.free[0].driveMount.isWritable)
      case Err(e) => (s, Err(e))
      case Ok(options) =>
        var d := WithMountConfig(s.free[0], req, options);
        var (w, ok) := PatchAndMount(s.world, d, calls);
        if ok then (State(s.free[1..], s.used[id := d], w), Ok(()))
        else (s.(world := w), Err("failed to mount drive inside vm"))
  }

  /** When a reservation succeeds. */
  predicate Reservable(s: State, id: string, req: Request, calls: ReserveCalls) {
    && |s.free| > 0 && id !in s.used && calls.expose && calls.patch && calls.mount
    && (FirstFlag(req.options).Some? ==>
        FirstFlag(req.options).value == ExpectedOption(s.free[0].driveMount.isWritable))
  }

  /** It succeeds for a container without a drive, if a drive is free whose mode the options do not contradict, and
      every call to the outside succeeds; otherwise nothing is lent. */
  lemma ReserveOkIff(s: State, id: string, req: Request, calls: ReserveCalls)
    ensures var (s', r) := AfterReserve(s, id, req, calls);
            && (r.Ok? <==> Reservable(s, id, req, calls))
            && (if r.Ok? then id in s'.used else s'.used == s.used && s'.free == s.free)
  {
  }

  /** After a reservation that succeeds, the drive that was first in the queue is lent to the container. In the VM it is
      backed by the host path of the request, and mounted where and as the request says, with the flag of the drive
      among the options. No other drive is touched. */
  lemma ReservedAsAsked(s: State, id: string, req: Request, calls: ReserveCalls)
    requires AfterReserve(s, id, req, calls).1.Ok?
    ensures |s.free| > 0
    ensures var s' := AfterReserve(s, id, req, calls).0;
            var d := s.free[0];
            var flag := if d.driveMount.isWritable then "rw" else "ro";
            var options := if exists o <- req.options :: IsFlag(o) then req.options else req.options + [flag];
            && s'.free == s.free[1..]
            && id in s'.used && s'.used == s.used[id := s'.used[id]] && Same(d, s'.used[id])
            && s'.world.backing == s.world.backing[d.driveID := HostFile(req.hostPath)]
            && s'.world.mounts == s.world.mounts[d.driveID := MountRequest(req.vmPath, req.filesystemType, options)]
  {
    if |s.free| > 0 {
      OptionsForIs(req.options, s.free[0].driveMount.isWritable);
    }
    hide FirstFlag, OptionsFor;
  }

  /** A reservation that fails lends nothing and mounts nothing. It patches the drive that was first in the queue if and
      only if the mount in the guest is what failed. */
  lemma ReserveFailed(s: State, id: string, req: Request, calls: ReserveCalls)
    requires AfterReserve(s, id, req, calls).1.Err?
    ensures var s' := AfterReserve(s, id, req, calls).0;
            && s'.free == s.free && s'.used == s.used && s'.world.mounts == s.world.mounts
            && s'.world.backing == if Reservable(s, id, req, calls.(mount := true))
                                   then s.world.backing[s.free[0].driveID := HostFile(req.hostPath)]
                                   else s.world.backing
  {
  }

  function AfterRelease(s: State, id: string, calls: ReleaseCalls): (State, Result<()>) {
    if id !in s.used then (s, Err("container drive was not found"))
    else
      var d := s.used[id];
      if !calls.unmount then (s, Err("failed to unmount drive"))
      else
        var unmounted := s.world.(mounts := s.world.mounts - {d.driveID});
        if !calls.patch then (s.(world := unmounted), Err("failed to patch drive"))
        else
          var w := unmounted.(backing := unmounted.backing[d.driveID := StubFile(PathBase(d.stubPath))]);
          (State(s.free + [d], s.used - {id}, w), Ok(()))
  }

  /** A release succeeds exactly for a container with a drive, if unmounting and patching succeed. Then the drive goes
      to the end of the queue, unmounted and backed by its stub again. Otherwise it stays lent, unmounted if only the
      patching failed. */
  lemma ReleasedIff(s: State, id: string, calls: ReleaseCalls)
    ensures var (s', r) := AfterRelease(s, id, calls);
            && (r.Ok? <==> id in s.used && calls.unmount && calls.patch)
            && (r.Ok? ==>
                  && s'.used == s.used - {id} && s'.free == s.free + [s.used[id]]
                  && s'.world.mounts == s.world.mounts - {s.used[id].driveID}
                  && s'.world.backing
                     == s.world.backing[s.used[id].driveID := StubFile(PathBase(s.used[id].stubPath))])
            && (r.Err? ==>
                  && s'.used == s.used && s'.free == s.free && s'.world.backing == s.world.backing
                  && s'.world.mounts == if id in s.used && calls.unmount then s.world.mounts - {s.used[id].driveID}
                                        else s.world.mounts)
  {
    hide PathBase;
  }

  class StubDriveHandler {
    var freeDrives: seq<StubDrive>
    var usedDrives: map<string, StubDrive>
    var world: World

    function View(): State
      reads this
    {
      State(freeDrives, usedDrives, world)
    }

    constructor (drives: seq<StubDrive>, world: World)
      ensures View() == State(drives, map[], world)
    {
      freeDrives := drives;
      usedDrives := map[];
      this.world := world;
    }

    method Reserve(id: string, req: Request, calls: ReserveCalls) returns (r: Result<()>)
      modifies this
      ensures (View(), r) == AfterReserve(old(View()), id, req, calls)
    {
      if |freeDrives| == 0 {
        return Err("There are no remaining drives to be used");
      }
      if id in usedDrives {
        return Err("drive already in use");
      }
      var freeDrive := freeDrives[0];
      var options := SetReadWriteOptions(req.options, freeDrive.driveMount.isWritable);
      if options.Err? {
        return Err(options.error);
      }
      var drive := WithMountConfig(freeDrive, req, options.value);
      var ok := MountDrive(drive, calls);
      if !ok {
        return Err("failed to mount drive inside vm");
      }
      freeDrives := freeDrives[1..];
      usedDrives := usedDrives[id := drive];
      return Ok(());
    }

    method MountDrive(d: StubDrive, calls: ReserveCalls) returns (ok: bool)
      modifies this`world
      ensures (world, ok) == PatchAndMount(old(world), d, calls)
    {
      if !calls.expose {
        return false;
      }
      if !calls.patch {
        return false;
      }
      world := world.(backing := world.backing[d.driveID := HostFile(d.driveMount.hostPath)]);
      if !calls.mount {
        return false;
      }
      world := world.(mounts := world.mounts[d.driveID := MountOf(d)]);
      return true;
    }

    method Release(id: string, calls: ReleaseCalls) returns (r: Result<()>)
      modifies this
      ensures (View(), r) == AfterRelease(old(View()), id, calls)
    {
      if id !in usedDrives {
        return Err("container drive was not found");
      }
      var drive := usedDrives[id];
      if !calls.unmount {
        return Err("failed to unmount drive");
      }
      world := world.(mounts := world.mounts - {drive.driveID});
      if !calls.patch {
        return Err("failed to patch drive");
      }
      world := world.(backing := world.backing[drive.driveID := StubFile(PathBase(drive.stubPath))]);
      usedDrives := usedDrives - {id};
      freeDrives := freeDrives + [drive];
      return Ok(());
    }
  }

  // ----- what every run keeps -----

  /** Two records of one physical drive. */
  ghost predicate Same(a: StubDrive, b: StubDrive) {
    a.driveID == b.driveID && a.stubPath == b.stubPath && a.driveMount.isWritable == b.driveMount.isWritable
  }

  ghost predicate From(d: StubDrive, drives: seq<StubDrive>) {
    exists k :: 0 <= k < |drives| && Same(drives[k], d)
  }

  /** No drive is in two places. */
  ghost predicate Apart(free: seq<StubDrive>, used: map<string, StubDrive>) {
    && (forall i, j :: 0 <= i < j < |free| ==> free[i].driveID != free[j].driveID)
    && (forall id, id' :: id in used && id' in used && id != id' ==> used[id].driveID != used[id'].driveID)
    && (forall i, id :: 0 <= i < |free| && id in used ==> free[i].driveID != used[id].driveID)
  }

  ghost predicate AllFrom(free: seq<StubDrive>, used: map<string, StubDrive>, drives: seq<StubDrive>) {
    && (forall i :: 0 <= i < |free| ==> From(free[i], drives))
    && (forall id :: id in used ==> From(used[id], drives))
  }

  /** Each of the initial drives is in exactly one place, unchanged but for its mount configuration. */
  ghost predicate Conserved(s: State, drives: seq<StubDrive>) {
    AllFrom(s.free, s.used, drives) && Apart(s.free, s.used) && |s.free| + |s.used| == |drives|
  }

  ghost predicate InUse(s: State, driveID: string) {
    exists id :: id in s.used && s.used[id].driveID == driveID
  }

  /** A mounted drive is in use; a drive in use is patched to its own host path, and if it is mounted
      then as its configuration says. */
  ghost predicate WorldAgrees(s: State) {
    && (forall d :: d in s.world.mounts ==> InUse(s, d))
    && (forall id :: id in s.used ==> LentAgrees(s.used[id], s.world))
  }

  ghost predicate LentAgrees(d: StubDrive, w: World) {
    && d.driveID in w.backing && w.backing[d.driveID] == HostFile(d.driveMount.hostPath)
    && (d.driveID in w.mounts ==> w.mounts[d.driveID] == MountOf(d))
    && FirstFlag(d.driveMount.options) == Some(ExpectedOption(d.driveMount.isWritable))
  }

  datatype Op =
    | ReserveOp(id: string, req: Request, reserveCalls: ReserveCalls)
    | ReleaseOp(id: string, releaseCalls: ReleaseCalls)

  function Step(s: State, op: Op): State {
    match op
    case ReserveOp(id, req, calls) => AfterReserve(s, id, req, calls).0
    case ReleaseOp(id, calls) => AfterRelease(s, id, calls).0
  }

  function Run(s: State, ops: seq<Op>): State
    decreases |ops|
  {
    if ops == [] then s else Run(Step(s, ops[0]), ops[1..])
  }

  lemma LendKeepsApart(free: seq<StubDrive>, used: map<string, StubDrive>, id: string, d: StubDrive)
    requires Apart(free, used) && |free| > 0 && id !in used && d.driveID == free[0].driveID
    ensures Apart(free[1..], used[id := d])
  {
  }

  lemma LendKeepsFrom(free: seq<StubDrive>, used: map<string, StubDrive>, id: string, d: StubDrive,
      drives: seq<StubDrive>)
    requires AllFrom(free, used, drives) && |free| > 0 && Same(free[0], d)
    ensures AllFrom(free[1..], used[id := d], drives)
  {
  }

  lemma TakeBackKeepsApart(free: seq<StubDrive>, used: map<string, StubDrive>, id: string)
    requires Apart(free, used) && id in used
    ensures Apart(free + [used[id]], used - {id})
  {
  }

  lemma TakeBackKeepsFrom(free: seq<StubDrive>, used: map<string, StubDrive>, id: string, drives: seq<StubDrive>)
    requires AllFrom(free, used, drives) && id in used
    ensures AllFrom(free + [used[id]], used - {id}, drives)
  {
  }

  lemma ReserveConserves(s: State, id: string, req: Request, calls: ReserveCalls, drives: seq<StubDrive>)
    requires Conserved(s, drives)
    ensures Conserved(AfterReserve(s, id, req, calls).0, drives)
  {
    hide AllFrom, Apart, OptionsFor, PatchAndMount;
    var (s', r) := AfterReserve(s, id, req, calls);
    if r.Ok? {
      LendKeepsApart(s.free, s.used, id, s'.used[id]);
      LendKeepsFrom(s.free, s.used, id, s'.used[id], drives);
      assert s'.used.Keys == s.used.Keys + {id};
    }
  }

  lemma ReleaseConserves(s: State, id: string, calls: ReleaseCalls, drives: seq<StubDrive>)
    requires Conserved(s, drives)
    ensures Conserved(AfterRelease(s, id, calls).0, drives)
  {
    hide AllFrom, Apart, PathBase;
    var (s', r) := AfterRelease(s, id, calls);
    if r.Ok? {
      TakeBackKeepsApart(s.free, s.used, id);
      TakeBackKeepsFrom(s.free, s.used, id, drives);
      assert s'.used.Keys == s.used.Keys - {id};
    }
  }

  /** What happens to one drive in the VM does not concern the lending of another. */
  lemma LentFrame(d: StubDrive, w: World, w': World, other: string)
    requires LentAgrees(d, w) && d.driveID != other
    requires w'.backing == w.backing || (other in w'.backing && w'.backing == w.backing[other := w'.backing[other]])
    requires || w'.mounts == w.mounts || w'.mounts == w.mounts - {other}
             || (other in w'.mounts && w'.mounts == w.mounts[other := w'.mounts[other]])
    ensures LentAgrees(d, w')
  {
  }

  lemma ReserveAgrees(s: State, id: string, req: Request, calls: ReserveCalls)
    requires Apart(s.free, s.used) && WorldAgrees(s)
    ensures WorldAgrees(AfterReserve(s, id, req, calls).0)
  {
    var (s', r) := AfterReserve(s, id, req, calls);
    if |s.free| > 0 && id !in s.used {
      OptionsForIdempotent(req.options, s.free[0].driveMount.isWritable);
      assert r.Ok? ==> LentAgrees(s'.used[id], s'.world);
      hide OptionsFor, FirstFlag, LentAgrees;
      forall k | k in s'.used ensures LentAgrees(s'.used[k], s'.world) {
        if k in s.used {
          LentFrame(s.used[k], s.world, s'.world, s.free[0].driveID);
        }
      }
      MountsInUse(s, s', id);
    }
  }

  /** Every mounted drive is in use after a reservation that only adds to what is used. */
  lemma MountsInUse(s: State, s': State, id: string)
    requires forall d :: d in s.world.mounts ==> InUse(s, d)
    requires forall k :: k in s.used ==> k in s'.used && s'.used[k] == s.used[k]
    requires forall d :: d in s'.world.mounts && d !in s.world.mounts ==> id in s'.used && s'.used[id].driveID == d
    ensures forall d :: d in s'.world.mounts ==> InUse(s', d)
  {
    forall d | d in s'.world.mounts ensures InUse(s', d) {
      if d in s.world.mounts {
        var k :| k in s.used && s.used[k].driveID == d;
        assert k in s'.used && s'.used[k].driveID == d;
      } else {
        assert id in s'.used && s'.used[id].driveID == d;
      }
    }
  }

  lemma ReleaseAgrees(s: State, id: string, calls: ReleaseCalls)
    requires Apart(s.free, s.used) && WorldAgrees(s)
    ensures WorldAgrees(AfterRelease(s, id, calls).0)
  {
    hide PathBase, FirstFlag;
    var s' := AfterRelease(s, id, calls).0;
    if id in s.used && calls.unmount {
      var other := s.used[id].driveID;
      assert id in s'.used ==> LentAgrees(s'.used[id], s'.world);
      hide LentAgrees;
      forall k | k in s'.used && k != id ensures LentAgrees(s'.used[k], s'.world) {
        LentFrame(s.used[k], s.world, s'.world, other);
      }
      forall d | d in s'.world.mounts ensures InUse(s', d) {
        var k :| k in s.used && s.used[k].driveID == d;
        assert k in s'.used && s'.used[k].driveID == d;
      }
    }
  }

  /** Over every sequence of reservations and releases, whatever fails outside, no drive is lost or lent
      twice and the VM agrees with the handler. */
  lemma {:induction false} EveryRunConserves(s: State, ops: seq<Op>, drives: seq<StubDrive>)
    requires Conserved(s, drives) && WorldAgrees(s)
    ensures Conserved(Run(s, ops), drives) && WorldAgrees(Run(s, ops))
    decreases |ops|
  {
    hide AllFrom, Apart, WorldAgrees, AfterReserve, AfterRelease;
    if ops != [] {
      match ops[0] {
        case ReserveOp(id, req, calls) =>
          ReserveConserves(s, id, req, calls, drives);
          ReserveAgrees(s, id, req, calls);
        case ReleaseOp(id, calls) =>
          ReleaseConserves(s, id, calls, drives);
          ReleaseAgrees(s, id, calls);
      }
      EveryRunConserves(Step(s, ops[0]), ops[1..], drives);
    }
  }

  lemma StartConserves(drives: seq<StubDrive>, world: World)
    requires Distinct(IDs(drives)) && world.mounts == map[]
    ensures Conserved(State(drives, map[], world), drives) && WorldAgrees(State(drives, map[], world))
  {
  }

  lemma {:induction false} CountDistinct<T(!new)>(s: seq<T>, x: T)
    requires Distinct(s)
    ensures multiset(s)[x] == if x in s then 1 else 0
  {
    if s != [] {
      var init, last := s[..|s| - 1], s[|s| - 1];
      assert s == init + [last];
      CountDistinct(init, x);
    }
  }

  lemma {:induction false} DistinctWithin<T(!new)>(a: seq<T>, b: seq<T>)
    requires Distinct(a) && |a| == |b| && forall x :: x in a ==> x in b
    ensures Distinct(b) ==> multiset(a) == multiset(b)
  {
    if Distinct(b) {
      forall x ensures multiset(a)[x] <= multiset(b)[x] {
        CountDistinct(a, x);
        CountDistinct(b, x);
      }
      assert multiset(a) <= multiset(b);
      assert |multiset(a)| == |a| && |multiset(b)| == |b|;
      assert |multiset(b) - multiset(a)| == 0;
      assert multiset(b) == multiset(a) + (multiset(b) - multiset(a));
    }
  }

  /** The IDs lent to the containers `ids`. */
  function Lent(s: State, ids: seq<string>): (lent: seq<string>)
    requires forall i :: 0 <= i < |ids| ==> ids[i] in s.used
    ensures |lent| == |ids| && forall i :: 0 <= i < |ids| ==> lent[i] == s.used[ids[i]].driveID
  {
    seq(|ids|, i requires 0 <= i < |ids| => s.used[ids[i]].driveID)
  }

  lemma FreeAndLentDistinct(s: State, ids: seq<string>)
    requires Apart(s.free, s.used) && Distinct(ids) && forall i :: 0 <= i < |ids| ==> ids[i] in s.used
    ensures Distinct(IDs(s.free) + Lent(s, ids))
  {
  }

  /** The IDs in the free queue and those lent to the containers `ids`, which are all that have a drive,
      together are a permutation of the initial IDs. */
  lemma FreeAndUsedPermute(s: State, drives: seq<StubDrive>, ids: seq<string>)
    requires Conserved(s, drives) && Distinct(IDs(drives)) && Distinct(ids) && |ids| == |s.used|
    requires forall i :: 0 <= i < |ids| ==> ids[i] in s.used
    ensures multiset(IDs(s.free) + Lent(s, ids)) == multiset(IDs(drives))
  {
    FreeAndLentDistinct(s, ids);
    hide Apart, Distinct;
    var all := IDs(s.free) + Lent(s, ids);
    forall x | x in all ensures x in IDs(drives) {
      var i :| 0 <= i < |all| && all[i] == x;
      var d := if i < |s.free| then s.free[i] else s.used[ids[i - |s.free|]];
      assert From(d, drives);
      var k :| 0 <= k < |drives| && Same(drives[k], d);
      assert IDs(drives)[k] == x;
    }
    DistinctWithin(all, IDs(drives));
  }

  /** From the pool a VM starts with, after any reservations and releases: the free drives and those lent to the
      containers `ids` are the drives of the pool, each once; what the VM has mounted is lent, as its configuration
      says. */
  lemma PoolIsPermuted(root: Bytes, n: nat, world: World, ops: seq<Op>, ids: seq<string>)
    requires world.mounts == map[]
    requires var s := Run(State(ContainerDrives(root, n), map[], world), ops);
             Distinct(ids) && |ids| == |s.used| && forall i :: 0 <= i < |ids| ==> ids[i] in s.used
    ensures var s := Run(State(ContainerDrives(root, n), map[], world), ops);
            && multiset(IDs(s.free) + Lent(s, ids)) == multiset(IDs(ContainerDrives(root, n)))
            && WorldAgrees(s) && forall i :: 0 <= i < |s.free| ==> s.free[i].driveID !in s.world.mounts
  {
    hide Run, WorldAgrees, AllFrom, Apart;
    var drives := ContainerDrives(root, n);
    ContainerDrivesDistinct(root, n);
    StartConserves(drives, world);
    EveryRunConserves(State(drives, map[], world), ops, drives);
    var s := Run(State(drives, map[], world), ops);
    FreeAndUsedPermute(s, drives, ids);
    FreeIsUnmounted(s);
  }

  predicate Releases(op: Op, id: string) {
    op.ReleaseOp? && op.id == id
  }

  /** The drive of container `id` is backed and mounted as in `w`. */
  ghost predicate LentAs(s: State, id: string, d: StubDrive, w: World) {
    && id in s.used && s.used[id] == d && d.driveID in w.backing && d.driveID in w.mounts
    && d.driveID in s.world.backing && s.world.backing[d.driveID] == w.backing[d.driveID]
    && d.driveID in s.world.mounts && s.world.mounts[d.driveID] == w.mounts[d.driveID]
  }

  /** What is done for other containers does not touch it. */
  lemma LentStep(s: State, op: Op, id: string, d: StubDrive, w: World)
    requires Apart(s.free, s.used) && LentAs(s, id, d, w) && !Releases(op, id)
    ensures LentAs(Step(s, op), id, d, w)
  {
    hide OptionsFor, PathBase;
    if op.ReleaseOp? && op.id in s.used {
      assert s.used[op.id].driveID != d.driveID;
    }
  }

  lemma {:induction false} LentStays(s: State, ops: seq<Op>, drives: seq<StubDrive>, id: string, d: StubDrive, w: World)
    requires Conserved(s, drives) && LentAs(s, id, d, w) && forall op <- ops :: !Releases(op, id)
    ensures LentAs(Run(s, ops), id, d, w)
    decreases |ops|
  {
    if ops != [] {
      LentStep(s, ops[0], id, d, w);
      hide AllFrom, Apart, LentAs, AfterReserve, AfterRelease;
      match ops[0] {
        case ReserveOp(id', req, calls) => ReserveConserves(s, id', req, calls, drives);
        case ReleaseOp(id', calls) => ReleaseConserves(s, id', calls, drives);
      }
      LentStays(Step(s, ops[0]), ops[1..], drives, id, d, w);
    }
  }

  /** A container's drive stays as the container asked for it, whatever is reserved and released for others, until it is
      released itself. */
  lemma LentAsAsked(s: State, drives: seq<StubDrive>, id: string, req: Request, ops: seq<Op>)
    requires Conserved(s, drives) && Reservable(s, id, req, ReserveCalls(true, true, true))
    requires forall op <- ops :: !Releases(op, id)
    ensures var d := s.free[0];
            var flag := if d.driveMount.isWritable then "rw" else "ro";
            var options := if exists o <- req.options :: IsFlag(o) then req.options else req.options + [flag];
            var t := Run(s, [ReserveOp(id, req, ReserveCalls(true, true, true))] + ops);
            && id in t.used && Same(d, t.used[id])
            && d.driveID in t.world.backing && t.world.backing[d.driveID] == HostFile(req.hostPath)
            && d.driveID in t.world.mounts
            && t.world.mounts[d.driveID] == MountRequest(req.vmPath, req.filesystemType, options)
  {
    var calls := ReserveCalls(true, true, true);
    var op := ReserveOp(id, req, calls);
    ReserveOkIff(s, id, req, calls);
    ReservedAsAsked(s, id, req, calls);
    ReserveConserves(s, id, req, calls, drives);
    assert ([op] + ops)[0] == op && ([op] + ops)[1..] == ops;
    hide AfterReserve, Conserved, FirstFlag;
    var s1 := Step(s, op);
    LentStays(s1, ops, drives, id, s1.used[id], s1.world);
  }

  /** A reservation is refused for want of drives exactly when all of them are in use. */
  lemma ExhaustedIffAllUsed(s: State, drives: seq<StubDrive>, id: string, req: Request, calls: ReserveCalls)
    requires Conserved(s, drives)
    ensures AfterReserve(s, id, req, calls).1 == Err("There are no remaining drives to be used") <==>
        |s.used| == |drives|
  {
  }

  /** A reservation that is undone leaves the containers, the mounts and every other drive as they were;
      the drive itself goes to the end of the queue, patched back to its stub. */
  lemma ReserveThenRelease(s: State, drives: seq<StubDrive>, id: string, req: Request)
    requires Conserved(s, drives) && WorldAgrees(s) && AfterReserve(s, id, req, ReserveCalls(true, true, true)).1.Ok?
    ensures var s1 := AfterReserve(s, id, req, ReserveCalls(true, true, true)).0;
            var (s2, r) := AfterRelease(s1, id, ReleaseCalls(true, true));
            && r.Ok?
            && s2.used == s.used
            && s2.world.mounts == s.world.mounts
            && |s2.free| == |s.free|
            && s2.free[..|s2.free| - 1] == s.free[1..] && Same(s2.free[|s2.free| - 1], s.free[0])
            && s2.world.backing == s.world.backing[s.free[0].driveID := StubFile(PathBase(s.free[0].stubPath))]
  {
    FreeIsUnmounted(s);
    hide Conserved, WorldAgrees, PathBase, OptionsFor;
    var s1 := AfterReserve(s, id, req, ReserveCalls(true, true, true)).0;
    var d := s1.used[id];
    assert Same(d, s.free[0]);
    UndoReserve(s, s1, id, d);
  }

  lemma UndoReserve(s: State, s1: State, id: string, d: StubDrive)
    requires |s.free| > 0 && id !in s.used && d.driveID !in s.world.mounts
    requires s1.free == s.free[1..] && s1.used == s.used[id := d]
    requires s1.world.mounts == s.world.mounts[d.driveID := MountOf(d)]
    requires s1.world.backing == s.world.backing[d.driveID := HostFile(d.driveMount.hostPath)]
    ensures AfterRelease(s1, id, ReleaseCalls(true, true)) ==
              (State(s.free[1..] + [d], s.used,
                     World(s.world.backing[d.driveID := StubFile(PathBase(d.stubPath))], s.world.mounts)), Ok(()))
  {
    hide PathBase;
    assert s.used[id := d] - {id} == s.used;
    assert s1.world.mounts - {d.driveID} == s.world.mounts;
    var stub := StubFile(PathBase(d.stubPath));
    assert s1.world.backing[d.driveID := stub] == s.world.backing[d.driveID := stub];
  }

  /** No drive in the free queue is mounted. */
  lemma FreeIsUnmounted(s: State)
    requires Apart(s.free, s.used) && WorldAgrees(s)
    ensures forall i :: 0 <= i < |s.free| ==> s.free[i].driveID !in s.world.mounts
  {
  }
}
