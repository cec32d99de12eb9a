/** How the guest finds its stub drives again (agent/drive_handler.go). */
module Discovery {
  import opened Outcomes
  import opened Text
  import opened StubFormat
  import opened DriveIds

  /** A block device as sysfs and the device node show it: its numbers, if they can be read; its content,
      if the node can be opened; and whether it can be opened a second time. */
  datatype Device = Device(name: string, majorMinor: Result<string>, content: Option<Bytes>, reopens: bool)

  datatype Drive = Drive(name: string, driveID: Bytes, majorMinor: string, drivePath: string)

  predicate IsStub(d: Device) {
    d.content.Some? && HasMagic(d.content.value)
  }

  function DriveOf(d: Device, id: Bytes, drivePath: string): Drive
    requires d.majorMinor.Ok?
  {
    Drive(d.name, id, d.majorMinor.value, drivePath)
  }

  /** The drive is device `d` with this ID. */
  ghost predicate Describes(drive: Drive, d: Device, id: Bytes, drivePath: string) {
    && drive.name == d.name && drive.driveID == id && drive.drivePath == drivePath
    && d.majorMinor == Ok(drive.majorMinor)
  }

  type Drives = map<Bytes, Drive>

  /** One round of the loop in discoverDrives. */
  function Visit(drives: Drives, d: Device, drivePath: string): Result<Drives> {
    if d.majorMinor.Err? then Err(d.majorMinor.error)
    else if !IsStub(d) then Ok(drives)
    else if !d.reopens then Err("open failed")
    else match ParsedId(d.content.value)
      case Err(e) => Err(e)
      case Ok(id) => Ok(drives[id := DriveOf(d, id, drivePath)])
  }

  function Discovered(devices: seq<Device>, drivePath: string): Result<Drives> {
    if devices == [] then Ok(map[])
    else match Discovered(devices[..|devices| - 1], drivePath)
      case Err(e) => Err(e)
      case Ok(drives) => Visit(drives, devices[|devices| - 1], drivePath)
  }

  class DriveHandler {
    const drivePath: string
    var drives: Drives

    constructor (drivePath: string)
      ensures this.drivePath == drivePath && drives == map[]
    {
      this.drivePath := drivePath;
      drives := map[];
    }

    /** The drives are replaced as a whole, and only if every device could be dealt with. */
    method DiscoverDrives(devices: seq<Device>) returns (r: Result<()>)
      modifies this`drives
      ensures match Discovered(devices, drivePath)
              case Ok(found) => r == Ok(()) && drives == found
              case Err(_) => r.Err? && drives == old(drives)
    {
      var found: Drives := map[];
      for i := 0 to |devices|
        invariant Discovered(devices[..i], drivePath) == Ok(found)
        invariant drives == old(drives)
      {
        var d := devices[i];
        assert devices[..i + 1][..i] == devices[..i];
        if d.majorMinor.Err? {
          StopsEarly(devices, i + 1, drivePath);
          return Err(d.majorMinor.error);
        }
        var isStub := false;
        if d.content.Some? {
          var f := new File(d.content.value);
          assert f.Rest() == d.content.value;
          isStub := IsStubDrive(f);
        }
        if isStub {
          if !d.reopens {
            StopsEarly(devices, i + 1, drivePath);
            return Err("open failed");
          }
          var f := new File(d.content.value);
          assert f.Rest() == d.content.value;
          var id := ParseStubContent(f);
          if id.Err? {
            StopsEarly(devices, i + 1, drivePath);
            return Err(id.error);
          }
          found := found[id.value := DriveOf(d, id.value, drivePath)];
        }
      }
      assert devices[..|devices|] == devices;
      drives := found;
      return Ok(());
    }
  }

  lemma {:induction false} StopsEarly(devices: seq<Device>, n: nat, drivePath: string)
    requires n <= |devices| && Discovered(devices[..n], drivePath).Err?
    ensures Discovered(devices, drivePath).Err?
    decreases |devices| - n
  {
    if n == |devices| {
      assert devices[..n] == devices;
    } else {
      assert devices[..n + 1][..n] == devices[..n];
      StopsEarly(devices, n + 1, drivePath);
    }
  }

  /** A device that does not stop the discovery. */
  ghost predicate Fine(d: Device) {
    d.majorMinor.Ok?
    && (d.content.Some? && HasMagic(d.content.value) ==> d.reopens && ParsedId(d.content.value).Ok?)
  }

  ghost predicate Carries(d: Device, id: Bytes) {
    d.content.Some? && HasMagic(d.content.value) && ParsedId(d.content.value) == Ok(id)
  }

  /** `i` is the last of the devices that carries `id`. */
  ghost predicate LastCarrier(devices: seq<Device>, i: int, id: Bytes) {
    0 <= i < |devices| && Carries(devices[i], id) && forall j :: i < j < |devices| ==> !Carries(devices[j], id)
  }

  /** Discovery succeeds exactly when no device stops it, and then maps each ID found on a stub to the
      last device that carries it, and nothing else. */
  lemma {:induction false} DiscoveryIsExact(devices: seq<Device>, drivePath: string)
    ensures var r := Discovered(devices, drivePath);
            && (r.Ok? <==> forall i :: 0 <= i < |devices| ==> Fine(devices[i]))
            && (r.Ok? ==> forall id :: id in r.value <==> exists i :: LastCarrier(devices, i, id))
            && (r.Ok? ==> forall id, i :: LastCarrier(devices, i, id) ==>
                  id in r.value && Describes(r.value[id], devices[i], id, drivePath))
    decreases |devices|
  {
    if devices != [] {
      var n := |devices| - 1;
      var init, d := devices[..n], devices[n];
      assert devices == init + [d];
      DiscoveryIsExact(init, drivePath);
      var before, r := Discovered(init, drivePath), Discovered(devices, drivePath);
      if r.Ok? {
        forall id, i | LastCarrier(devices, i, id)
          ensures id in r.value && Describes(r.value[id], devices[i], id, drivePath)
        {
          if i < n {
            assert LastCarrier(init, i, id);
          }
        }
        forall id | id in r.value ensures exists i :: LastCarrier(devices, i, id) {
          if Carries(d, id) {
            assert LastCarrier(devices, n, id);
          } else {
            assert id in before.value;
            var i :| LastCarrier(init, i, id);
            assert LastCarrier(devices, i, id);
          }
        }
      }
    }
  }

  /** A device that cannot be opened or does not begin with the magic bytes. */
  ghost predicate IsOther(d: Device) {
    d.content.None? || !HasMagic(d.content.value)
  }

  /** A device made from a stub with this ID. */
  ghost predicate MadeFor(d: Device, id: Bytes) {
    |id| <= 0xFF && d.content == Some(DriveImage(GenerateStubContent(id).value)) && d.reopens
  }

  /** For any mix of devices that are no stubs and stubs made for distinct IDs of 1 to 127 bytes, discovery
      succeeds and its map takes exactly those IDs to exactly those devices. */
  lemma StubsAreFound(devices: seq<Device>, ids: seq<Option<Bytes>>, drivePath: string)
    requires |ids| == |devices|
    requires forall i :: 0 <= i < |devices| ==> devices[i].majorMinor.Ok?
    requires forall i :: 0 <= i < |ids| && ids[i].None? ==> IsOther(devices[i])
    requires forall i :: 0 <= i < |ids| && ids[i].Some? ==>
        1 <= |ids[i].value| <= 127 && MadeFor(devices[i], ids[i].value)
    requires forall i, j :: 0 <= i < j < |ids| && ids[i].Some? ==> ids[i] != ids[j]
    ensures var r := Discovered(devices, drivePath);
            && r.Ok?
            && (forall i :: 0 <= i < |ids| && ids[i].Some? ==>
                  ids[i].value in r.value && Describes(r.value[ids[i].value], devices[i], ids[i].value, drivePath))
            && (forall id :: id in r.value ==> Some(id) in ids)
  {
    DiscoveryIsExact(devices, drivePath);
    hide DriveImage, GenerateStubContent, ParsedId, HasMagic;
    forall i | 0 <= i < |devices|
      ensures Fine(devices[i]) && forall id :: Carries(devices[i], id) <==> ids[i] == Some(id)
    {
      if ids[i].Some? {
        StubRoundTrip(ids[i].value);
      }
    }
    var r := Discovered(devices, drivePath);
    forall i | 0 <= i < |ids| && ids[i].Some?
      ensures ids[i].value in r.value && Describes(r.value[ids[i].value], devices[i], ids[i].value, drivePath)
    {
      assert LastCarrier(devices, i, ids[i].value);
    }
    forall id | id in r.value ensures Some(id) in ids {
      var i :| LastCarrier(devices, i, id);
      assert Carries(devices[i], id);
    }
  }

  /** From host to guest: whatever numbers of stubs the host creates and in whatever order the guest sees them among its
      other devices, each drive is found under its own ID, and nothing else is found. `slots[i]` is the number of the
      stub that device `i` was made for, if any. */
  lemma HostDrivesAreFound(root: Bytes, containers: nat, mounts: nat,
                           devices: seq<Device>, slots: seq<Option<nat>>, drivePath: string)
    requires containers <= MAX_INT && mounts <= MAX_INT && |slots| == |devices|
    requires forall i :: 0 <= i < |devices| ==> devices[i].majorMinor.Ok?
    requires forall i :: 0 <= i < |slots| && slots[i].None? ==> IsOther(devices[i])
    requires forall i :: 0 <= i < |slots| && slots[i].Some? ==>
               slots[i].value < containers + mounts
                   && MadeFor(devices[i], DriveIDBytes(root, StubAt(containers, slots[i].value)))
    requires forall i, j :: 0 <= i < j < |slots| && slots[i].Some? ==> slots[i] != slots[j]
    ensures Discovered(devices, drivePath).Ok?
    ensures forall i :: 0 <= i < |slots| && slots[i].Some? ==>
              var id := DriveIDBytes(root, StubAt(containers, slots[i].value));
              id in Discovered(devices, drivePath).value
              && Describes(Discovered(devices, drivePath).value[id], devices[i], id, drivePath)
    ensures forall id :: id in Discovered(devices, drivePath).value ==>
              exists i :: 0 <= i < |slots| && slots[i].Some?
                  && id == DriveIDBytes(root, StubAt(containers, slots[i].value))
  {
    hide DriveID, MadeFor, Usable, DriveIDBytes;
    AllDriveIDsUsable(root, containers, mounts);
    var names := AllDriveIDs(root, containers, mounts);
    var ids := seq(|slots|, i requires 0 <= i < |slots| =>
      if slots[i].Some? then Some(DriveIDBytes(root, StubAt(containers, slots[i].value))) else None);
    forall i | 0 <= i < |ids| && ids[i].Some? ensures 1 <= |ids[i].value| <= 127 {
      assert Usable(names[slots[i].value]);
      UsableLength(names[slots[i].value]);
    }
    forall i, j | 0 <= i < j < |ids| && ids[i].Some? ensures ids[i] != ids[j] {
      if slots[j].Some? {
        assert names[slots[i].value] != names[slots[j].value];
      }
    }
    StubsAreFound(devices, ids, drivePath);
    forall i | 0 <= i < |slots| && slots[i].Some?
      ensures var id := DriveIDBytes(root, StubAt(containers, slots[i].value));
              id in Discovered(devices, drivePath).value
              && Describes(Discovered(devices, drivePath).value[id], devices[i], id, drivePath)
    {
      assert ids[i].Some?;
    }
    forall id | id in Discovered(devices, drivePath).value
      ensures exists i ::
                0 <= i < |slots| && slots[i].Some? && id == DriveIDBytes(root, StubAt(containers, slots[i].value))
    {
      assert Some(id) in ids;
      var i :| 0 <= i < |ids| && ids[i] == Some(id);
      assert slots[i].Some?;
    }
  }

  lemma UsableLength(id: string)
    requires Usable(id)
    ensures 1 <= |id| <= 127
  {
  }
}
