/** The IDs the runtime gives its stub drives (runtime/drive_handler.go): the base32 of the stub file's name. */
module DriveIds {
  import opened Text
  import opened Rfc4648
  import opened StubFormat

  const SLASH: Byte := 47

  function StripSlashes(path: Bytes): Bytes {
    if path != [] && path[|path| - 1] == SLASH then StripSlashes(path[..|path| - 1]) else path
  }

  function LastElement(path: Bytes): Bytes {
    if path == [] || path[|path| - 1] == SLASH then []
    else LastElement(path[..|path| - 1]) + [path[|path| - 1]]
  }

  /** filepath.Base. */
  function PathBase(path: Bytes): Bytes {
    if path == [] then ['.' as int]
    else
      var stripped := StripSlashes(path);
      if stripped == [] then [SLASH] else LastElement(stripped)
  }

  function StubPathToDriveID(stubPath: Bytes): string {
    Base32(PathBase(stubPath))
  }

  /** The stub drives of one VM: a pool for container root filesystems and one per drive mount. */
  datatype Stub = ContainerStub(i: nat) | DriveMountStub(i: nat)

  function StubPrefix(stub: Stub): string {
    if stub.ContainerStub? then "ctrstub" else "drivemntstub"
  }

  function StubFileName(stub: Stub): (name: Bytes)
    ensures name != [] && SLASH !in name
    ensures |name| == |StubPrefix(stub)| + |Decimal(stub.i)|
  {
    ToBytes(StubPrefix(stub) + Decimal(stub.i))
  }

  /** The stub's file in the jail's root directory. */
  function StubPath(root: Bytes, stub: Stub): Bytes {
    root + [SLASH] + StubFileName(stub)
  }

  function DriveID(root: Bytes, stub: Stub): string {
    StubPathToDriveID(StubPath(root, stub))
  }

  lemma {:induction false} LastElementOfJoin(root: Bytes, name: Bytes)
    requires SLASH !in name
    ensures LastElement(root + [SLASH] + name) == name
    decreases |name|
  {
    var path := root + [SLASH] + name;
    if name == [] {
      assert path[|path| - 1] == SLASH;
    } else {
      assert path[..|path| - 1] == root + [SLASH] + name[..|name| - 1];
      assert path[|path| - 1] == name[|name| - 1];
      LastElementOfJoin(root, name[..|name| - 1]);
    }
  }

  lemma DriveIDEncodesName(root: Bytes, stub: Stub)
    ensures DriveID(root, stub) == Base32(StubFileName(stub))
  {
    var path := StubPath(root, stub);
    assert path[|path| - 1] == StubFileName(stub)[|StubFileName(stub)| - 1];
    LastElementOfJoin(root, StubFileName(stub));
  }

  lemma StubFileNameInjective(a: Stub, b: Stub)
    requires StubFileName(a) == StubFileName(b)
    ensures a == b
  {
    var sa, sb := StubPrefix(a) + Decimal(a.i), StubPrefix(b) + Decimal(b.i);
    ToBytesInjective(sa, sb);
    assert sa[0] == StubPrefix(a)[0] && sb[0] == StubPrefix(b)[0];
    assert StubPrefix(a) == StubPrefix(b);
    assert sa[|StubPrefix(a)|..] == Decimal(a.i) && sb[|StubPrefix(b)|..] == Decimal(b.i);
    DecimalInjective(a.i, b.i);
  }

  /** Two stubs have the same drive ID only if they are the same stub, wherever the files are. */
  lemma DriveIDInjective(root: Bytes, a: Stub, root': Bytes, b: Stub)
    requires DriveID(root, a) == DriveID(root', b)
    ensures a == b
  {
    DriveIDEncodesName(root, a);
    DriveIDEncodesName(root', b);
    Base32Injective(StubFileName(a), StubFileName(b));
    StubFileNameInjective(a, b);
  }

  /** The number of stubs is a Go int. */
  const MAX_INT := 0x7FFF_FFFF_FFFF_FFFF

  /** Every drive ID is made of letters and digits and has 13 to 50 of them: well inside the 1 to 127
      bytes the stub format carries. */
  lemma DriveIDShape(root: Bytes, stub: Stub)
    requires stub.i < MAX_INT
    ensures var id := DriveID(root, stub);
            && 13 <= |id| <= 50
            && forall k :: 0 <= k < |id| ==> IsAlphanumeric(id[k]) && IsSymbol32(id[k])
  {
    assert Pow10(19) == 10000000000000000000 by {
      assert Pow10(5) == 100000;
      assert Pow10(10) == 10000000000;
      assert Pow10(15) == 1000000000000000;
    }
    DecimalLength(stub.i, 19);
    DriveIDEncodesName(root, stub);
  }

  /** The k-th stub of a VM, containers first. */
  function StubAt(containers: nat, k: nat): Stub {
    if k < containers then ContainerStub(k) else DriveMountStub(k - containers)
  }

  /** The IDs of all stubs of a VM in the order they are created. */
  function AllDriveIDs(root: Bytes, containers: nat, mounts: nat): (ids: seq<string>)
    ensures |ids| == containers + mounts
    ensures forall k :: 0 <= k < |ids| ==> ids[k] == DriveID(root, StubAt(containers, k))
  {
    seq(containers + mounts, k requires 0 <= k => DriveID(root, StubAt(containers, k)))
  }

  /** Letters and digits, few enough for the stub format. */
  ghost predicate Usable(id: string) {
    1 <= |id| < 128 && forall k :: 0 <= k < |id| ==> IsAlphanumeric(id[k])
  }

  /** For any numbers of container stubs and drive mounts the IDs are pairwise distinct, alphanumeric and
      shorter than 128 bytes. */
  lemma AllDriveIDsUsable(root: Bytes, containers: nat, mounts: nat)
    requires containers <= MAX_INT && mounts <= MAX_INT
    ensures var ids := AllDriveIDs(root, containers, mounts);
            Distinct(ids) && forall k :: 0 <= k < |ids| ==> Usable(ids[k])
  {
    hide DriveID;
    var ids := AllDriveIDs(root, containers, mounts);
    forall k | 0 <= k < |ids| ensures Usable(ids[k]) {
      DriveIDShape(root, StubAt(containers, k));
    }
    forall i, j | 0 <= i < j < |ids| ensures ids[i] != ids[j] {
      if ids[i] == ids[j] {
        DriveIDInjective(root, StubAt(containers, i), root, StubAt(containers, j));
      }
    }
  }

  /** A drive ID as the bytes written into its stub. */
  function DriveIDBytes(root: Bytes, stub: Stub): (b: Bytes)
    ensures |b| == |DriveID(root, stub)|
    ensures forall k :: 0 <= k < |b| ==> b[k] == DriveID(root, stub)[k] as int
  {
    var id := DriveID(root, stub);
    assert forall k :: 0 <= k < |id| ==> IsAlphanumeric(id[k]) && id[k] as int < 128;
    ToBytes(id)
  }
}
