/** The on-disk form of a stub drive (internal/common.go) and its sizing (newStubDrive in
    runtime/drive_handler.go). IDs are Go strings, that is byte sequences. */
module StubFormat {
  import opened Outcomes
  import opened Rfc4648

  type Bytes = seq<Byte>

  const MAGIC_STUB_BYTES: Bytes := [214, 244, 216, 245, 215, 177, 177, 177]

  const SECTOR_SIZE := 512

  /** The code point `c` as the verb %c prints it: in UTF-8 (section 3 of RFC 3629), which takes two
      bytes from 128 on. */
  function PrintChar(c: Byte): Bytes {
    if c < 128 then [c] else [0xC0 + c / 64, 0x80 + c % 64]
  }

  function GenerateStubContent(id: Bytes): Result<Bytes> {
    if |id| > 0xFF then Err("length of drive id is too long")
    else Ok(MAGIC_STUB_BYTES + PrintChar(|id|) + id)
  }

  function Zeros(n: nat): Bytes {
    seq(n, _ => 0)
  }

  /** The size newStubDrive truncates the file to. */
  function DriveSize(fileSize: nat): nat {
    var driveSize := SECTOR_SIZE * (fileSize / SECTOR_SIZE);
    if fileSize % SECTOR_SIZE != 0 then driveSize + SECTOR_SIZE else driveSize
  }

  /** It is the least number of whole sectors that holds the content. */
  lemma DriveSizeIsLeast(fileSize: nat, n: nat)
    ensures DriveSize(fileSize) % SECTOR_SIZE == 0 && fileSize <= DriveSize(fileSize)
    ensures fileSize <= n && n % SECTOR_SIZE == 0 ==> DriveSize(fileSize) <= n
  {
  }

  /** The file of a stub drive: its content, filled up with zeros to whole sectors. */
  function DriveImage(content: Bytes): Bytes {
    content + Zeros(DriveSize(|content|) - |content|)
  }

  // ----- reading -----

  function Min(a: nat, b: nat): nat {
    if a <= b then a else b
  }

  /** An open file: what it holds and how far it was read. */
  class File {
    const content: Bytes
    var pos: nat

    ghost predicate Valid()
      reads this
    {
      pos <= |content|
    }

    ghost function Rest(): Bytes
      reads this
      requires Valid()
    {
      content[pos..]
    }

    constructor (content: Bytes)
      ensures this.content == content && pos == 0 && Valid()
    {
      this.content := content;
      pos := 0;
    }

    /** io.LimitReader(f, limit).Read(buf): end of file when the limit or the file is used up. */
    method ReadLimited(buf: array<Byte>, limit: nat) returns (n: nat, eof: bool)
      requires Valid()
      modifies this`pos, buf
      ensures Valid()
      ensures var wanted := Min(buf.Length, limit);
              && eof == (limit == 0 || (wanted > 0 && old(Rest()) == []))
              && n == (if eof then 0 else Min(wanted, |old(Rest())|))
      ensures pos == old(pos) + n
      ensures buf[..n] == old(Rest())[..n] && buf[n..] == old(buf[n..])
    {
      if limit == 0 {
        return 0, true;
      }
      var wanted := Min(buf.Length, limit);
      if wanted == 0 {
        return 0, false;
      }
      n := Min(wanted, |content| - pos);
      if n == 0 {
        return 0, true;
      }
      forall i | 0 <= i < n {
        buf[i] := content[pos + i];
      }
      pos := pos + n;
      eof := false;
    }
  }

  /** The file begins with the magic bytes. */
  predicate HasMagic(content: Bytes) {
    |MAGIC_STUB_BYTES| <= |content| && content[..|MAGIC_STUB_BYTES|] == MAGIC_STUB_BYTES
  }

  /** Only files that begin with these eight bytes have it. */
  lemma HasMagicIff(content: Bytes)
    ensures HasMagic(content) <==>
              && |content| >= 8 && content[0] == 214 && content[1] == 244 && content[2] == 216 && content[3] == 245
              && content[4] == 215 && content[5] == 177 && content[6] == 177 && content[7] == 177
  {
    if |content| >= 8 {
      var head := content[..8];
      assert forall i :: 0 <= i < 8 ==> head[i] == content[i];
      assert head == [head[0], head[1], head[2], head[3], head[4], head[5], head[6], head[7]];
    }
  }

  method IsStubDrive(f: File) returns (isStub: bool)
    requires f.Valid()
    modifies f`pos
    ensures isStub == HasMagic(old(f.Rest()))
  {
    var buf := new Byte[|MAGIC_STUB_BYTES|];
    var n, eof := f.ReadLimited(buf, |MAGIC_STUB_BYTES|);
    if eof {
      return false;
    }
    if n != |MAGIC_STUB_BYTES| {
      return false;
    }
    isStub := buf[..n] == MAGIC_STUB_BYTES;
  }

  /** What ParseStubContent makes of a file: it skips the magic bytes unread, takes a length byte, and then
      that many bytes; a file that ends early leaves zeros, one that ends at a field is an error. */
  function ParsedId(content: Bytes): Result<Bytes> {
    if content == [] then Err("EOF")
    else
      var afterMagic := content[Min(|MAGIC_STUB_BYTES|, |content|)..];
      if afterMagic == [] then Err("EOF")
      else
        var size, body := afterMagic[0], afterMagic[1..];
        if size == 0 || body == [] then Err("EOF")
        else if size <= |body| then Ok(body[..size])
        else Ok(body + Zeros(size - |body|))
  }

  /** Byte by byte, for any file: there is an ID exactly if the file goes on after the byte at 8 and that byte is not
      zero. It is the length of the ID, which is made of the bytes from 9 on, and zeros past the end of the file. */
  lemma ParsedIdIs(content: Bytes)
    ensures var r := ParsedId(content);
            && (r.Ok? <==> |content| > 9 && content[8] != 0)
            && (r.Ok? ==> |r.value| == content[8]
                          && forall i :: 0 <= i < |r.value| ==>
                               r.value[i] == if 9 + i < |content| then content[9 + i] else 0)
  {
  }

  method ParseStubContent(f: File) returns (id: Result<Bytes>)
    requires f.Valid()
    modifies f`pos
    ensures id == ParsedId(old(f.Rest()))
  {
    ghost var content := f.Rest();
    var magicBytes := new Byte[|MAGIC_STUB_BYTES|];
    var n, eof := f.ReadLimited(magicBytes, |MAGIC_STUB_BYTES|);
    if eof {
      return Err("EOF");
    }
    ghost var afterMagic := content[Min(|MAGIC_STUB_BYTES|, |content|)..];
    assert f.Rest() == afterMagic;
    var sizeByte := new Byte[1];
    n, eof := f.ReadLimited(sizeByte, 1);
    if eof {
      return Err("EOF");
    }
    var size := sizeByte[0];
    ghost var body := afterMagic[1..];
    assert size == sizeByte[..n][0] == afterMagic[0];
    assert f.Rest() == body;
    var idBytes := new Byte[size](_ => 0);
    assert idBytes[..] == Zeros(size);
    n, eof := f.ReadLimited(idBytes, size);
    if eof {
      return Err("EOF");
    }
    assert idBytes[..] == idBytes[..n] + idBytes[n..];
    assert idBytes[n..] == Zeros(size)[n..] == Zeros(size - n);
    assert idBytes[..n] == body[..n];
    assert n == Min(size, |body|);
    assert size <= |body| ==> idBytes[..] == body[..size];
    assert size > |body| ==> idBytes[..] == body + Zeros(size - |body|);
    return Ok(idBytes[..]);
  }

  // ----- the round trip -----

  /** What a caller can check of an ID: it has 1 to 127 bytes, or it is the one longer ID that survives,
      195 times the byte 0x83. */
  ghost predicate SurvivesRoundTrip(id: Bytes) {
    1 <= |id| <= 127 || (|id| == 195 && forall i :: 0 <= i < |id| ==> id[i] == 0x83)
  }

  lemma ImagePrefix(content: Bytes, k: nat)
    requires k <= |content|
    ensures DriveImage(content)[..k] == content[..k]
    ensures DriveImage(content)[k..] == content[k..] + Zeros(DriveSize(|content|) - |content|)
  {
  }

  lemma ParseShort(id: Bytes)
    requires |id| <= 127
    ensures ParsedId(DriveImage(GenerateStubContent(id).value)) == if id == [] then Err("EOF") else Ok(id)
  {
    var content := GenerateStubContent(id).value;
    var image := DriveImage(content);
    assert content[8..] == [|id|] + id;
    ImagePrefix(content, 8);
    var body := image[8..][1..];
    assert body[..|id|] == id;
  }

  /** From 128 bytes on the reader takes the first byte of the two-byte length for the length. */
  lemma ParseLong(id: Bytes)
    requires 128 <= |id| <= 255
    ensures var size := 0xC0 + |id| / 64;
            var body := [0x80 + |id| % 64] + id + Zeros(255);
            ParsedId(DriveImage(GenerateStubContent(id).value)) == Ok(body[..size])
  {
    var content := GenerateStubContent(id).value;
    var image := DriveImage(content);
    var size, low := 0xC0 + |id| / 64, 0x80 + |id| % 64;
    assert content[8..] == [size, low] + id;
    ImagePrefix(content, 8);
    var body := image[8..][1..];
    assert image[8] == size;
    assert |image| == 512;
    assert body == [low] + id + Zeros(512 - |content|);
    assert body[..size] == ([low] + id + Zeros(255))[..size];
  }

  lemma {:induction false} ShiftedIsConstant(id: Bytes, c: Byte, n: nat)
    requires n < |id| && id == ([c] + id)[..|id|]
    ensures id[n] == c
  {
    if n > 0 {
      ShiftedIsConstant(id, c, n - 1);
      assert id[n] == ([c] + id)[n];
    }
  }

  /** Which IDs the guest reads back as the host wrote them: exactly those of 1 to 127 bytes, and one more. */
  lemma StubRoundTrip(id: Bytes)
    requires |id| <= 0xFF
    ensures var image := DriveImage(GenerateStubContent(id).value);
            && |image| % SECTOR_SIZE == 0
            && HasMagic(image)
            && (ParsedId(image) == Ok(id) <==> SurvivesRoundTrip(id))
  {
    var content := GenerateStubContent(id).value;
    DriveSizeIsLeast(|content|, 0);
    ImagePrefix(content, 8);
    assert content[..8] == MAGIC_STUB_BYTES;
    if |id| <= 127 {
      ParseShort(id);
    } else {
      ParseLong(id);
      var size, low := 0xC0 + |id| / 64, 0x80 + |id| % 64;
      var parsed := ([low] + id + Zeros(255))[..size];
      assert |parsed| == size;
      if |id| == size {
        assert |id| == 195 && low == 0x83;
        assert parsed == ([low] + id)[..195];
        if parsed == id {
          forall i | 0 <= i < |id| ensures id[i] == 0x83 {
            ShiftedIsConstant(id, 0x83, i);
          }
        }
        if SurvivesRoundTrip(id) {
          assert parsed == id;
        }
      }
    }
  }
}
