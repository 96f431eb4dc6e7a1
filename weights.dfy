/** `tennis.Weights` of src/tennis.js: a position over a byte buffer that
    moves first and checks the end of the buffer afterwards. */
module WeightsFile {
  import opened Results
  import opened Bytes
  import opened Text
  import opened Cursor

  /** The error `seek` throws when the position passes the end by
      `missing` bytes. */
  function EndOfFile(missing: int): Error
  {
    LoaderError("Expected " + IntText(missing) + EOF_TAIL)
  }

  const EOF_TAIL := " more bytes. The file might be corrupted. Unexpected end of file."

  /** `seek(n)` from `pos`: the end is checked after moving. */
  function SeekFrom(buffer: seq<Byte>, pos: int, n: int): (r: Result<()>)
    ensures r.Ok? <==> pos + n <= |buffer|
    ensures r.Fail? ==> r.error == EndOfFile(pos + n - |buffer|)
  {
    if pos + n > |buffer| then Fail(EndOfFile(pos + n - |buffer|)) else Ok(())
  }

  /** `int32()` at `pos`: past the end is an end-of-file error, and a
      negative position makes the DataView read throw. */
  function WordAt(buffer: seq<Byte>, pos: int): (r: Result<int>)
    ensures r.Ok? <==> 0 <= pos && pos + 4 <= |buffer|
    ensures pos + 4 > |buffer| ==> r == Fail(EndOfFile(pos + 4 - |buffer|))
    ensures pos < 0 && pos + 4 <= |buffer| ==> r == Fail(RangeError(OUT_OF_BOUNDS))
    ensures r.Ok? ==> -0x8000_0000 <= r.value < 0x8000_0000 &&
                      EncodeLe(Unsigned(r.value, 4), 4) == buffer[pos..pos + 4]
  {
    var _ :- SeekFrom(buffer, pos, 4);
    var got :- IntAt(buffer, pos, 4);
    Ok(got.value)
  }

  /** `int64()` at `pos`: two words, the first one the low half, both
      unsigned. */
  function LongAt(buffer: seq<Byte>, pos: int): (r: Result<int>)
    ensures r.Ok? ==> 0 <= pos && pos + 8 <= |buffer| && r.value >= 0
  {
    var first :- WordAt(buffer, pos);
    var second :- WordAt(buffer, pos + 4);
    Ok(Unsigned(first, 4) + Pow256(4) * Unsigned(second, 4))
  }

  /** `int64()` is the unsigned little-endian 8-byte number at `pos`, and
      fails exactly when that does not fit in the buffer. */
  lemma LongAtIsLe(buffer: seq<Byte>, pos: int)
    ensures LongAt(buffer, pos).Ok? <==> 0 <= pos && pos + 8 <= |buffer|
    ensures LongAt(buffer, pos).Ok? ==> LongAt(buffer, pos).value == Le(buffer[pos..pos + 8])
  {
    Int64AtIsLe(buffer, pos);
  }

  /** `bytes(length)` at `pos`. */
  function BytesAt(buffer: seq<Byte>, pos: int, length: int): (r: Result<seq<Byte>>)
    ensures r.Ok? <==> pos + length <= |buffer|
    ensures r.Ok? && 0 <= pos && 0 <= length ==> r.value == buffer[pos..pos + length]
    ensures r.Fail? ==> r.error == EndOfFile(pos + length - |buffer|)
  {
    var _ :- SeekFrom(buffer, pos, length);
    Ok(Slice(buffer, pos, pos + length))
  }

  /** The header the constructor reads. */
  datatype Header = Header(major: int, minor: int, revision: int, seen: int, position: int)

  /** Whether `seen` is stored in 64 bits. */
  predicate LongSeen(major: int, minor: int)
  {
    major * 10 + minor >= 2
  }

  const VERSION_HEAD := "Unsupported transpose weights file version '"

  function VersionError(major: int, minor: int, revision: int): Error
  {
    LoaderError(VERSION_HEAD +
                Join([IntText(major), IntText(minor), IntText(revision)], ".") + "'.")
  }

  datatype Version = Version(major: int, minor: int, revision: int)

  /** The three version words at the start of the buffer. */
  function VersionAt(buffer: seq<Byte>): (r: Result<Version>)
    ensures r.Ok? <==> |buffer| >= 12
    ensures r.Ok? ==> -0x8000_0000 <= r.value.major < 0x8000_0000 &&
                      -0x8000_0000 <= r.value.minor < 0x8000_0000 && -0x8000_0000 <= r.value.revision < 0x8000_0000
  {
    var major :- WordAt(buffer, 0);
    var minor :- WordAt(buffer, 4);
    var revision :- WordAt(buffer, 8);
    Ok(Version(major, minor, revision))
  }

  /** `seen`, after the version words, in 64 or 32 bits. */
  function SeenAt(buffer: seq<Byte>, v: Version): Result<int>
  {
    if LongSeen(v.major, v.minor) then LongAt(buffer, 12) else WordAt(buffer, 12)
  }

  function SeenEnd(v: Version): int
  {
    if LongSeen(v.major, v.minor) then 20 else 16
  }

  /** The `Weights` constructor: major, minor and revision, then `seen`;
      a version component over 1000 marks a transposed file, which is
      rejected after `seen` is read. */
  function HeaderAt(buffer: seq<Byte>): (r: Result<Header>)
    ensures r.Ok? ==> r.value.major <= 1000 && r.value.minor <= 1000
    ensures r.Ok? ==> r.value.position == (if LongSeen(r.value.major, r.value.minor) then 20 else 16)
    ensures r.Ok? ==> r.value.position <= |buffer|
  {
    var v :- VersionAt(buffer);
    var seen :- SeenAt(buffer, v);
    LongAtIsLe(buffer, 12);
    if v.major > 1000 || v.minor > 1000 then Fail(VersionError(v.major, v.minor, v.revision))
    else Ok(Header(v.major, v.minor, v.revision, seen, SeenEnd(v)))
  }

  /** A buffer ending inside header word `k` (major, minor, revision, then
      the first word of `seen`) fails at that word, naming how many bytes it
      lacks. */
  lemma HeaderTooShort(buffer: seq<Byte>, k: nat)
    requires k < 4 && 4 * k <= |buffer| < 4 * k + 4
    ensures HeaderAt(buffer) == Fail(EndOfFile(4 * k + 4 - |buffer|))
  {
    var missing := 4 * k + 4 - |buffer|;
    if k == 0 {
      MajorTooShort(buffer, missing);
    } else if k == 1 {
      MinorTooShort(buffer, missing);
    } else if k == 2 {
      RevisionTooShort(buffer, missing);
    } else {
      SeenTooShort(buffer, missing);
    }
  }

  /** A buffer ending inside the major word, `missing` bytes short of it. */
  lemma MajorTooShort(buffer: seq<Byte>, missing: int)
    requires |buffer| < 4 && missing == 4 - |buffer|
    ensures HeaderAt(buffer) == Fail(EndOfFile(missing))
  {
    assert VersionAt(buffer) == Fail(EndOfFile(missing));
  }

  /** A buffer ending inside the minor word. */
  lemma MinorTooShort(buffer: seq<Byte>, missing: int)
    requires 4 <= |buffer| < 8 && missing == 8 - |buffer|
    ensures HeaderAt(buffer) == Fail(EndOfFile(missing))
  {
    assert WordAt(buffer, 0).Ok?;
    assert VersionAt(buffer) == Fail(EndOfFile(missing));
  }

  /** A buffer ending inside the revision word. */
  lemma RevisionTooShort(buffer: seq<Byte>, missing: int)
    requires 8 <= |buffer| < 12 && missing == 12 - |buffer|
    ensures HeaderAt(buffer) == Fail(EndOfFile(missing))
  {
    assert WordAt(buffer, 0).Ok? && WordAt(buffer, 4).Ok?;
    assert VersionAt(buffer) == Fail(EndOfFile(missing));
  }

  /** A buffer ending inside the `seen` word, which is at least 4 bytes. */
  lemma SeenTooShort(buffer: seq<Byte>, missing: int)
    requires 12 <= |buffer| < 16 && missing == 16 - |buffer|
    ensures HeaderAt(buffer) == Fail(EndOfFile(missing))
  {
    assert SeenAt(buffer, VersionAt(buffer).value) == Fail(EndOfFile(missing));
  }

  /** With the fixed part present, the header is accepted exactly when no
      version component exceeds 1000 and a 64-bit `seen` fits too; a
      transposed version is reported with its three components. */
  lemma HeaderVersion(buffer: seq<Byte>)
    requires |buffer| >= 16
    ensures var major, minor, revision := WordAt(buffer, 0).value, WordAt(buffer, 4).value, WordAt(buffer, 8).value;
      (HeaderAt(buffer).Ok? <==> major <= 1000 && minor <= 1000 && (!LongSeen(major, minor) || |buffer| >= 20)) &&
      ((major > 1000 || minor > 1000) && (!LongSeen(major, minor) || |buffer| >= 20) ==>
         HeaderAt(buffer) == Fail(VersionError(major, minor, revision))) &&
      (HeaderAt(buffer).Ok? ==>
         HeaderAt(buffer).value.seen == if LongSeen(major, minor) then Le(buffer[12..20]) else WordAt(buffer, 12).value)
  {
    LongAtIsLe(buffer, 12);
  }

  class Weights {
    const buffer: seq<Byte>
    var position: int
    var seen: int

    /** The object before the constructor's reads. */
    constructor Start(buffer: seq<Byte>)
      ensures this.buffer == buffer && position == 0 && seen == 0
    {
      this.buffer := buffer;
      position := 0;
      seen := 0;
    }

    method Seek(n: int) returns (r: Result<()>)
      modifies this
      ensures position == old(position) + n && seen == old(seen)
      ensures r == SeekFrom(buffer, old(position), n)
    {
      position := position + n;
      if position > |buffer| {
        return Fail(EndOfFile(position - |buffer|));
      }
      r := Ok(());
    }

    method Int32() returns (r: Result<int>)
      modifies this
      ensures position == old(position) + 4 && seen == old(seen)
      ensures r == WordAt(buffer, old(position))
    {
      var start := position;
      var moved := Seek(4);
      if moved.Fail? {
        return Fail(moved.error);
      }
      var got := IntAt(buffer, start, 4);
      if got.Fail? {
        return Fail(got.error);
      }
      r := Ok(got.value.value);
    }

    method Int64() returns (r: Result<int>)
      modifies this
      ensures position == old(position) + (if WordAt(buffer, old(position)).Fail? then 4 else 8)
      ensures seen == old(seen)
      ensures r == LongAt(buffer, old(position))
    {
      var first :- Int32();
      var second :- Int32();
      r := Ok(Unsigned(first, 4) + Pow256(4) * Unsigned(second, 4));
    }

    method Bytes(length: int) returns (r: Result<seq<Byte>>)
      modifies this
      ensures position == old(position) + length && seen == old(seen)
      ensures r == BytesAt(buffer, old(position), length)
    {
      var start := position;
      var moved := Seek(length);
      if moved.Fail? {
        return Fail(moved.error);
      }
      r := Ok(Slice(buffer, start, position));
    }

    method Validate() returns (r: Result<()>)
      ensures r.Ok? <==> position == |buffer|
      ensures r.Fail? ==> r.error == LoaderError("Invalid weights size.")
    {
      if position != |buffer| {
        return Fail(LoaderError("Invalid weights size."));
      }
      r := Ok(());
    }

    /** The version words the constructor reads first. */
    method ReadVersion() returns (r: Result<Version>)
      requires position == 0
      modifies this
      ensures seen == old(seen)
      ensures r == VersionAt(buffer)
      ensures r.Ok? ==> position == 12
    {
      var major :- Int32();
      var minor :- Int32();
      var revision :- Int32();
      r := Ok(Version(major, minor, revision));
    }

    /** `seen`, read in 64 bits from version 0.2 on. */
    method ReadSeen(v: Version) returns (r: Result<int>)
      requires position == 12
      modifies this
      ensures r == SeenAt(buffer, v)
      ensures r.Ok? ==> position == SeenEnd(v)
    {
      if v.major * 10 + v.minor >= 2 {
        r := Int64();
      } else {
        r := Int32();
      }
    }

    /** The `Weights` constructor. */
    static method Open(buffer: seq<Byte>) returns (r: Result<Weights>)
      ensures r.Ok? <==> HeaderAt(buffer).Ok?
      ensures r.Ok? ==> (fresh(r.value) && r.value.buffer == buffer &&
                         r.value.position == HeaderAt(buffer).value.position &&
                         r.value.seen == HeaderAt(buffer).value.seen)
      ensures r.Fail? ==> r.error == HeaderAt(buffer).error
    {
      var w := new Weights.Start(buffer);
      var v :- w.ReadVersion();
      var seen :- w.ReadSeen(v);
      w.seen := seen;
      if v.major > 1000 || v.minor > 1000 {
        return Fail(VersionError(v.major, v.minor, v.revision));
      }
      r := Ok(w);
    }
  }

  /** Reading every remaining byte leaves a weights object that
      validates. */
  lemma ReadToEnd(buffer: seq<Byte>, pos: int)
    requires 0 <= pos <= |buffer|
    ensures BytesAt(buffer, pos, |buffer| - pos) == Ok(buffer[pos..])
  {
    assert buffer[pos..pos + (|buffer| - pos)] == buffer[pos..];
  }
}
