/** What the `tennis.Stream` readers of src/tennis-utils.js compute, as
    functions of the byte buffer and the offset a read starts at. Every
    reader yields the value read and the offset just after it, or the
    exception it throws. */
module Cursor {
  import opened Results
  import opened Bytes

  /** A value read and the offset just after it. */
  datatype Got<+T> = Got(value: T, next: int)

  lemma Pow256Values()
    ensures Pow256(1) == 0x100 && Pow256(2) == 0x1_0000
    ensures Pow256(4) == 0x1_0000_0000 && Pow256(8) == 0x1_0000_0000_0000_0000
  {
    assert Pow256(2) == 256 * Pow256(1);
    assert Pow256(4) == 256 * (256 * Pow256(2));
    assert Pow256(8) == 256 * (256 * (256 * (256 * Pow256(4))));
  }

  /** `DataView.prototype.getUint{8w}(off, true)`: a RangeError unless the
      `w` bytes at `off` lie inside the buffer. */
  function Fixed(data: seq<Byte>, off: int, w: nat): (r: Result<Got<nat>>)
    ensures r.Ok? <==> 0 <= off && off + w <= |data|
    ensures r.Ok? ==> r.value.next == off + w && r.value.value < Pow256(w)
    ensures r.Ok? ==> EncodeLe(r.value.value, w) == data[off..off + w]
    ensures r.Fail? ==> r.error == RangeError(OUT_OF_BOUNDS)
  {
    if off < 0 || off + w > |data| then Fail(RangeError(OUT_OF_BOUNDS))
    else
      EncodeLeOfLe(data[off..off + w]);
      Ok(Got(Le(data[off..off + w]), off + w))
  }

  /** `DataView.prototype.getInt{8w}(off, true)`. */
  function IntAt(data: seq<Byte>, off: int, w: nat): (r: Result<Got<int>>)
    ensures r.Ok? <==> 0 <= off && off + w <= |data|
    ensures r.Ok? ==> r.value.next == off + w
    ensures r.Fail? ==> r.error == RangeError(OUT_OF_BOUNDS)
  {
    var u :- Fixed(data, off, w);
    Ok(Got(Signed(u.value, w), u.next))
  }

  /** The signed read lies in the `w`-byte two's-complement range, and the
      bytes read are its little-endian encoding. */
  lemma IntAtIsLe(data: seq<Byte>, off: int, w: nat)
    ensures var r := IntAt(data, off, w);
      r.Ok? ==> 0 <= 2 * r.value.value + Pow256(w) && 2 * r.value.value < Pow256(w) &&
                EncodeLe(Unsigned(r.value.value, w), w) == data[off..off + w]
  {
  }

  /** `Stream.int64`: two int32 reads; `new long.Long(a, b, true)` takes the
      first word read as the low half and the second as the high half, both
      unsigned. */
  function Int64At(data: seq<Byte>, off: int): (r: Result<Got<nat>>)
    ensures r.Ok? <==> 0 <= off && off + 8 <= |data|
    ensures r.Ok? ==> r.value.next == off + 8
    ensures r.Fail? ==> r.error == RangeError(OUT_OF_BOUNDS)
  {
    var first :- IntAt(data, off, 4);
    var second :- IntAt(data, first.next, 4);
    Ok(Got(Unsigned(first.value, 4) + Pow256(4) * Unsigned(second.value, 4), second.next))
  }

  /** The two-word read is exactly the unsigned little-endian 8-byte read. */
  lemma Int64AtIsLe(data: seq<Byte>, off: int)
    ensures Int64At(data, off) == Fixed(data, off, 8)
  {
    if 0 <= off && off + 8 <= |data| {
      var a, b := data[off..off + 4], data[off + 4..off + 8];
      assert a + b == data[off..off + 8];
      LeAppend(a, b);
      EncodeLeOfLe(a);
      EncodeLeOfLe(b);
    }
  }

  /** `Stream.buffer(n)`: no bounds check; the copy is clamped to the buffer
      and the offset moves by `n` regardless. */
  function BufferAt(data: seq<Byte>, off: int, n: int): (r: Got<seq<Byte>>)
    ensures 0 <= off && 0 <= n && off + n <= |data| ==> r.value == data[off..off + n]
    ensures |r.value| <= |data| && r.next == off + n
  {
    Got(Slice(data, off, off + n), off + n)
  }

  /** `String.fromCharCode` of an `Int8Array` element: a byte `b` at or
      above 128 is the negative number `b - 256`, whose UTF-16 code unit is
      `b + 0xFF00`. */
  function CharOf(b: Byte): (c: char)
    ensures IsByteChar(c) && ByteOf(c) == b
  {
    if b < 128 then b as char else (b + 0xFF00) as char
  }

  /** The characters that `CharOf` can produce. */
  predicate IsByteChar(c: char)
  {
    c as int < 128 || 0xFF80 <= c as int <= 0xFFFF
  }

  function ByteOf(c: char): Byte
    requires IsByteChar(c)
  {
    if c as int < 128 then c as int else c as int - 0xFF00
  }

  lemma CharOfByteOf(c: char)
    requires IsByteChar(c)
    ensures CharOf(ByteOf(c)) == c
  {
  }

  function Chars(bs: seq<Byte>): (s: string)
    ensures |s| == |bs|
    ensures forall i :: 0 <= i < |s| ==> s[i] == CharOf(bs[i])
  {
    seq(|bs|, i requires 0 <= i < |bs| => CharOf(bs[i]))
  }

  /** `Stream.string`: an int32 length `L`, then `buffer(L)` decoded one
      signed byte per character. */
  function StringAt(data: seq<Byte>, off: int): (r: Result<Got<string>>)
    ensures r.Ok? <==> 0 <= off && off + 4 <= |data|
    ensures r.Ok? ==> var len := IntAt(data, off, 4).value.value;
      r.value.next == off + 4 + len &&
      (0 <= len && off + 4 + len <= |data| ==>
        |r.value.value| == len &&
        forall i :: 0 <= i < len ==> r.value.value[i] == CharOf(data[off + 4 + i]))
  {
    var len :- IntAt(data, off, 4);
    var buf := BufferAt(data, len.next, len.value);
    Ok(Got(Chars(buf.value), buf.next))
  }

  /** `n` reads in a row, each starting where the previous one stopped;
      `step(i, o)` is the `i`-th read, at offset `o`. The first failing read
      fails the whole. */
  function Many<T>(step: (nat, int) -> Result<Got<T>>, off: int, n: nat): (r: Result<Got<seq<T>>>)
    ensures r.Ok? ==> |r.value.value| == n
  {
    if n == 0 then Ok(Got([], off))
    else
      var done :- Many(step, off, n - 1);
      var last :- step(n - 1, done.next);
      Ok(Got(done.value + [last.value], last.next))
  }

  /** The first `n` reads from `off` succeed, yield `xs` and end at `o`:
      what a reading loop has done after `n` rounds. */
  ghost predicate Ran<T>(step: (nat, int) -> Result<Got<T>>, off: int, n: nat, xs: seq<T>, o: int)
  {
    Many(step, off, n) == Ok(Got(xs, o))
  }

  /** One more read extends a successful run by its item, or ends it with
      its error. */
  lemma ManyNext<T>(step: (nat, int) -> Result<Got<T>>, off: int, i: nat, xs: seq<T>, o: int)
    requires Many(step, off, i) == Ok(Got(xs, o))
    ensures Many(step, off, i + 1) == match step(i, o)
      case Ok(g) => Ok(Got(xs + [g.value], g.next))
      case Fail(e) => Fail(e)
  {
  }

  /** Once a prefix of the reads fails, every longer run fails the same way. */
  lemma {:induction false} ManyStops<T>(step: (nat, int) -> Result<Got<T>>, off: int, m: nat, n: nat)
    requires m <= n && Many(step, off, m).Fail?
    ensures Many(step, off, n) == Many(step, off, m)
    decreases n
  {
    if n > m {
      ManyStops(step, off, m, n - 1);
    }
  }

  /** `n` reads of `w` bytes each, where a read succeeds exactly when its
      bytes lie below `len`: the run succeeds exactly when all `w * n` bytes
      do, ends `w * n` bytes on, and its `k`-th item is read at `off + w * k`. */
  lemma {:induction false} ManySpan<T>(step: (nat, int) -> Result<Got<T>>, off: int, n: nat, w: nat, len: int)
    requires forall i: nat, o: int {:trigger step(i, o)} :: step(i, o).Ok? <==> 0 <= o && o + w <= len
    requires forall i: nat, o: int {:trigger step(i, o)} :: step(i, o).Ok? ==> step(i, o).value.next == o + w
    ensures Many(step, off, n).Ok? <==> n == 0 || (0 <= off && off + w * n <= len)
    ensures Many(step, off, n).Ok? ==> Many(step, off, n).value.next == off + w * n
    ensures Many(step, off, n).Ok? ==> forall k :: 0 <= k < n ==>
              step(k, off + w * k).Ok? && Many(step, off, n).value.value[k] == step(k, off + w * k).value.value
    decreases n
  {
    if n > 0 {
      ManySpan(step, off, n - 1, w, len);
      var m := n - 1;
      if m > 0 && Many(step, off, m).Fail? {
        assert Many(step, off, n).Fail?;
      }
      if Many(step, off, n).Ok? {
        var done := Many(step, off, m).value;
        assert done.next == off + w * m;
        assert Many(step, off, n).value.value == done.value + [step(m, off + w * m).value.value];
      }
    }
  }

  /** A property every successful read establishes of its item holds of
      every item of a successful run. */
  lemma {:induction false} ManyAll<T>(step: (nat, int) -> Result<Got<T>>, off: int, n: nat, P: (nat, T) -> bool)
    requires forall i: nat, o: int {:trigger step(i, o)} :: step(i, o).Ok? ==> P(i, step(i, o).value.value)
    ensures Many(step, off, n).Ok? ==> forall k :: 0 <= k < n ==> P(k, Many(step, off, n).value.value[k])
    decreases n
  {
    if n > 0 && Many(step, off, n).Ok? {
      ManyAll(step, off, n - 1, P);
      var done := Many(step, off, n - 1).value;
      assert step(n - 1, done.next).Ok?;
      assert Many(step, off, n).value.value == done.value + [step(n - 1, done.next).value.value];
    }
  }

  /** The concatenation of the encodings of `xs`, in order. */
  function ConcatMap<T>(enc: T -> seq<Byte>, xs: seq<T>): seq<Byte>
  {
    if xs == [] then [] else ConcatMap(enc, xs[..|xs| - 1]) + enc(xs[|xs| - 1])
  }

  /** `e` lies in `data` at offset `off`. */
  ghost predicate At(data: seq<Byte>, off: int, e: seq<Byte>)
  {
    0 <= off && off + |e| <= |data| && data[off..off + |e|] == e
  }

  lemma AtSplit(data: seq<Byte>, off: int, a: seq<Byte>, b: seq<Byte>)
    requires At(data, off, a + b)
    ensures At(data, off, a) && At(data, off + |a|, b)
  {
    assert data[off..off + |a|] == (a + b)[..|a|];
    assert data[off + |a|..off + |a| + |b|] == (a + b)[|a|..];
  }

  /** Reading `|xs|` items over their concatenated encodings gives back `xs`,
      provided each item's read inverts its encoding. */
  lemma {:induction false} ManyReadsConcat<T>(step: (nat, int) -> Result<Got<T>>, enc: T -> seq<Byte>,
                                               xs: seq<T>, data: seq<Byte>, off: int)
    requires At(data, off, ConcatMap(enc, xs))
    requires forall i: nat, o: int {:trigger step(i, o)} :: i < |xs| && At(data, o, enc(xs[i])) ==>
               step(i, o) == Ok(Got(xs[i], o + |enc(xs[i])|))
    ensures Many(step, off, |xs|) == Ok(Got(xs, off + |ConcatMap(enc, xs)|))
    decreases |xs|
  {
    if xs != [] {
      var n := |xs|;
      var init := xs[..n - 1];
      AtSplit(data, off, ConcatMap(enc, init), enc(xs[n - 1]));
      ManyReadsConcat(step, enc, init, data, off);
      assert init + [xs[n - 1]] == xs;
    }
  }

  /** The same over a whole buffer: it holds exactly the encodings of `xs`. */
  lemma ManyReadsAll<T>(step: (nat, int) -> Result<Got<T>>, enc: T -> seq<Byte>, xs: seq<T>, data: seq<Byte>)
    requires data == ConcatMap(enc, xs)
    requires forall i: nat, o: int {:trigger step(i, o)} :: i < |xs| && At(data, o, enc(xs[i])) ==>
               step(i, o) == Ok(Got(xs[i], o + |enc(xs[i])|))
    ensures Many(step, 0, |xs|) == Ok(Got(xs, |data|))
  {
    assert data[0..|data|] == data;
    ManyReadsConcat(step, enc, xs, data, 0);
  }

  predicate IsInt32(x: int)
  {
    -0x8000_0000 <= x < 0x8000_0000
  }

  /** The 4-byte little-endian two's-complement encoding of `x`. */
  function EncodeInt32(x: int): (bs: seq<Byte>)
    ensures |bs| == 4
  {
    EncodeLe(Unsigned(x, 4), 4)
  }

  /** An unsigned read inverts the little-endian encoding. */
  lemma FixedRoundTrip(data: seq<Byte>, off: int, n: nat, w: nat)
    requires n < Pow256(w) && At(data, off, EncodeLe(n, w))
    ensures Fixed(data, off, w) == Ok(Got(n, off + w))
  {
    var v := Fixed(data, off, w).value.value;
    LeOfEncodeLe(v, w);
    LeOfEncodeLe(n, w);
  }

  /** A signed read inverts the two's-complement little-endian encoding. */
  lemma IntRoundTrip(data: seq<Byte>, off: int, x: int, w: nat)
    requires 0 <= 2 * x + Pow256(w) && 2 * x < Pow256(w)
    requires At(data, off, EncodeLe(Unsigned(x, w), w))
    ensures IntAt(data, off, w) == Ok(Got(x, off + w))
  {
    FixedRoundTrip(data, off, Unsigned(x, w), w);
    SignedOfUnsigned(x, w);
  }

  lemma Int32RoundTrip(data: seq<Byte>, off: int, x: int)
    requires IsInt32(x) && At(data, off, EncodeInt32(x))
    ensures IntAt(data, off, 4) == Ok(Got(x, off + 4))
  {
    Pow256Values();
    IntRoundTrip(data, off, x, 4);
  }

  function Int32Step(data: seq<Byte>): (nat, int) -> Result<Got<int>>
  {
    (_, o) => IntAt(data, o, 4)
  }

  /** `n` int32 reads in a row succeed exactly when the `4n` bytes are there. */
  lemma Int32sSpan(data: seq<Byte>, off: int, n: nat)
    ensures Many(Int32Step(data), off, n).Ok? <==> n == 0 || (0 <= off && off + 4 * n <= |data|)
    ensures Many(Int32Step(data), off, n).Ok? ==> Many(Int32Step(data), off, n).value.next == off + 4 * n
  {
    ManySpan(Int32Step(data), off, n, 4, |data|);
  }

  /** `Stream.int32_array`: an int32 count `c`, then `max(c, 0)` int32s. */
  function Int32ArrayAt(data: seq<Byte>, off: int): (r: Result<Got<seq<int>>>)
    ensures IntAt(data, off, 4).Fail? ==> r == Fail(RangeError(OUT_OF_BOUNDS))
    ensures r.Ok? ==> (IntAt(data, off, 4).Ok? &&
              var c := IntAt(data, off, 4).value.value; |r.value.value| == if c < 0 then 0 else c)
  {
    var count :- IntAt(data, off, 4);
    Many(Int32Step(data), count.next, if count.value < 0 then 0 else count.value)
  }

  /** The array read has `max(c, 0)` elements and ends `4 + 4 * max(c, 0)`
      bytes further on; the read fails exactly when those bytes are missing. */
  lemma Int32ArrayAtSpan(data: seq<Byte>, off: int)
    ensures var r := Int32ArrayAt(data, off);
      r.Ok? <==> (0 <= off && off + 4 <= |data| &&
                  var c := IntAt(data, off, 4).value.value;
                  off + 4 + 4 * (if c < 0 then 0 else c) <= |data|)
    ensures var r := Int32ArrayAt(data, off);
      r.Ok? ==> var c := IntAt(data, off, 4).value.value;
        |r.value.value| == (if c < 0 then 0 else c) &&
        r.value.next == off + 4 + 4 * |r.value.value|
  {
    if 0 <= off && off + 4 <= |data| {
      var c := IntAt(data, off, 4).value.value;
      Int32sSpan(data, off + 4, if c < 0 then 0 else c);
    }
  }

  /** A count-prefixed int32 array, as `Stream.int32_array` expects it. */
  function EncodeInt32Array(xs: seq<int>): seq<Byte>
  {
    EncodeInt32(|xs|) + ConcatMap(EncodeInt32, xs)
  }

  lemma Int32StepsInvert(data: seq<Byte>, xs: seq<int>)
    requires forall i :: 0 <= i < |xs| ==> IsInt32(xs[i])
    ensures forall i: nat, o: int {:trigger Int32Step(data)(i, o)} ::
      i < |xs| && At(data, o, EncodeInt32(xs[i])) ==>
        Int32Step(data)(i, o) == Ok(Got(xs[i], o + |EncodeInt32(xs[i])|))
  {
    forall i: nat, o: int | i < |xs| && At(data, o, EncodeInt32(xs[i]))
      ensures Int32Step(data)(i, o) == Ok(Got(xs[i], o + |EncodeInt32(xs[i])|))
    {
      Int32RoundTrip(data, o, xs[i]);
    }
  }

  lemma Int32ArrayRoundTrip(data: seq<Byte>, off: int, xs: seq<int>)
    requires |xs| < 0x8000_0000 && forall i :: 0 <= i < |xs| ==> IsInt32(xs[i])
    requires At(data, off, EncodeInt32Array(xs))
    ensures Int32ArrayAt(data, off) == Ok(Got(xs, off + |EncodeInt32Array(xs)|))
  {
    AtSplit(data, off, EncodeInt32(|xs|), ConcatMap(EncodeInt32, xs));
    Int32RoundTrip(data, off, |xs|);
    Int32StepsInvert(data, xs);
    ManyReadsConcat(Int32Step(data), EncodeInt32, xs, data, off + 4);
  }

  /** A length-prefixed string whose characters are all byte characters. */
  function EncodeString(s: string): seq<Byte>
    requires forall i :: 0 <= i < |s| ==> IsByteChar(s[i])
  {
    EncodeInt32(|s|) + seq(|s|, i requires 0 <= i < |s| => ByteOf(s[i]))
  }

  lemma StringRoundTrip(data: seq<Byte>, off: int, s: string)
    requires |s| < 0x8000_0000 && forall i :: 0 <= i < |s| ==> IsByteChar(s[i])
    requires At(data, off, EncodeString(s))
    ensures StringAt(data, off) == Ok(Got(s, off + |EncodeString(s)|))
  {
    var body := seq(|s|, i requires 0 <= i < |s| => ByteOf(s[i]));
    AtSplit(data, off, EncodeInt32(|s|), body);
    Int32RoundTrip(data, off, |s|);
    var r := StringAt(data, off).value.value;
    assert Slice(data, off + 4, off + 4 + |s|) == body;
    forall i | 0 <= i < |s| ensures r[i] == s[i] {
      CharOfByteOf(s[i]);
    }
    assert r == s;
  }
}
