/** Bytes, little-endian numbers and two's complement, and the clamping
    slice of `ArrayBuffer.prototype.slice` / `TypedArray.prototype.subarray`. */
module Bytes {

  type Byte = b: int | 0 <= b < 256

  function Pow256(w: nat): (p: nat)
    ensures p >= 1
  {
    if w == 0 then 1 else 256 * Pow256(w - 1)
  }

  /** The unsigned little-endian number held by `bs`. */
  function Le(bs: seq<Byte>): (n: nat)
    ensures n < Pow256(|bs|)
  {
    if bs == [] then 0
    else
      var rest := Le(bs[1..]);
      assert rest <= Pow256(|bs| - 1) - 1;
      bs[0] + 256 * rest
  }

  /** The `w` low bytes of `n`, least significant first. */
  function EncodeLe(n: nat, w: nat): (bs: seq<Byte>)
    ensures |bs| == w
  {
    if w == 0 then [] else [n % 256] + EncodeLe(n / 256, w - 1)
  }

  lemma {:induction false} LeOfEncodeLe(n: nat, w: nat)
    requires n < Pow256(w)
    ensures Le(EncodeLe(n, w)) == n
  {
    if w > 0 {
      LeOfEncodeLe(n / 256, w - 1);
      assert EncodeLe(n, w)[1..] == EncodeLe(n / 256, w - 1);
    }
  }

  lemma {:induction false} EncodeLeOfLe(bs: seq<Byte>)
    ensures EncodeLe(Le(bs), |bs|) == bs
  {
    if bs != [] {
      EncodeLeOfLe(bs[1..]);
      ByteDigits(bs[0], Le(bs[1..]));
      assert EncodeLe(Le(bs), |bs|) == [bs[0]] + bs[1..];
    }
  }

  /** The low byte and the rest of `lo + 256 * hi`. */
  lemma ByteDigits(lo: Byte, hi: nat)
    ensures (lo + 256 * hi) % 256 == lo && (lo + 256 * hi) / 256 == hi
  {
  }

  lemma {:induction false} LeAppend(a: seq<Byte>, b: seq<Byte>)
    ensures Le(a + b) == Le(a) + Pow256(|a|) * Le(b)
  {
    if a != [] {
      LeAppend(a[1..], b);
      assert (a + b)[1..] == a[1..] + b;
      assert (a + b)[0] == a[0];
      var x, p, y := Le(a[1..]), Pow256(|a| - 1), Le(b);
      assert Le(a + b) == a[0] + 256 * (x + p * y);
      MulAssoc(256, p, y);
      assert Le(a + b) == a[0] + 256 * x + (256 * p) * y;
    } else {
      assert a + b == b;
    }
  }

  lemma MulAssoc(k: int, p: int, y: int)
    ensures k * (p * y) == (k * p) * y
  {
  }

  /** Two's-complement reading of a `w`-byte unsigned number. */
  function Signed(u: nat, w: nat): (x: int)
    requires u < Pow256(w)
    ensures 0 <= 2 * x + Pow256(w) && 2 * x < Pow256(w)
    ensures Unsigned(x, w) == u
  {
    if 2 * u >= Pow256(w) then u - Pow256(w) else u
  }

  /** The `w`-byte two's-complement bit pattern of `x` (wrapping). */
  function Unsigned(x: int, w: nat): (u: nat)
    ensures u < Pow256(w)
    ensures 0 <= x + Pow256(w) && x < 0 ==> u == x + Pow256(w)
    ensures 0 <= x < Pow256(w) ==> u == x
  {
    if 0 <= x < Pow256(w) then x
    else if 0 <= x + Pow256(w) && x < 0 then x + Pow256(w)
    else x % Pow256(w)
  }

  lemma SignedOfUnsigned(x: int, w: nat)
    requires 0 <= 2 * x + Pow256(w) && 2 * x < Pow256(w)
    ensures Signed(Unsigned(x, w), w) == x
  {
  }

  /** Resolves a relative index as `slice`/`subarray` do: negative counts
      from the end, and the result is clamped to `[0, len]`. */
  function Relative(i: int, len: nat): (r: nat)
    ensures r <= len
  {
    if i < 0 then (if len + i < 0 then 0 else len + i)
    else if i > len then len
    else i
  }

  /** `buffer.slice(beg, end)` / `view.subarray(beg, end)`: never fails. */
  function Slice(data: seq<Byte>, beg: int, end: int): (r: seq<Byte>)
    ensures 0 <= beg <= end <= |data| ==> r == data[beg..end]
    ensures |r| <= |data|
  {
    var first := Relative(beg, |data|);
    var last := Relative(end, |data|);
    if last <= first then [] else data[first..last]
  }
}
