/** `tennis.Tensor` of src/tennis-utils.js: a shape, a dtype code, the raw
    bytes and the extra fields of a packed parameter, with the decoding of
    the bytes into a readable value. */
module Tensors {
  import opened Results
  import opened Bytes
  import opened Text
  import opened Cursor
  import opened Streams
  import opened Dtype

  /** One decoded element: an integer (int64 reads give the exact integer),
      the bit pattern of a float, or a boolean. */
  datatype Scalar = Int(i: int) | Float(width: nat, bits: nat) | Bool(b: bool)

  /** The readable value of a tensor: JS `null`, a string (CHAR8), one scalar
      (empty shape) or a flat list of scalars. */
  datatype Value = Null | Str(s: string) | One(x: Scalar) | List(xs: seq<Scalar>)

  /** `data` is `None` for the `null` buffer of the void tensor. */
  datatype Tensor = Tensor(shape: seq<int>, dtype: int, data: Option<seq<Byte>>, field: seq<Tensor>)

  const STREAM_PARAM := "Stream param 1 must be DataView or ArrayBuffer"

  /** The product of the dimensions, 1 for an empty shape. */
  function Prod(shape: seq<int>): (p: int)
    ensures (forall i :: 0 <= i < |shape| ==> shape[i] >= 0) ==> p >= 0
  {
    if |shape| == 0 then 1 else Prod(shape[..|shape| - 1]) * shape[|shape| - 1]
  }

  lemma {:induction false} ProdAppend(a: seq<int>, b: seq<int>)
    ensures Prod(a + b) == Prod(a) * Prod(b)
    decreases |b|
  {
    if |b| == 0 {
      assert a + b == a;
    } else {
      var init, last := b[..|b| - 1], b[|b| - 1];
      assert (a + b)[..|a + b| - 1] == a + init;
      ProdAppend(a, init);
      MulAssoc(Prod(a), Prod(init), last);
    }
  }

  /** The element count is zero exactly when some dimension is zero. */
  lemma {:induction false} ProdZero(shape: seq<int>)
    ensures Prod(shape) == 0 <==> 0 in shape
    decreases |shape|
  {
    if |shape| > 0 {
      var init := shape[..|shape| - 1];
      ProdZero(init);
      assert shape == init + [shape[|shape| - 1]];
    }
  }

  /** `Tensor.count` and `Module._prod`: the shape folded by multiplication. */
  method Count(shape: seq<int>) returns (prod: int)
    ensures prod == Prod(shape)
  {
    prod := 1;
    for i := 0 to |shape|
      invariant prod == Prod(shape[..i])
    {
      assert shape[..i + 1][..i] == shape[..i];
      prod := prod * shape[i];
    }
    assert shape[..|shape|] == shape;
  }

  /** How many elements `_decode_core` reads: its loop runs `count` times. */
  function Elements(shape: seq<int>): nat
  {
    if Prod(shape) < 0 then 0 else Prod(shape)
  }

  /** The dtypes `_decode` has a reader for; every other one decodes to
      `null`. */
  predicate Decodable(dtype: int)
  {
    dtype in {INT8, INT16, INT32, INT64, UINT8, UINT16, UINT32, UINT64, FLOAT32, FLOAT64, BOOLEAN}
  }

  function Then<A, B>(r: Result<Got<A>>, f: A -> B): Result<Got<B>>
  {
    var g :- r;
    Ok(Got(f(g.value), g.next))
  }

  /** The signed integer readers of `_decode`: each reads its width. */
  function SignedAt(dtype: int, data: seq<Byte>, off: int): (r: Result<Got<Scalar>>)
    requires dtype in {INT8, INT16, INT32, INT64}
    ensures r.Ok? <==> 0 <= off && off + TypeBytes(dtype).value <= |data|
    ensures r.Ok? ==> r.value.next == off + TypeBytes(dtype).value
    ensures r.Fail? ==> r.error == RangeError(OUT_OF_BOUNDS)
  {
    if dtype == INT8 then Then(IntAt(data, off, 1), x => Int(x))
    else if dtype == INT16 then Then(IntAt(data, off, 2), x => Int(x))
    else if dtype == INT32 then Then(IntAt(data, off, 4), x => Int(x))
    else
      Int64AtIsLe(data, off);
      var g :- Int64At(data, off);
      Ok(Got(Int(Signed(g.value, 8)), g.next))
  }

  /** The unsigned integer readers of `_decode`: each reads its width. */
  function UnsignedAt(dtype: int, data: seq<Byte>, off: int): (r: Result<Got<Scalar>>)
    requires dtype in {UINT8, UINT16, UINT32, UINT64}
    ensures r.Ok? <==> 0 <= off && off + TypeBytes(dtype).value <= |data|
    ensures r.Ok? ==> r.value.next == off + TypeBytes(dtype).value
    ensures r.Fail? ==> r.error == RangeError(OUT_OF_BOUNDS)
  {
    if dtype == UINT8 then Then(Fixed(data, off, 1), x => Int(x))
    else if dtype == UINT16 then Then(Fixed(data, off, 2), x => Int(x))
    else if dtype == UINT32 then Then(Fixed(data, off, 4), x => Int(x))
    else
      Int64AtIsLe(data, off);
      Then(Int64At(data, off), x => Int(x))
  }

  /** One element read by the `_decode` reader for `dtype`. Every reader
      consumes exactly `type_bytes(dtype)` bytes. INT64 is read as a signed
      integer; the source reads it unsigned (see `Int64ScalarAsWritten`). */
  function ScalarAt(dtype: int, data: seq<Byte>, off: int): (r: Result<Got<Scalar>>)
    requires Decodable(dtype)
    ensures r.Ok? <==> 0 <= off && off + TypeBytes(dtype).value <= |data|
    ensures r.Ok? ==> r.value.next == off + TypeBytes(dtype).value
    ensures r.Fail? ==> r.error == RangeError(OUT_OF_BOUNDS)
  {
    if dtype in {INT8, INT16, INT32, INT64} then SignedAt(dtype, data, off)
    else if dtype in {UINT8, UINT16, UINT32, UINT64} then UnsignedAt(dtype, data, off)
    else if dtype == FLOAT32 then Then(Fixed(data, off, 4), x => Float(4, x))
    else if dtype == FLOAT64 then Then(Fixed(data, off, 8), x => Float(8, x))
    else Then(IntAt(data, off, 1), x => Bool(x != 0))
  }

  function ScalarStep(dtype: int, data: seq<Byte>): (nat, int) -> Result<Got<Scalar>>
    requires Decodable(dtype)
  {
    (_, o) => ScalarAt(dtype, data, o)
  }

  /** `_decode_core` over a stream at `off`: one element for an empty shape,
      otherwise a flat list of `count` elements read one after another. */
  function DecodeAt(dtype: int, shape: seq<int>, data: seq<Byte>, off: int): (r: Result<Value>)
    requires Decodable(dtype)
    ensures r.Ok? && |shape| == 0 ==> r.value.One?
    ensures r.Ok? && |shape| > 0 ==> r.value.List? && |r.value.xs| == Elements(shape)
  {
    if |shape| == 0 then
      var g :- ScalarAt(dtype, data, off);
      Ok(One(g.value))
    else
      var g :- Many(ScalarStep(dtype, data), off, Elements(shape));
      Ok(List(g.value))
  }

  /** `Tensor.value`: CHAR8 bytes become a string (a `null` buffer an empty
      one); any other dtype needs a buffer for its stream, and decodes to
      `null` unless `_decode` has a reader for it. */
  function ValueOf(t: Tensor): (r: Result<Value>)
    ensures r == Ok(Null) <==> t.dtype != CHAR8 && t.data.Some? && !Decodable(t.dtype)
    ensures t.dtype == CHAR8 ==> r.Ok? && r.value.Str?
    ensures t.dtype != CHAR8 && t.data.None? ==> r == Fail(UtilsError(STREAM_PARAM))
  {
    if t.dtype == CHAR8 then Ok(Str(Chars(if t.data.Some? then t.data.value else [])))
    else if t.data.None? then Fail(UtilsError(STREAM_PARAM))
    else if !Decodable(t.dtype) then Ok(Null)
    else DecodeAt(t.dtype, t.shape, t.data.value, 0)
  }

  /** Decoding succeeds exactly when the buffer holds `type_bytes(dtype)`
      bytes for each of the `count` elements, and element `k` is the one
      read `k` widths into the buffer. */
  lemma DecodeSpan(t: Tensor)
    requires Decodable(t.dtype) && t.data.Some?
    ensures var w, n, data := TypeBytes(t.dtype).value, Elements(t.shape), t.data.value;
      (ValueOf(t).Ok? <==> n == 0 || w * n <= |data|) &&
      (ValueOf(t).Ok? && |t.shape| > 0 ==>
        forall k :: 0 <= k < n ==> ValueOf(t).value.xs[k] == ScalarAt(t.dtype, data, w * k).value.value)
  {
    var w, n, data := TypeBytes(t.dtype).value, Elements(t.shape), t.data.value;
    if |t.shape| > 0 {
      ManySpan(ScalarStep(t.dtype, data), 0, n, w, |data|);
    } else {
      assert n == 1;
    }
  }

  /** The bytes of one element as a `.tsm` file stores it. */
  function EncodeScalar(dtype: int, x: Scalar): seq<Byte>
    requires Decodable(dtype)
  {
    var w := TypeBytes(dtype).value;
    match x
    case Int(i) => EncodeLe(Unsigned(i, w), w)
    case Float(_, bits) => EncodeLe(bits, w)
    case Bool(b) => [if b then 1 else 0]
  }

  /** `x` is an element a tensor of `dtype` can hold. */
  predicate Fits(dtype: int, x: Scalar)
    requires Decodable(dtype)
  {
    var w := TypeBytes(dtype).value;
    if dtype in {INT8, INT16, INT32, INT64} then x.Int? && 0 <= 2 * x.i + Pow256(w) && 2 * x.i < Pow256(w)
    else if dtype in {UINT8, UINT16, UINT32, UINT64} then x.Int? && 0 <= x.i < Pow256(w)
    else if dtype in {FLOAT32, FLOAT64} then x.Float? && x.width == w && x.bits < Pow256(w)
    else x.Bool?
  }

  /** The element round trip below, one family of dtypes at a time. */
  lemma SignedRoundTrip(dtype: int, data: seq<Byte>, off: int, x: Scalar)
    requires dtype in {INT8, INT16, INT32, INT64} && Fits(dtype, x)
    requires At(data, off, EncodeScalar(dtype, x))
    ensures ScalarAt(dtype, data, off) == Ok(Got(x, off + |EncodeScalar(dtype, x)|))
  {
    var w := TypeBytes(dtype).value;
    IntRoundTrip(data, off, x.i, w);
    if dtype == INT64 {
      Int64AtIsLe(data, off);
      FixedRoundTrip(data, off, Unsigned(x.i, w), w);
      SignedOfUnsigned(x.i, w);
    }
  }

  lemma UnsignedRoundTrip(dtype: int, data: seq<Byte>, off: int, x: Scalar)
    requires dtype in {UINT8, UINT16, UINT32, UINT64} && Fits(dtype, x)
    requires At(data, off, EncodeScalar(dtype, x))
    ensures ScalarAt(dtype, data, off) == Ok(Got(x, off + |EncodeScalar(dtype, x)|))
  {
    var w := TypeBytes(dtype).value;
    Int64AtIsLe(data, off);
    FixedRoundTrip(data, off, x.i, w);
  }

  lemma FloatRoundTrip(dtype: int, data: seq<Byte>, off: int, x: Scalar)
    requires dtype in {FLOAT32, FLOAT64} && Fits(dtype, x)
    requires At(data, off, EncodeScalar(dtype, x))
    ensures ScalarAt(dtype, data, off) == Ok(Got(x, off + |EncodeScalar(dtype, x)|))
  {
    FixedRoundTrip(data, off, x.bits, TypeBytes(dtype).value);
  }

  lemma BoolRoundTrip(data: seq<Byte>, off: int, x: Scalar)
    requires Fits(BOOLEAN, x)
    requires At(data, off, EncodeScalar(BOOLEAN, x))
    ensures ScalarAt(BOOLEAN, data, off) == Ok(Got(x, off + |EncodeScalar(BOOLEAN, x)|))
  {
    Pow256Values();
    IntRoundTrip(data, off, if x.b then 1 else 0, 1);
  }

  /** Reading an element back from its encoding gives the element and
      consumes exactly its bytes. */
  lemma ScalarRoundTrip(dtype: int, data: seq<Byte>, off: int, x: Scalar)
    requires Decodable(dtype) && Fits(dtype, x)
    requires At(data, off, EncodeScalar(dtype, x))
    ensures ScalarAt(dtype, data, off) == Ok(Got(x, off + |EncodeScalar(dtype, x)|))
  {
    if dtype in {INT8, INT16, INT32, INT64} {
      SignedRoundTrip(dtype, data, off, x);
    } else if dtype in {UINT8, UINT16, UINT32, UINT64} {
      UnsignedRoundTrip(dtype, data, off, x);
    } else if dtype in {FLOAT32, FLOAT64} {
      FloatRoundTrip(dtype, data, off, x);
    } else {
      BoolRoundTrip(data, off, x);
    }
  }

  function Encoder(dtype: int): Scalar -> seq<Byte>
    requires Decodable(dtype)
  {
    x => EncodeScalar(dtype, x)
  }

  lemma StepsInvertEncoder(dtype: int, data: seq<Byte>, xs: seq<Scalar>)
    requires Decodable(dtype)
    requires forall i :: 0 <= i < |xs| ==> Fits(dtype, xs[i])
    ensures forall i: nat, o: int {:trigger ScalarStep(dtype, data)(i, o)} ::
      i < |xs| && At(data, o, Encoder(dtype)(xs[i])) ==>
        ScalarStep(dtype, data)(i, o) == Ok(Got(xs[i], o + |Encoder(dtype)(xs[i])|))
  {
    forall i: nat, o: int | i < |xs| && At(data, o, Encoder(dtype)(xs[i]))
      ensures ScalarStep(dtype, data)(i, o) == Ok(Got(xs[i], o + |Encoder(dtype)(xs[i])|))
    {
      StepInvertsEncoder(dtype, data, i, o, xs[i]);
    }
  }

  lemma StepInvertsEncoder(dtype: int, data: seq<Byte>, i: nat, o: int, x: Scalar)
    requires Decodable(dtype) && Fits(dtype, x)
    requires At(data, o, Encoder(dtype)(x))
    ensures ScalarStep(dtype, data)(i, o) == Ok(Got(x, o + |Encoder(dtype)(x)|))
  {
    ScalarRoundTrip(dtype, data, o, x);
  }

  /** The element reads over the concatenated encodings of `xs` give `xs`
      back and end at the end of the buffer. */
  lemma ScalarsEncoded(dtype: int, xs: seq<Scalar>, data: seq<Byte>)
    requires Decodable(dtype)
    requires forall i :: 0 <= i < |xs| ==> Fits(dtype, xs[i])
    requires data == ConcatMap(Encoder(dtype), xs)
    ensures Many(ScalarStep(dtype, data), 0, |xs|) == Ok(Got(xs, |data|))
  {
    StepsInvertEncoder(dtype, data, xs);
    ManyReadsAll(ScalarStep(dtype, data), Encoder(dtype), xs, data);
  }

  lemma DecodeAtEncoded(shape: seq<int>, dtype: int, xs: seq<Scalar>, data: seq<Byte>)
    requires Decodable(dtype) && |shape| > 0 && Prod(shape) == |xs|
    requires forall i :: 0 <= i < |xs| ==> Fits(dtype, xs[i])
    requires data == ConcatMap(Encoder(dtype), xs)
    ensures DecodeAt(dtype, shape, data, 0) == Ok(List(xs))
  {
    ScalarsEncoded(dtype, xs, data);
    assert Elements(shape) == |xs|;
  }

  /** A tensor whose buffer is the concatenated encodings of `xs`, and whose
      shape counts `|xs|` elements, decodes to `xs`. */
  lemma DecodeRoundTrip(shape: seq<int>, dtype: int, xs: seq<Scalar>)
    requires Decodable(dtype) && |shape| > 0 && Prod(shape) == |xs|
    requires forall i :: 0 <= i < |xs| ==> Fits(dtype, xs[i])
    ensures ValueOf(Tensor(shape, dtype, Some(ConcatMap(Encoder(dtype), xs)), [])) == Ok(List(xs))
  {
    DecodeAtEncoded(shape, dtype, xs, ConcatMap(Encoder(dtype), xs));
  }

  /** What the source's INT64 reader gives: `stream.int64()` is unsigned, so
      a negative int64 comes back as a number at or above 2^63. */
  function Int64ScalarAsWritten(data: seq<Byte>, off: int): (r: Result<Got<Scalar>>)
    ensures r.Ok? <==> 0 <= off && off + 8 <= |data|
    ensures r.Ok? ==> r.value.value.Int? && r.value.value.i >= 0
  {
    Then(Int64At(data, off), x => Int(x))
  }

  /** The int64 `-1` (eight 0xFF bytes) decodes to 2^64 - 1 as written, and
      to `-1` with the signed reader. */
  lemma Int64AsWrittenLosesSign()
    ensures var data := EncodeScalar(INT64, Int(-1));
      Int64ScalarAsWritten(data, 0) == Ok(Got(Int(0xFFFF_FFFF_FFFF_FFFF), 8)) &&
      ScalarAt(INT64, data, 0) == Ok(Got(Int(-1), 8))
  {
    var data := EncodeScalar(INT64, Int(-1));
    Pow256Values();
    assert data[0..|data|] == data;
    ScalarRoundTrip(INT64, data, 0, Int(-1));
    Int64AtIsLe(data, 0);
    FixedRoundTrip(data, 0, Unsigned(-1, 8), 8);
  }

  /** `Tensor.Pack` as evidently intended: no fields give the void tensor,
      one field is returned itself, and several give the first field
      carrying the others as its extra fields. */
  function Pack(fields: seq<Tensor>): (t: Tensor)
    ensures |fields| == 0 ==> t == Tensor([], VOID, None, [])
    ensures |fields| >= 1 ==> t.shape == fields[0].shape && t.dtype == fields[0].dtype && t.data == fields[0].data
    ensures |fields| >= 2 ==> t.field == fields[1..]
  {
    if |fields| == 0 then Tensor([], VOID, None, [])
    else if |fields| == 1 then fields[0]
    else fields[0].(field := fields[1..])
  }

  /** The fields a packed tensor stands for, in order. */
  function Unpack(t: Tensor): (fs: seq<Tensor>)
    ensures |fs| >= 1 && fs[0].field == []
  {
    [t.(field := [])] + t.field
  }

  lemma PackUnpack(t: Tensor)
    ensures Pack(Unpack(t)) == t
  {
    if t.field != [] {
      assert Unpack(t)[1..] == t.field;
    }
  }

  /** Packing loses nothing: fields read from a file carry no extra fields
      of their own, and unpacking gives them back in order. */
  lemma UnpackPack(fields: seq<Tensor>)
    requires |fields| >= 1 && fields[0].field == []
    ensures Unpack(Pack(fields)) == fields
  {
    if |fields| >= 2 {
      assert [fields[0]] + fields[1..] == fields;
    }
  }

  /** What the source's `Pack` builds: one field is returned; otherwise a new
      tensor made from `this._shape`, `this._dtype`, `this._data` of the
      class itself (all undefined) whose fields are `fields[1..]`. */
  datatype Packed = Field(t: Tensor) | Hollow(extra: seq<Tensor>)

  function PackAsWritten(fields: seq<Tensor>): (p: Packed)
    ensures |fields| == 1 <==> p.Field?
    ensures p.Field? ==> p.t == fields[0]
    ensures p.Hollow? ==> p.extra == if |fields| == 0 then [] else fields[1..]
  {
    if |fields| == 1 then Field(fields[0])
    else Hollow(if |fields| == 0 then [] else fields[1..])
  }

  /** As written, packing two fields keeps only the second: lists that differ
      in their first field pack alike, and no fields give no void tensor. */
  lemma PackAsWrittenLosesFirst(a: Tensor, b: Tensor, c: Tensor)
    requires a != b && a.field == [] && b.field == []
    ensures PackAsWritten([a, c]) == PackAsWritten([b, c]) == Hollow([c])
    ensures Pack([a, c]) != Pack([b, c])
    ensures PackAsWritten([]) == Hollow([]) && Pack([]).dtype == VOID
  {
    UnpackPack([a, c]);
    UnpackPack([b, c]);
  }

  /** One element through the matching `Stream` reader. */
  method ReadScalar(s: Stream, dtype: int) returns (r: Result<Scalar>)
    requires Decodable(dtype)
    modifies s
    ensures Yields(r, ScalarAt(dtype, s.data, old(s.offset)), s.offset)
  {
    Int64AtIsLe(s.data, s.offset);
    if dtype == INT8 {
      var x :- s.Int8();
      r := Ok(Int(x));
    } else if dtype == INT16 {
      var x :- s.Int16();
      r := Ok(Int(x));
    } else if dtype == INT32 {
      var x :- s.Int32();
      r := Ok(Int(x));
    } else if dtype == INT64 {
      var x :- s.Int64();
      r := Ok(Int(Signed(x, 8)));
    } else if dtype == UINT8 {
      var x :- s.Uint8();
      r := Ok(Int(x));
    } else if dtype == UINT16 {
      var x :- s.Uint16();
      r := Ok(Int(x));
    } else if dtype == UINT32 {
      var x :- s.Uint32();
      r := Ok(Int(x));
    } else if dtype == UINT64 {
      var x :- s.Int64();
      r := Ok(Int(x));
    } else if dtype == FLOAT32 {
      var x :- s.Float32();
      r := Ok(Float(4, x));
    } else if dtype == FLOAT64 {
      var x :- s.Float64();
      r := Ok(Float(8, x));
    } else {
      var x :- s.Int8();
      r := Ok(Bool(x != 0));
    }
  }

  /** The loop of `_decode_core`: `count` elements in a row (none for a
      negative count). */
  method ReadScalars(s: Stream, dtype: int, count: int) returns (r: Result<seq<Scalar>>)
    requires Decodable(dtype)
    modifies s
    ensures r.Ok? ==> Many(ScalarStep(dtype, s.data), old(s.offset), if count < 0 then 0 else count) == Ok(Got(r.value, s.offset))
    ensures r.Fail? ==> Many(ScalarStep(dtype, s.data), old(s.offset), if count < 0 then 0 else count) == Fail(r.error)
  {
    ghost var start := s.offset;
    ghost var n: nat := if count < 0 then 0 else count;
    var list := [];
    var i := 0;
    while i < count
      invariant 0 <= i <= n
      invariant Ran(ScalarStep(dtype, s.data), start, i, list, s.offset)
    {
      var x := ReadScalar(s, dtype);
      if x.Fail? {
        ManyStops(ScalarStep(dtype, s.data), start, i + 1, n);
        return Fail(x.error);
      }
      list := list + [x.value];
      i := i + 1;
    }
    assert i == n;
    r := Ok(list);
  }


  /** `Tensor._decode_core`. */
  method DecodeCore(s: Stream, dtype: int, shape: seq<int>) returns (r: Result<Value>)
    requires Decodable(dtype)
    modifies s
    ensures r == DecodeAt(dtype, shape, s.data, old(s.offset))
  {
    if |shape| == 0 {
      var x :- ReadScalar(s, dtype);
      return Ok(One(x));
    }
    var count := Count(shape);
    var list :- ReadScalars(s, dtype, count);
    r := Ok(List(list));
  }

  /** `Tensor._decode` for a tensor that is not CHAR8. */
  method Decode(t: Tensor) returns (r: Result<Value>)
    requires t.dtype != CHAR8
    ensures r == ValueOf(t)
  {
    if t.data.None? {
      return Fail(UtilsError(STREAM_PARAM));
    }
    var s := new Stream(t.data.value);
    if !Decodable(t.dtype) {
      return Ok(Null);
    }
    r := DecodeCore(s, t.dtype, t.shape);
  }

  /** A tensor with its `_value` cache; `Null` stands for the unset cache. */
  class CachedTensor {
    const tensor: Tensor
    var cache: Value

    /** A set cache holds the tensor's value. */
    ghost predicate Valid()
      reads this
    {
      cache != Null ==> ValueOf(tensor) == Ok(cache)
    }

    constructor (tensor: Tensor)
      ensures this.tensor == tensor && cache == Null && Valid()
    {
      this.tensor := tensor;
      cache := Null;
    }

    /** The `value` getter: a set cache is returned unchanged; otherwise
        the value is computed and, unless decoding throws, stored. */
    method Value() returns (r: Result<Value>)
      requires Valid()
      modifies this
      ensures Valid() && r == ValueOf(tensor)
      ensures old(cache) != Null ==> cache == old(cache)
      ensures old(cache) == Null ==> cache == (if r.Ok? then r.value else Null)
    {
      if cache != Null {
        return Ok(cache);
      }
      if tensor.dtype == CHAR8 {
        cache := Str(Chars(if tensor.data.Some? then tensor.data.value else []));
        return Ok(cache);
      }
      var v :- Decode(tensor);
      cache := v;
      r := Ok(v);
    }
  }
}
