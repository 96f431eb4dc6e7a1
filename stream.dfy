/** `tennis.Stream` of src/tennis-utils.js: a mutable read offset over a
    byte buffer. Each reader is proved to return what the corresponding
    `Cursor` function reads at the old offset and to leave the offset where
    that function says the read ends. */
module Streams {
  import opened Results
  import opened Bytes
  import opened Cursor

  /** `r` is what `spec` reads, and on success `offset` is where it ends. */
  ghost predicate Yields<T>(r: Result<T>, spec: Result<Got<T>>, offset: int)
  {
    match spec
    case Ok(got) => r == Ok(got.value) && offset == got.next
    case Fail(e) => r == Fail(e)
  }

  class Stream {
    const data: seq<Byte>
    var offset: int

    constructor (data: seq<Byte>, offset: int := 0)
      ensures this.data == data && this.offset == offset
    {
      this.data := data;
      this.offset := offset;
    }

    method Rewind()
      modifies this
      ensures offset == 0
    {
      offset := 0;
    }

    /** One `DataView` read of `w` bytes: throws before moving the offset. */
    method ReadFixed(w: nat) returns (r: Result<nat>)
      modifies this
      ensures Yields(r, Fixed(data, old(offset), w), offset)
      ensures r.Fail? ==> offset == old(offset)
    {
      if offset < 0 || offset + w > |data| {
        return Fail(RangeError(OUT_OF_BOUNDS));
      }
      r := Ok(Le(data[offset..offset + w]));
      offset := offset + w;
    }

    method ReadInt(w: nat) returns (r: Result<int>)
      modifies this
      ensures Yields(r, IntAt(data, old(offset), w), offset)
      ensures r.Fail? ==> offset == old(offset)
    {
      var u :- ReadFixed(w);
      r := Ok(Signed(u, w));
    }

    method Int8() returns (r: Result<int>)
      modifies this
      ensures Yields(r, IntAt(data, old(offset), 1), offset)
      ensures r.Fail? ==> offset == old(offset)
    {
      r := ReadInt(1);
    }

    method Int16() returns (r: Result<int>)
      modifies this
      ensures Yields(r, IntAt(data, old(offset), 2), offset)
      ensures r.Fail? ==> offset == old(offset)
    {
      r := ReadInt(2);
    }

    method Int32() returns (r: Result<int>)
      modifies this
      ensures Yields(r, IntAt(data, old(offset), 4), offset)
      ensures r.Fail? ==> offset == old(offset)
    {
      r := ReadInt(4);
    }

    method Uint8() returns (r: Result<nat>)
      modifies this
      ensures Yields(r, Fixed(data, old(offset), 1), offset)
      ensures r.Fail? ==> offset == old(offset)
    {
      r := ReadFixed(1);
    }

    method Uint16() returns (r: Result<nat>)
      modifies this
      ensures Yields(r, Fixed(data, old(offset), 2), offset)
      ensures r.Fail? ==> offset == old(offset)
    {
      r := ReadFixed(2);
    }

    method Uint32() returns (r: Result<nat>)
      modifies this
      ensures Yields(r, Fixed(data, old(offset), 4), offset)
      ensures r.Fail? ==> offset == old(offset)
    {
      r := ReadFixed(4);
    }

    /** The bit pattern of a little-endian float32 (its numeric value is not
        modelled). */
    method Float32() returns (r: Result<nat>)
      modifies this
      ensures Yields(r, Fixed(data, old(offset), 4), offset)
      ensures r.Fail? ==> offset == old(offset)
    {
      r := ReadFixed(4);
    }

    /** The bit pattern of a little-endian float64. */
    method Float64() returns (r: Result<nat>)
      modifies this
      ensures Yields(r, Fixed(data, old(offset), 8), offset)
      ensures r.Fail? ==> offset == old(offset)
    {
      r := ReadFixed(8);
    }

    method Int64() returns (r: Result<nat>)
      modifies this
      ensures Yields(r, Int64At(data, old(offset)), offset)
    {
      var first :- Int32();
      var second :- Int32();
      r := Ok(Unsigned(first, 4) + Pow256(4) * Unsigned(second, 4));
    }

    method Skip(size: int)
      modifies this
      ensures offset == old(offset) + size
    {
      offset := offset + size;
    }

    method Buffer(size: int) returns (bs: seq<Byte>)
      modifies this
      ensures bs == BufferAt(data, old(offset), size).value
      ensures offset == BufferAt(data, old(offset), size).next
    {
      bs := Slice(data, offset, offset + size);
      offset := offset + size;
    }

    method String() returns (r: Result<string>)
      modifies this
      ensures Yields(r, StringAt(data, old(offset)), offset)
    {
      var length :- Int32();
      var bytes := Buffer(length);
      r := Ok(Chars(bytes));
    }

    method Int32Array() returns (r: Result<seq<int>>)
      modifies this
      ensures Yields(r, Int32ArrayAt(data, old(offset)), offset)
    {
      var size :- Int32();
      ghost var start := offset;
      ghost var n: nat := if size < 0 then 0 else size;
      var values := [];
      var i := 0;
      while i < size
        invariant 0 <= i <= n
        invariant Ran(Int32Step(data), start, i, values, offset)
      {
        ghost var o := offset;
        var x := Int32();
        ManyNext(Int32Step(data), start, i, values, o);
        if x.Fail? {
          ManyStops(Int32Step(data), start, i + 1, n);
          return Fail(x.error);
        }
        values := values + [x.value];
        i := i + 1;
      }
      assert i == n;
      r := Ok(values);
    }
  }
}
