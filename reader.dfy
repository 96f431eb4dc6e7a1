/** `tennis.Module` of src/tennis-utils.js: the `.tsm` layout. A header
    word, the magic number, a reserved region, the global input and output
    indices, then the node table, linked into a graph. The functions say
    what each reader yields from a buffer and an offset; the methods read
    through a `Stream` and are proved to agree with them. */
module Reader {
  import opened Results
  import opened Bytes
  import opened Cursor
  import opened Streams
  import opened Dtype
  import opened Tensors
  import opened Nodes

  const MAGIC := 0x19910929
  const NOT_VALID := "TenniS Module not valid."

  function NonNeg(c: int): nat
  {
    if c < 0 then 0 else c
  }

  /** One field of `_read_tensor`: an int8 dtype, an int32 shape array, then
      `type_bytes(dtype) * prod(shape)` bytes of data. */
  function FieldAt(data: seq<Byte>, off: int): (r: Result<Got<Tensor>>)
    ensures r.Ok? ==> var t := r.value.value;
      TypeBytes(t.dtype).Ok? && t.data.Some? && t.field == []
  {
    var dtype :- IntAt(data, off, 1);
    Int32ArrayAtSpan(data, dtype.next);
    var shape :- Int32ArrayAt(data, dtype.next);
    var width :- TypeBytes(dtype.value);
    var buf := BufferAt(data, shape.next, width * Prod(shape.value));
    Ok(Got(Tensor(shape.value, dtype.value, Some(buf.value), []), buf.next))
  }

  /** A field ends right after its data: the dtype byte, the count and
      dimensions of the shape, then `type_bytes(dtype) * prod(shape)` bytes. */
  lemma FieldSpan(data: seq<Byte>, off: int)
    ensures FieldAt(data, off).Ok? ==> var t := FieldAt(data, off).value.value;
      FieldAt(data, off).value.next == off + 5 + 4 * |t.shape| + TypeBytes(t.dtype).value * Prod(t.shape)
  {
    if IntAt(data, off, 1).Ok? {
      Int32ArrayAtSpan(data, IntAt(data, off, 1).value.next);
    }
  }

  function FieldStep(data: seq<Byte>): (nat, int) -> Result<Got<Tensor>>
  {
    (_, o) => FieldAt(data, o)
  }

  /** `_read_tensor`: an int32 field count, that many fields, packed. */
  function TensorAt(data: seq<Byte>, off: int): (r: Result<Got<Tensor>>)
    ensures IntAt(data, off, 4).Fail? ==> r == Fail(RangeError(OUT_OF_BOUNDS))
    ensures r.Ok? ==> IntAt(data, off, 4).Ok?
    ensures r.Ok? && IntAt(data, off, 4).value.value <= 0 ==>
              r.value == Got(Tensor([], VOID, None, []), off + 4)
  {
    var count :- IntAt(data, off, 4);
    var fields :- Many(FieldStep(data), count.next, NonNeg(count.value));
    Ok(Got(Pack(fields.value), fields.next))
  }

  /** A tensor read with a positive count unpacks into exactly the fields
      read, in order: packing loses none of them. */
  lemma TensorAtUnpacks(data: seq<Byte>, off: int)
    ensures var r := TensorAt(data, off);
      r.Ok? && IntAt(data, off, 4).value.value > 0 ==>
        var fields := Many(FieldStep(data), off + 4, IntAt(data, off, 4).value.value);
        fields.Ok? && Unpack(r.value.value) == fields.value.value &&
        |Unpack(r.value.value)| == IntAt(data, off, 4).value.value
  {
    var r := TensorAt(data, off);
    if r.Ok? && IntAt(data, off, 4).value.value > 0 {
      var n: nat := IntAt(data, off, 4).value.value;
      ManyAll(FieldStep(data), off + 4, n, (_, t: Tensor) => t.field == []);
      UnpackPack(Many(FieldStep(data), off + 4, n).value.value);
    }
  }

  /** One named parameter of a node. */
  datatype Param = Param(name: string, value: Tensor)

  function ParamAt(data: seq<Byte>, off: int): Result<Got<Param>>
  {
    var name :- StringAt(data, off);
    var value :- TensorAt(data, name.next);
    Ok(Got(Param(name.value, value.value), value.next))
  }

  function ParamStep(data: seq<Byte>): (nat, int) -> Result<Got<Param>>
  {
    (_, o) => ParamAt(data, o)
  }

  /** `params[name] = value` in file order: a later parameter of the same
      name replaces an earlier one. */
  function ParamMap(ps: seq<Param>): (m: map<string, Tensor>)
    ensures ps != [] ==> ps[|ps| - 1].name in m && m[ps[|ps| - 1].name] == ps[|ps| - 1].value
    ensures |m| <= |ps|
  {
    if ps == [] then map[] else ParamMap(ps[..|ps| - 1])[ps[|ps| - 1].name := ps[|ps| - 1].value]
  }

  lemma ParamMapSnoc(ps: seq<Param>, p: Param)
    ensures ParamMap(ps + [p]) == ParamMap(ps)[p.name := p.value]
  {
    assert (ps + [p])[..|ps|] == ps;
  }

  /** The parameter object has exactly the names read, each bound to the
      last value read under it. */
  lemma ParamMapLookup(ps: seq<Param>, k: string)
    ensures k in ParamMap(ps) <==> exists i :: 0 <= i < |ps| && ps[i].name == k
    ensures forall i :: 0 <= i < |ps| && ps[i].name == k && (forall j :: i < j < |ps| ==> ps[j].name != k) ==>
              k in ParamMap(ps) && ParamMap(ps)[k] == ps[i].value
  {
    ParamMapKeys(ps, k);
    forall i | 0 <= i < |ps| && ps[i].name == k && (forall j :: i < j < |ps| ==> ps[j].name != k)
      ensures k in ParamMap(ps) && ParamMap(ps)[k] == ps[i].value
    {
      ParamMapLast(ps, k, i);
    }
  }

  lemma {:induction false} ParamMapKeys(ps: seq<Param>, k: string)
    ensures k in ParamMap(ps) <==> exists i :: 0 <= i < |ps| && ps[i].name == k
    decreases |ps|
  {
    if ps != [] {
      var init := ps[..|ps| - 1];
      ParamMapKeys(init, k);
      if k == ps[|ps| - 1].name {
        assert ps[|ps| - 1].name == k;
      } else {
        if exists i :: 0 <= i < |ps| && ps[i].name == k {
          var i :| 0 <= i < |ps| && ps[i].name == k;
          assert init[i].name == k;
        }
        if k in ParamMap(init) {
          var i :| 0 <= i < |init| && init[i].name == k;
          assert ps[i].name == k;
        }
      }
    }
  }

  lemma {:induction false} ParamMapLast(ps: seq<Param>, k: string, i: nat)
    requires i < |ps| && ps[i].name == k && forall j :: i < j < |ps| ==> ps[j].name != k
    ensures k in ParamMap(ps) && ParamMap(ps)[k] == ps[i].value
    decreases |ps|
  {
    if i < |ps| - 1 {
      ParamMapLast(ps[..|ps| - 1], k, i);
    }
  }

  /** `_read_bubble`: an int32 parameter count, that many name/tensor
      pairs, then the `Node` built from them with the given id. */
  function BubbleAt(data: seq<Byte>, off: int, id: nat): (r: Result<Got<Node>>)
    ensures r.Ok? ==> r.value.value.id == id && r.value.value.inputs == []
  {
    var count :- IntAt(data, off, 4);
    var ps :- Many(ParamStep(data), count.next, NonNeg(count.value));
    var node :- NewNode(ParamMap(ps.value), id);
    Ok(Got(node, ps.next))
  }

  /** A node of the table and the input indices read after it. */
  datatype Entry = Entry(node: Node, inputs: seq<int>)

  function EntryAt(data: seq<Byte>, off: int, id: nat): (r: Result<Got<Entry>>)
    ensures r.Ok? ==> r.value.value.node.id == id && r.value.value.node.inputs == []
  {
    var node :- BubbleAt(data, off, id);
    var inputs :- Int32ArrayAt(data, node.next);
    Ok(Got(Entry(node.value, inputs.value), inputs.next))
  }

  /** The `i`-th entry of the table is read with id `i`. */
  function EntryStep(data: seq<Byte>): (nat, int) -> Result<Got<Entry>>
  {
    (i: nat, o: int) => EntryAt(data, o, i)
  }

  /** The first loop of `_read_graph`: an int32 node count, then each node
      followed by its input indices. */
  function EntriesAt(data: seq<Byte>, off: int): (r: Result<Got<seq<Entry>>>)
    ensures IntAt(data, off, 4).Fail? ==> r == Fail(RangeError(OUT_OF_BOUNDS))
    ensures r.Ok? ==> (IntAt(data, off, 4).Ok? && |r.value.value| == NonNeg(IntAt(data, off, 4).value.value))
  {
    var count :- IntAt(data, off, 4);
    Many(EntryStep(data), count.next, NonNeg(count.value))
  }

  /** `nodes[j]` of a table of `n` nodes: `undefined` outside it. */
  function Index(j: int, n: nat): (r: Option<nat>)
    ensures r.Some? <==> 0 <= j < n
    ensures r.Some? ==> r.value == j
  {
    if 0 <= j < n then Some(j) else None
  }

  function Indices(js: seq<int>, n: nat): (r: seq<Option<nat>>)
    ensures |r| == |js| && forall k :: 0 <= k < |js| ==> r[k] == Index(js[k], n)
  {
    seq(|js|, k requires 0 <= k < |js| => Index(js[k], n))
  }

  /** Every input of a linked node is a node of the same table. */
  ghost predicate Closed(nodes: seq<Node>)
  {
    forall i, k :: 0 <= i < |nodes| && 0 <= k < |nodes[i].inputs| && nodes[i].inputs[k].Some? ==>
      nodes[i].inputs[k].value < |nodes|
  }

  /** The second loop of `_read_graph`: input `k` of node `i` is the node
      at the `k`-th index read after node `i`, and nothing else changes. */
  function Link(entries: seq<Entry>): (nodes: seq<Node>)
    ensures |nodes| == |entries|
    ensures forall i :: 0 <= i < |entries| ==>
              nodes[i] == entries[i].node.(inputs := Indices(entries[i].inputs, |entries|))
  {
    seq(|entries|, i requires 0 <= i < |entries| =>
      entries[i].node.(inputs := Indices(entries[i].inputs, |entries|)))
  }

  function GraphAt(data: seq<Byte>, off: int): (r: Result<Got<seq<Node>>>)
    ensures r.Ok? ==> Closed(r.value.value)
  {
    var entries :- EntriesAt(data, off);
    Ok(Got(Link(entries.value), entries.next))
  }

  /** The nodes of a graph read from a file carry their table position as
      id, and their inputs stay inside the table. */
  lemma GraphIds(data: seq<Byte>, off: int)
    ensures GraphAt(data, off).Ok? ==> var nodes := GraphAt(data, off).value.value;
      Closed(nodes) && forall i :: 0 <= i < |nodes| ==> nodes[i].id == i
  {
    if IntAt(data, off, 4).Ok? {
      var count := IntAt(data, off, 4).value;
      ManyAll(EntryStep(data), count.next, NonNeg(count.value), (i: nat, e: Entry) => e.node.id == i);
    }
  }

  /** The read module: the node table and the global inputs and outputs,
      as table positions. */
  datatype Module = Module(nodes: seq<Node>, inputs: seq<Option<nat>>, outputs: seq<Option<nat>>)

  /** The `Module` constructor over a stream at `off`. */
  function ModuleAt(data: seq<Byte>, off: int): (r: Result<Module>)
    ensures r.Ok? ==> IntAt(data, off + 4, 4) == Ok(Got(MAGIC, off + 8))
    ensures IntAt(data, off + 4, 4).Ok? && IntAt(data, off + 4, 4).value.value != MAGIC ==>
              r == Fail(UtilsError(NOT_VALID))
    ensures r.Ok? ==> (Int32ArrayAt(data, off + 128).Ok? &&
      var ins := Int32ArrayAt(data, off + 128).value;
      Int32ArrayAt(data, ins.next).Ok? &&
      var outs := Int32ArrayAt(data, ins.next).value;
      r.value.inputs == Indices(ins.value, |r.value.nodes|) && r.value.outputs == Indices(outs.value, |r.value.nodes|))
  {
    var mask :- IntAt(data, off + 4, 4);
    if mask.value != MAGIC then Fail(UtilsError(NOT_VALID))
    else
      var inputs :- Int32ArrayAt(data, mask.next + 120);
      var outputs :- Int32ArrayAt(data, inputs.next);
      var graph :- GraphAt(data, outputs.next);
      Ok(Module(graph.value, Indices(inputs.value, |graph.value|), Indices(outputs.value, |graph.value|)))
  }

  /** A module read from a file: node `i` has id `i` and every input,
      global input and global output that is present lies in the table. */
  lemma ModuleWellFormed(data: seq<Byte>, off: int)
    ensures ModuleAt(data, off).Ok? ==> var m := ModuleAt(data, off).value;
      Closed(m.nodes) && (forall i :: 0 <= i < |m.nodes| ==> m.nodes[i].id == i) &&
      (forall k :: 0 <= k < |m.inputs| && m.inputs[k].Some? ==> m.inputs[k].value < |m.nodes|) &&
      (forall k :: 0 <= k < |m.outputs| && m.outputs[k].Some? ==> m.outputs[k].value < |m.nodes|)
  {
    if ModuleAt(data, off).Ok? {
      var ins := Int32ArrayAt(data, off + 128).value;
      var outs := Int32ArrayAt(data, ins.next).value;
      GraphIds(data, outs.next);
    }
  }

  /** `_read_tensor`. */
  method ReadField(s: Stream) returns (r: Result<Tensor>)
    modifies s
    ensures Yields(r, FieldAt(s.data, old(s.offset)), s.offset)
  {
    var dtype :- s.Int8();
    var shape :- s.Int32Array();
    var width :- TypeBytes(dtype);
    var prod := Count(shape);
    var data := s.Buffer(width * prod);
    r := Ok(Tensor(shape, dtype, Some(data), []));
  }

  /** The loop of `_read_tensor`: `size` fields (none for a negative size). */
  method ReadFields(s: Stream, size: int) returns (r: Result<seq<Tensor>>)
    modifies s
    ensures r.Ok? ==> Many(FieldStep(s.data), old(s.offset), NonNeg(size)) == Ok(Got(r.value, s.offset))
    ensures r.Fail? ==> Many(FieldStep(s.data), old(s.offset), NonNeg(size)) == Fail(r.error)
  {
    ghost var start := s.offset;
    ghost var n := NonNeg(size);
    ghost var read := [];
    var fields := [];
    var i := 0;
    while i < size
      invariant 0 <= i <= n && |fields| == |read| == i
      invariant Ran(FieldStep(s.data), start, i, read, s.offset)
      invariant forall k :: 0 <= k < i ==> read[k] == fields[k]
    {
      var field := ReadField(s);
      if field.Fail? {
        ManyStops(FieldStep(s.data), start, i + 1, n);
        return Fail(field.error);
      }
      fields := fields + [field.value];
      read := read + [field.value];
      i := i + 1;
    }
    assert i == n;
    assert fields == read;
    r := Ok(fields);
  }

  method ReadTensor(s: Stream) returns (r: Result<Tensor>)
    modifies s
    ensures Yields(r, TensorAt(s.data, old(s.offset)), s.offset)
  {
    var size :- s.Int32();
    var fields :- ReadFields(s, size);
    r := Ok(Pack(fields));
  }

  /** One iteration of `_read_bubble`'s loop. */
  method ReadParam(s: Stream) returns (r: Result<Param>)
    modifies s
    ensures Yields(r, ParamAt(s.data, old(s.offset)), s.offset)
  {
    var name :- s.String();
    var value :- ReadTensor(s);
    r := Ok(Param(name, value));
  }

  /** The loop of `_read_bubble`: `size` parameters (none for a negative
      size) gathered into the parameter object. */
  method ReadParams(s: Stream, size: int) returns (r: Result<map<string, Tensor>>, ghost ps: seq<Param>)
    modifies s
    ensures r.Ok? ==> Many(ParamStep(s.data), old(s.offset), NonNeg(size)) == Ok(Got(ps, s.offset)) &&
                      r.value == ParamMap(ps)
    ensures r.Fail? ==> Many(ParamStep(s.data), old(s.offset), NonNeg(size)) == Fail(r.error)
  {
    ghost var start := s.offset;
    ghost var n := NonNeg(size);
    ps := [];
    var params := map[];
    var i := 0;
    while i < size
      invariant 0 <= i <= n && |ps| == i
      invariant Ran(ParamStep(s.data), start, i, ps, s.offset)
      invariant params == ParamMap(ps)
    {
      var p := ReadParam(s);
      if p.Fail? {
        ManyStops(ParamStep(s.data), start, i + 1, n);
        return Fail(p.error), ps;
      }
      ParamMapSnoc(ps, p.value);
      params := params[p.value.name := p.value.value];
      ps := ps + [p.value];
      i := i + 1;
    }
    assert i == n;
    r := Ok(params);
  }

  /** `_read_bubble`. */
  method ReadBubble(s: Stream, id: nat) returns (r: Result<Node>)
    modifies s
    ensures Yields(r, BubbleAt(s.data, old(s.offset), id), s.offset)
  {
    var size :- s.Int32();
    var params, ps := ReadParams(s, size);
    if params.Fail? {
      return Fail(params.error);
    }
    r := NewNode(params.value, id);
  }

  /** One iteration of the first loop of `_read_graph`. */
  method ReadEntry(s: Stream, id: nat) returns (r: Result<Entry>)
    modifies s
    ensures Yields(r, EntryAt(s.data, old(s.offset), id), s.offset)
  {
    var node :- ReadBubble(s, id);
    var inputs :- s.Int32Array();
    r := Ok(Entry(node, inputs));
  }

  /** `nodes[j]` for each index `j` in turn. */
  method Resolve(js: seq<int>, n: nat) returns (r: seq<Option<nat>>)
    ensures r == Indices(js, n)
  {
    r := [];
    for k := 0 to |js|
      invariant r == Indices(js[..k], n)
    {
      r := r + [Index(js[k], n)];
    }
    assert js[..|js|] == js;
  }

  /** The first loop of `_read_graph`: `size` nodes, each with its input
      indices, kept in two parallel lists. */
  method ReadEntries(s: Stream, size: int) returns (r: Result<(seq<Node>, seq<seq<int>>)>, ghost entries: seq<Entry>)
    modifies s
    ensures r.Ok? ==> Many(EntryStep(s.data), old(s.offset), NonNeg(size)) == Ok(Got(entries, s.offset)) &&
                      |r.value.0| == |r.value.1| == |entries| &&
                      forall k :: 0 <= k < |entries| ==> entries[k] == Entry(r.value.0[k], r.value.1[k])
    ensures r.Fail? ==> Many(EntryStep(s.data), old(s.offset), NonNeg(size)) == Fail(r.error)
  {
    ghost var start := s.offset;
    ghost var n := NonNeg(size);
    entries := [];
    var nodes := [];
    var nodeInputs := [];
    var i := 0;
    while i < size
      invariant 0 <= i <= n && |nodes| == |nodeInputs| == |entries| == i
      invariant Ran(EntryStep(s.data), start, i, entries, s.offset)
      invariant forall k :: 0 <= k < i ==> entries[k] == Entry(nodes[k], nodeInputs[k])
    {
      var e := ReadEntry(s, i);
      if e.Fail? {
        ManyStops(EntryStep(s.data), start, i + 1, n);
        return Fail(e.error), entries;
      }
      nodes := nodes + [e.value.node];
      nodeInputs := nodeInputs + [e.value.inputs];
      entries := entries + [e.value];
      i := i + 1;
    }
    assert i == n;
    r := Ok((nodes, nodeInputs));
  }

  /** The second loop of `_read_graph`: each node's inputs become the nodes
      at its input indices. */
  method LinkNodes(nodes: seq<Node>, nodeInputs: seq<seq<int>>, ghost entries: seq<Entry>) returns (linked: seq<Node>)
    requires |nodes| == |nodeInputs| == |entries|
    requires forall k :: 0 <= k < |entries| ==> entries[k] == Entry(nodes[k], nodeInputs[k])
    ensures linked == Link(entries)
  {
    linked := nodes;
    for i := 0 to |nodes|
      invariant |linked| == |nodes|
      invariant forall k :: 0 <= k < |nodes| ==> linked[k] == if k < i then Link(entries)[k] else nodes[k]
    {
      var inputs := Resolve(nodeInputs[i], |linked|);
      linked := linked[i := linked[i].(inputs := inputs)];
    }
  }

  /** `_read_graph`. */
  method ReadGraph(s: Stream) returns (r: Result<seq<Node>>)
    modifies s
    ensures Yields(r, GraphAt(s.data, old(s.offset)), s.offset)
  {
    var size :- s.Int32();
    var read, entries := ReadEntries(s, size);
    if read.Fail? {
      return Fail(read.error);
    }
    var nodes := LinkNodes(read.value.0, read.value.1, entries);
    r := Ok(nodes);
  }

  /** The `Module` constructor. */
  method ReadModule(s: Stream) returns (r: Result<Module>)
    modifies s
    ensures r == ModuleAt(s.data, old(s.offset))
  {
    s.Skip(4);
    var mask :- s.Int32();
    if mask != MAGIC {
      return Fail(UtilsError(NOT_VALID));
    }
    s.Skip(120);
    var inputs :- s.Int32Array();
    var outputs :- s.Int32Array();
    var nodes :- ReadGraph(s);
    var globalInputs := Resolve(inputs, |nodes|);
    var globalOutputs := Resolve(outputs, |nodes|);
    r := Ok(Module(nodes, globalInputs, globalOutputs));
  }
}
