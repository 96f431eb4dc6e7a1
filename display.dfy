/** The display layer of src/tennis.js: `ModelFactory.match`, the error
    rewriting of `_openModel`, `Graph`, `Parameter`, `Argument` and the
    positional binding of a node's inputs and outputs in the `Node`
    constructor. */
module Display {
  import opened Results
  import opened Bytes
  import opened Text
  import opened Cursor
  import opened Streams
  import opened Tensors
  import opened Nodes
  import opened Reader
  import opened Schemas

  /** `type` is `None` for `null`. The initializer is always `null` here. */
  datatype Argument = Argument(id: string, typeName: Option<string>, description: string)

  datatype Parameter = Parameter(name: Value, visible: bool, arguments: seq<Argument>)

  /** A display node. Its attributes and chain stay empty: nothing in the
      constructor fills them. */
  datatype DisplayNode = DisplayNode(name: Value, op: Value, inputs: seq<Parameter>, outputs: seq<Parameter>)

  datatype Graph = Graph(inputs: seq<Parameter>, outputs: seq<Parameter>, nodes: seq<DisplayNode>)

  /** `new Argument(id, type, description)`: `type || null` and
      `description || ''`. */
  function NewArgument(id: string, typeName: string, description: string): (a: Argument)
    ensures a.id == id && a.description == description
    ensures a.typeName.None? <==> typeName == ""
  {
    Argument(id, if typeName == "" then None else Some(typeName), description)
  }

  /** The `type` setter: a type can be set once; setting it over a non-empty
      type throws. */
  function SetType(a: Argument, value: string): (r: Result<Argument>)
    ensures r.Ok? <==> a.typeName.None? || a.typeName == Some("")
    ensures r.Ok? ==> r.value == a.(typeName := Some(value))
    ensures r.Fail? ==> r.error == LoaderError("Invalid argument type set operation.")
  {
    if a.typeName.Some? && a.typeName.value != "" then Fail(LoaderError("Invalid argument type set operation."))
    else Ok(a.(typeName := Some(value)))
  }

  /** Setting a non-empty type twice always fails the second time. */
  lemma SetTypeOnce(a: Argument, first: string, second: string)
    requires first != "" && SetType(a, first).Ok?
    ensures SetType(SetType(a, first).value, second).Fail?
  {
  }

  /** Every index refers into a table of `n` nodes. */
  ghost predicate InTable(indices: seq<Option<nat>>, n: nat)
  {
    forall k :: 0 <= k < |indices| && indices[k].Some? ==> indices[k].value < n
  }

  /** No index is `undefined`. */
  predicate Defined(indices: seq<Option<nat>>)
  {
    forall k :: 0 <= k < |indices| ==> indices[k].Some?
  }

  /** `node.input(i).arg_id` for every input in turn: reading `arg_id` of an
      `undefined` input throws. */
  function InputIds(arena: seq<Node>, inputs: seq<Option<nat>>): (r: Result<seq<string>>)
    requires InTable(inputs, |arena|)
    ensures r.Ok? <==> forall k :: 0 <= k < |inputs| ==> inputs[k].Some?
    ensures r.Ok? ==> (|r.value| == |inputs| &&
              forall k :: 0 <= k < |inputs| ==> r.value[k] == ArgId(arena[inputs[k].value]))
    ensures r.Fail? ==> r.error == TypeError("undefined", "arg_id")
  {
    if forall k :: 0 <= k < |inputs| ==> inputs[k].Some? then
      Ok(seq(|inputs|, k requires 0 <= k < |inputs| => ArgId(arena[inputs[k].value])))
    else Fail(TypeError("undefined", "arg_id"))
  }

  /** The slot used for a positional input beyond the schema's slots. */
  const SURPLUS_SLOT := Slot("output", "Tensor", "")
  /** The output slot synthesised when there is no schema. */
  const SYNTH_OUTPUT := Slot("output", "Tensor", "")

  /** The input slots synthesised when there is no schema: one per input,
      all named "input" when there are several, "inputs" otherwise. */
  function SynthInputs(n: nat): (slots: seq<Slot>)
    ensures |slots| == n
    ensures forall i :: 0 <= i < n ==> slots[i] == Slot(if n > 1 then "input" else "inputs", "Tensor", "")
  {
    seq(n, _ => Slot(if n > 1 then "input" else "inputs", "Tensor", ""))
  }

  function SlotAt(slots: seq<Slot>, i: nat): Slot
  {
    if i < |slots| then slots[i] else SURPLUS_SLOT
  }

  function InputParam(slot: Slot, id: string): Parameter
  {
    Parameter(Str(slot.name), true, [NewArgument(id, slot.typeName, slot.description)])
  }

  /** The single parameter that absorbs all inputs; its arguments have a
      `null` type and an empty description. */
  function Collapsed(slot: Slot, ids: seq<string>): Parameter
  {
    Parameter(Str(slot.name), true, seq(|ids|, i requires 0 <= i < |ids| => Argument(ids[i], None, "")))
  }

  /** A single schema slot with several inputs gives one parameter for all
      of them; otherwise each positional input gets its own parameter. */
  predicate Collapses(slots: seq<Slot>, n: nat)
  {
    |slots| == 1 && n > 1
  }

  function InputParams(slots: seq<Slot>, ids: seq<string>): (ps: seq<Parameter>)
    ensures |ps| == if Collapses(slots, |ids|) then 1 else |ids|
  {
    if Collapses(slots, |ids|) then [Collapsed(slots[0], ids)]
    else seq(|ids|, i requires 0 <= i < |ids| => InputParam(SlotAt(slots, i), ids[i]))
  }

  /** The argument id of output `i`: the node's `arg_id`, suffixed with
      `[i]` after the first. */
  function OutputId(argId: string, i: nat): string
  {
    argId + (if i == 0 then "" else "[" + NatText(i) + "]")
  }

  function OutputParam(slot: Slot, argId: string, i: nat): Parameter
  {
    Parameter(Str(slot.name), true, [NewArgument(OutputId(argId, i), slot.typeName, slot.description)])
  }

  function OutputParams(slots: seq<Slot>, argId: string): (ps: seq<Parameter>)
    ensures |ps| == |slots|
  {
    seq(|slots|, i requires 0 <= i < |slots| => OutputParam(slots[i], argId, i))
  }

  /** The `Node` constructor of the display layer. A schema without
      `inputs` or `outputs` makes reading `.length` of `undefined` throw. */
  function Bind(schema: Option<Schema>, arena: seq<Node>, node: Node): (r: Result<DisplayNode>)
    requires InTable(node.inputs, |arena|)
    ensures r.Ok? <==> (schema.None? || (schema.value.inputs.Some? && schema.value.outputs.Some?)) &&
                       Defined(node.inputs)
    ensures schema.Some? && schema.value.inputs.None? ==> r == Fail(TypeError("undefined", "length"))
    ensures (schema.None? || schema.value.inputs.Some?) && InputIds(arena, node.inputs).Fail? ==>
              r == Fail(TypeError("undefined", "arg_id"))
    ensures (schema.Some? && schema.value.inputs.Some? && schema.value.outputs.None? &&
             InputIds(arena, node.inputs).Ok?) ==> r == Fail(TypeError("undefined", "length"))
    ensures r.Ok? ==> r.value.name == node.name && r.value.op == node.op
  {
    var n := |node.inputs|;
    var slotsIn := if schema.Some? then schema.value.inputs else Some(SynthInputs(n));
    var slotsOut := if schema.Some? then schema.value.outputs else Some([SYNTH_OUTPUT]);
    if slotsIn.None? then Fail(TypeError("undefined", "length"))
    else
      var ids :- InputIds(arena, node.inputs);
      if slotsOut.None? then Fail(TypeError("undefined", "length"))
      else Ok(DisplayNode(node.name, node.op, InputParams(slotsIn.value, ids), OutputParams(slotsOut.value, ArgId(node))))
  }

  /** What a successful binding holds: with a schema, its input slots bound
      to the inputs' `arg_id`s and its output slots to the node's own; without
      one, the synthesised slots. */
  lemma BindContents(schema: Option<Schema>, arena: seq<Node>, node: Node)
    requires InTable(node.inputs, |arena|) && Bind(schema, arena, node).Ok?
    ensures var d := Bind(schema, arena, node).value; var ids := InputIds(arena, node.inputs).value;
      schema.Some? ==> d.inputs == InputParams(schema.value.inputs.value, ids) &&
                       d.outputs == OutputParams(schema.value.outputs.value, ArgId(node))
    ensures var d := Bind(schema, arena, node).value; var ids := InputIds(arena, node.inputs).value;
      schema.None? ==> d.inputs == InputParams(SynthInputs(|node.inputs|), ids) &&
                       d.outputs == OutputParams([SYNTH_OUTPUT], ArgId(node))
  {
  }

  /** The argument ids of a parameter list, in order. */
  function ArgumentIds(ps: seq<Parameter>): seq<string>
  {
    if ps == [] then []
    else ArgumentIds(ps[..|ps| - 1]) + seq(|ps[|ps| - 1].arguments|, i requires 0 <= i < |ps[|ps| - 1].arguments| => ps[|ps| - 1].arguments[i].id)
  }

  lemma {:induction false} ArgumentIdsOfSingles(ps: seq<Parameter>, ids: seq<string>)
    requires |ps| == |ids|
    requires forall i :: 0 <= i < |ps| ==> |ps[i].arguments| == 1 && ps[i].arguments[0].id == ids[i]
    ensures ArgumentIds(ps) == ids
    decreases |ps|
  {
    if ps != [] {
      ArgumentIdsOfSingles(ps[..|ps| - 1], ids[..|ids| - 1]);
      assert ids == ids[..|ids| - 1] + [ids[|ids| - 1]];
    }
  }

  /** Binding loses no input and keeps their order: the arguments of the
      input parameters are the inputs' `arg_id`s in positional order. */
  lemma InputParamsKeepIds(slots: seq<Slot>, ids: seq<string>)
    ensures ArgumentIds(InputParams(slots, ids)) == ids
  {
    var ps := InputParams(slots, ids);
    if Collapses(slots, |ids|) {
      assert ps[..0] == [];
      assert ArgumentIds(ps) == ArgumentIds([]) + seq(|ids|, i requires 0 <= i < |ids| => ps[0].arguments[i].id);
    } else {
      ArgumentIdsOfSingles(ps, ids);
    }
  }

  /** Without collapsing, input `i` is named after schema slot `i`, or
      "output" with type "Tensor" past the last slot; surplus slots give
      nothing. */
  lemma PositionalInputs(slots: seq<Slot>, ids: seq<string>)
    requires !Collapses(slots, |ids|)
    ensures |InputParams(slots, ids)| == |ids|
    ensures forall i :: 0 <= i < |ids| ==> var p := InputParams(slots, ids)[i];
      p.name == Str(if i < |slots| then slots[i].name else "output") &&
      p.arguments == [NewArgument(ids[i], if i < |slots| then slots[i].typeName else "Tensor",
                                  if i < |slots| then slots[i].description else "")]
  {
  }

  /** The output arguments of one node have pairwise different ids. */
  lemma OutputIdsDistinct(argId: string, i: nat, j: nat)
    requires i != j
    ensures OutputId(argId, i) != OutputId(argId, j)
  {
    if i != 0 && j != 0 {
      var si, sj := "[" + NatText(i) + "]", "[" + NatText(j) + "]";
      if argId + si == argId + sj {
        assert si == (argId + si)[|argId|..] == (argId + sj)[|argId|..] == sj;
        assert NatText(i) == si[1..|si| - 1] == sj[1..|sj| - 1] == NatText(j);
        NatTextInjective(i, j);
      }
    } else {
      assert |OutputId(argId, i)| != |OutputId(argId, j)|;
    }
  }

  /** With no schema, a node with linked inputs binds one parameter per
      input, named "input" (or "inputs" for a single input), and one output
      "output" carrying the node's own `arg_id`. */
  lemma BindWithoutSchema(arena: seq<Node>, node: Node)
    requires InTable(node.inputs, |arena|)
    requires forall k :: 0 <= k < |node.inputs| ==> node.inputs[k].Some?
    ensures var r := Bind(None, arena, node); var n := |node.inputs|;
      r.Ok? && |r.value.inputs| == n &&
      (forall i :: 0 <= i < n ==> r.value.inputs[i].name == Str(if n > 1 then "input" else "inputs")) &&
      ArgumentIds(r.value.inputs) == InputIds(arena, node.inputs).value &&
      r.value.outputs == [Parameter(Str("output"), true, [Argument(ArgId(node), Some("Tensor"), "")])]
  {
    var ids := InputIds(arena, node.inputs).value;
    var slots := SynthInputs(|node.inputs|);
    InputParamsKeepIds(slots, ids);
    assert !Collapses(slots, |ids|);
    assert OutputId(ArgId(node), 0) == ArgId(node);
  }

  /** The display graph's parameters for the global inputs or outputs: one
      per index, named after the node, with the node's `arg_id`. */
  function GlobalParams(nodes: seq<Node>, globals: seq<Option<nat>>, typeName: string): (r: Result<seq<Parameter>>)
    requires InTable(globals, |nodes|)
    ensures r.Ok? <==> forall k :: 0 <= k < |globals| ==> globals[k].Some?
    ensures r.Ok? ==> |r.value| == |globals| && forall k :: 0 <= k < |globals| ==>
              r.value[k] == Parameter(nodes[globals[k].value].name, true,
                                      [NewArgument(ArgId(nodes[globals[k].value]), typeName, "")])
    ensures r.Fail? ==> r.error == TypeError("undefined", "name")
  {
    if forall k :: 0 <= k < |globals| ==> globals[k].Some? then
      Ok(seq(|globals|, k requires 0 <= k < |globals| =>
        Parameter(nodes[globals[k].value].name, true, [NewArgument(ArgId(nodes[globals[k].value]), typeName, "")])))
    else Fail(TypeError("undefined", "name"))
  }

  const INPUT_TYPE := "float32:[1,2,3]"

  /** Every input of every node refers into a table of `n` nodes. */
  ghost predicate Linked(nodes: seq<Node>, n: nat)
  {
    forall x :: x in nodes ==> InTable(x.inputs, n)
  }

  /** `<param>` and `<const>` nodes are not displayed. */
  predicate Hidden(n: Node)
    ensures Hidden(n) ==> n.op.Str? && |n.op.s| >= 7 && n.op.s[0] == '<'
  {
    n.op == Str("<param>") || n.op == Str("<const>")
  }

  /** The nodes the graph displays, in table order. */
  function Shown(nodes: seq<Node>): (r: seq<Node>)
    ensures forall x :: x in r ==> x in nodes
  {
    if nodes == [] then []
    else Shown(nodes[..|nodes| - 1]) + (if Hidden(nodes[|nodes| - 1]) then [] else [nodes[|nodes| - 1]])
  }

  /** Exactly the nodes whose op is neither `<param>` nor `<const>` are
      shown. */
  lemma {:induction false} ShownSpec(nodes: seq<Node>)
    ensures forall x :: x in Shown(nodes) ==> x in nodes && !Hidden(x)
    ensures forall x :: x in nodes && !Hidden(x) ==> x in Shown(nodes)
    decreases |nodes|
  {
    if nodes != [] {
      var init := nodes[..|nodes| - 1];
      ShownSpec(init);
      assert nodes == init + [nodes[|nodes| - 1]];
    }
  }

  ghost predicate WellFormed(m: Module)
  {
    Linked(m.nodes, |m.nodes|) &&
    InTable(m.inputs, |m.nodes|) && InTable(m.outputs, |m.nodes|)
  }

  /** Binding each node in turn; the first failure ends the graph. */
  function BindAll(metadata: Metadata, arena: seq<Node>, nodes: seq<Node>): (r: Result<seq<DisplayNode>>)
    requires Linked(nodes, |arena|)
    reads metadata
    ensures r.Ok? ==> (|r.value| == |nodes| &&
              forall i :: 0 <= i < |nodes| ==> r.value[i].op == nodes[i].op && r.value[i].name == nodes[i].name)
  {
    if nodes == [] then Ok([])
    else
      var last := nodes[|nodes| - 1];
      var done :- BindAll(metadata, arena, nodes[..|nodes| - 1]);
      var bound :- Bind(metadata.GetSchema(last.op), arena, last);
      Ok(done + [bound])
  }

  /** The `Graph` constructor over a read module. */
  function GraphOf(metadata: Metadata, m: Module): (r: Result<Graph>)
    requires WellFormed(m)
    reads metadata
    ensures r.Ok? <==> Defined(m.inputs) && Defined(m.outputs) && BindAll(metadata, m.nodes, Shown(m.nodes)).Ok?
    ensures r.Ok? ==> |r.value.inputs| == |m.inputs| && |r.value.outputs| == |m.outputs| &&
                      |r.value.nodes| == |Shown(m.nodes)|
  {
    var inputs :- GlobalParams(m.nodes, m.inputs, INPUT_TYPE);
    var outputs :- GlobalParams(m.nodes, m.outputs, "");
    var nodes :- BindAll(metadata, m.nodes, Shown(m.nodes));
    Ok(Graph(inputs, outputs, nodes))
  }

  /** The displayed nodes are the table's nodes in order without `<param>`
      and `<const>`; there is one input and one output parameter per global
      input and output, carrying that node's `arg_id`. */
  lemma GraphShape(metadata: Metadata, m: Module)
    requires WellFormed(m) && GraphOf(metadata, m).Ok?
    ensures var g := GraphOf(metadata, m).value;
      |g.nodes| == |Shown(m.nodes)| &&
      (forall i :: 0 <= i < |g.nodes| ==> g.nodes[i].op !in {Str("<param>"), Str("<const>")}) &&
      |g.inputs| == |m.inputs| && |g.outputs| == |m.outputs| &&
      (forall k :: 0 <= k < |m.inputs| ==> g.inputs[k].arguments[0].id == ArgId(m.nodes[m.inputs[k].value])) &&
      (forall k :: 0 <= k < |m.outputs| ==> g.outputs[k].arguments[0].id == ArgId(m.nodes[m.outputs[k].value]))
  {
    var g := GraphOf(metadata, m).value;
    var inputs := GlobalParams(m.nodes, m.inputs, INPUT_TYPE);
    var outputs := GlobalParams(m.nodes, m.outputs, "");
    var shown := Shown(m.nodes);
    var nodes := BindAll(metadata, m.nodes, shown);
    assert inputs.Ok? && outputs.Ok? && nodes.Ok?;
    assert g == Graph(inputs.value, outputs.value, nodes.value);
    ShownSpec(m.nodes);
    forall i | 0 <= i < |g.nodes|
      ensures g.nodes[i].op !in {Str("<param>"), Str("<const>")}
    {
      assert g.nodes[i].op == shown[i].op;
      assert shown[i] in shown;
    }
  }

  /** The model: the module read from offset 0 of the buffer, then its
      display graph. */
  function ModelOf(metadata: Metadata, data: seq<Byte>): Result<Graph>
    reads metadata
  {
    ModuleWellFormed(data, 0);
    var m :- ModuleAt(data, 0);
    GraphOf(metadata, m)
  }

  /** `error.message` when non-empty, else `error.toString()`, which is the
      error's name when its message is empty. */
  function ErrorText(e: Error): string
  {
    if e.message != "" then e.message else e.name
  }

  /** One trailing "." removed. */
  function StripDot(m: string): (s: string)
    ensures s == m || s + "." == m
    ensures |s| > 0 && s[|s| - 1] == '.' ==> s + "." == m
  {
    if |m| > 0 && m[|m| - 1] == '.' then m[..|m| - 1] else m
  }

  /** The message `_openModel` rethrows. */
  function Rewrite(message: string, identifier: string): (s: string)
    ensures |StripDot(message)| < |s| && s[..|StripDot(message)|] == StripDot(message)
    ensures |s| > 0 && s[|s| - 1] == '.'
  {
    StripDot(message) + " in '" + identifier + "'."
  }

  /** For one identifier, the rewritten message determines the original
      one up to its trailing ".". */
  lemma RewriteInjective(m1: string, m2: string, identifier: string)
    requires Rewrite(m1, identifier) == Rewrite(m2, identifier)
    ensures StripDot(m1) == StripDot(m2)
  {
    var tail := " in '" + identifier + "'.";
    var r1, r2 := Rewrite(m1, identifier), Rewrite(m2, identifier);
    assert StripDot(m1) == r1[..|r1| - |tail|];
    assert StripDot(m2) == r2[..|r2| - |tail|];
  }

  /** `_openModel`: any error becomes the display layer's error with the
      rewritten message. */
  function OpenModel(metadata: Metadata, data: seq<Byte>, identifier: string): (r: Result<Graph>)
    reads metadata
    ensures ModelOf(metadata, data).Ok? ==> r == ModelOf(metadata, data)
    ensures ModelOf(metadata, data).Fail? ==>
              r == Fail(LoaderError(Rewrite(ErrorText(ModelOf(metadata, data).error), identifier)))
  {
    match ModelOf(metadata, data)
    case Ok(g) => Ok(g)
    case Fail(e) => Fail(LoaderError(Rewrite(ErrorText(e), identifier)))
  }

  /** `ModelFactory.match`: the int32 at byte 4 is the magic number; a
      buffer too short for it throws. */
  function Match(data: seq<Byte>): (r: Result<bool>)
    ensures r.Ok? <==> |data| >= 8
    ensures r.Ok? ==> (r.value <==> IntAt(data, 4, 4).value.value == MAGIC)
  {
    var mask :- IntAt(data, 4, 4);
    Ok(mask.value == MAGIC)
  }

  /** `match` and the reader agree: every buffer the reader accepts
      matches, and a buffer that does not match is rejected as not a TenniS
      module, with that message once rewritten. */
  lemma MatchAgreesWithReader(metadata: Metadata, data: seq<Byte>, identifier: string)
    ensures ModuleAt(data, 0).Ok? ==> Match(data) == Ok(true)
    ensures Match(data) == Ok(false) ==> (ModuleAt(data, 0) == Fail(UtilsError(NOT_VALID)) &&
              OpenModel(metadata, data, identifier) ==
                Fail(LoaderError("TenniS Module not valid in '" + identifier + "'.")))
  {
    if Match(data) == Ok(false) {
      assert StripDot(NOT_VALID) == "TenniS Module not valid";
    }
  }

  /** The display `Node` constructor. */
  method BindNode(metadata: Metadata, arena: seq<Node>, node: Node) returns (r: Result<DisplayNode>)
    requires InTable(node.inputs, |arena|)
    ensures r == Bind(metadata.GetSchema(node.op), arena, node)
  {
    var schema := metadata.GetSchema(node.op);
    var n := |node.inputs|;
    var schemaInputs, schemaOutputs;
    if schema.Some? {
      schemaInputs, schemaOutputs := schema.value.inputs, schema.value.outputs;
    } else {
      var synth := [];
      for i := 0 to n
        invariant synth == SynthInputs(n)[..i]
      {
        synth := synth + [Slot(if n > 1 then "input" else "inputs", "Tensor", "")];
      }
      assert SynthInputs(n)[..n] == SynthInputs(n);
      schemaInputs, schemaOutputs := Some(synth), Some([SYNTH_OUTPUT]);
    }
    if schemaInputs.None? {
      return Fail(TypeError("undefined", "length"));
    }
    var inputs := BindInputs(schemaInputs.value, arena, node.inputs);
    if inputs.Fail? {
      return Fail(inputs.error);
    }
    if schemaOutputs.None? {
      return Fail(TypeError("undefined", "length"));
    }
    var outputs := BindOutputs(schemaOutputs.value, ArgId(node));
    r := Ok(DisplayNode(node.name, node.op, inputs.value, outputs));
  }

  /** The input loops of the display `Node` constructor. */
  method BindInputs(slots: seq<Slot>, arena: seq<Node>, inputs: seq<Option<nat>>) returns (r: Result<seq<Parameter>>)
    requires InTable(inputs, |arena|)
    ensures r == (var ids :- InputIds(arena, inputs); Ok(InputParams(slots, ids)))
  {
    var n := |inputs|;
    if |slots| == 1 && n > 1 {
      var args := [];
      for i := 0 to n
        invariant |args| == i
        invariant forall k :: 0 <= k < i ==> inputs[k].Some? && args[k] == Argument(ArgId(arena[inputs[k].value]), None, "")
      {
        if inputs[i].None? {
          assert InputIds(arena, inputs).Fail?;
          return Fail(TypeError("undefined", "arg_id"));
        }
        args := args + [Argument(ArgId(arena[inputs[i].value]), None, "")];
      }
      var ids := InputIds(arena, inputs).value;
      assert Collapsed(slots[0], ids).arguments == args;
      return Ok([Parameter(Str(slots[0].name), true, args)]);
    }
    var params := [];
    for i := 0 to n
      invariant |params| == i
      invariant forall k :: 0 <= k < i ==> inputs[k].Some? && params[k] == InputParam(SlotAt(slots, k), ArgId(arena[inputs[k].value]))
    {
      if inputs[i].None? {
        assert InputIds(arena, inputs).Fail?;
        return Fail(TypeError("undefined", "arg_id"));
      }
      var slot := SURPLUS_SLOT;
      if i < |slots| {
        slot := slots[i];
      }
      params := params + [InputParam(slot, ArgId(arena[inputs[i].value]))];
    }
    assert InputParams(slots, InputIds(arena, inputs).value) == params;
    r := Ok(params);
  }

  /** The output loop of the display `Node` constructor. */
  method BindOutputs(slots: seq<Slot>, argId: string) returns (ps: seq<Parameter>)
    ensures ps == OutputParams(slots, argId)
  {
    ps := [];
    for i := 0 to |slots|
      invariant |ps| == i && forall k :: 0 <= k < i ==> ps[k] == OutputParam(slots[k], argId, k)
    {
      var suffix := if i == 0 then "" else "[" + NatText(i) + "]";
      ps := ps + [Parameter(Str(slots[i].name), true, [NewArgument(argId + suffix, slots[i].typeName, slots[i].description)])];
    }
  }

  /** The loops of the `Graph` constructor over global inputs or outputs. */
  method BuildGlobals(nodes: seq<Node>, globals: seq<Option<nat>>, typeName: string) returns (r: Result<seq<Parameter>>)
    requires InTable(globals, |nodes|)
    ensures r == GlobalParams(nodes, globals, typeName)
  {
    var ps := [];
    for k := 0 to |globals|
      invariant |ps| == k
      invariant forall j :: 0 <= j < k ==> (globals[j].Some? &&
                  ps[j] == Parameter(nodes[globals[j].value].name, true,
                                     [NewArgument(ArgId(nodes[globals[j].value]), typeName, "")]))
    {
      if globals[k].None? {
        assert GlobalParams(nodes, globals, typeName).Fail?;
        return Fail(TypeError("undefined", "name"));
      }
      var node := nodes[globals[k].value];
      ps := ps + [Parameter(node.name, true, [NewArgument(ArgId(node), typeName, "")])];
    }
    assert GlobalParams(nodes, globals, typeName).value == ps;
    r := Ok(ps);
  }

  /** The `Graph` constructor's node loop: `<param>` and `<const>` nodes
      are skipped, every other node is bound. */
  method BuildNodes(metadata: Metadata, arena: seq<Node>) returns (r: Result<seq<DisplayNode>>)
    requires Linked(arena, |arena|)
    ensures r == BindAll(metadata, arena, Shown(arena))
  {
    var shown := [];
    for i := 0 to |arena|
      invariant (LinkedPrefix(arena, i); BindAll(metadata, arena, Shown(arena[..i])) == Ok(shown))
    {
      BindAllNext(metadata, arena, i);
      var node := arena[i];
      if Hidden(node) {
        continue;
      }
      var bound := BindNode(metadata, arena, node);
      if bound.Fail? {
        BindAllStops(metadata, arena, i + 1);
        return Fail(bound.error);
      }
      shown := shown + [bound.value];
    }
    assert arena[..|arena|] == arena;
    r := Ok(shown);
  }

  lemma LinkedPrefix(arena: seq<Node>, i: nat)
    requires i <= |arena| && Linked(arena, |arena|)
    ensures Linked(Shown(arena[..i]), |arena|)
  {
    forall x | x in Shown(arena[..i])
      ensures InTable(x.inputs, |arena|)
    {
      assert x in arena[..i];
    }
  }

  /** One more node of the table either leaves the bound nodes as they are
      (a hidden node) or binds it after them. */
  lemma BindAllNext(metadata: Metadata, arena: seq<Node>, i: nat)
    requires i < |arena| && Linked(arena, |arena|)
    ensures (LinkedPrefix(arena, i); LinkedPrefix(arena, i + 1);
      BindAll(metadata, arena, Shown(arena[..i + 1])) ==
        if Hidden(arena[i]) then BindAll(metadata, arena, Shown(arena[..i]))
        else (var done :- BindAll(metadata, arena, Shown(arena[..i]));
              var bound :- Bind(metadata.GetSchema(arena[i].op), arena, arena[i]);
              Ok(done + [bound])))
  {
    LinkedPrefix(arena, i);
    LinkedPrefix(arena, i + 1);
    var prev := Shown(arena[..i]);
    assert arena[..i + 1][..i] == arena[..i];
    assert Shown(arena[..i + 1]) == prev + (if Hidden(arena[i]) then [] else [arena[i]]);
    if !Hidden(arena[i]) {
      var xs := prev + [arena[i]];
      assert xs[..|xs| - 1] == prev;
    } else {
      assert prev + [] == prev;
    }
  }

  lemma {:induction false} BindAllStops(metadata: Metadata, arena: seq<Node>, i: nat)
    requires i <= |arena| && Linked(arena, |arena|)
    requires (LinkedPrefix(arena, i); BindAll(metadata, arena, Shown(arena[..i])).Fail?)
    ensures (LinkedPrefix(arena, i); LinkedPrefix(arena, |arena|);
      BindAll(metadata, arena, Shown(arena)) == BindAll(metadata, arena, Shown(arena[..i])))
    decreases |arena| - i
  {
    LinkedPrefix(arena, i);
    if i < |arena| {
      BindAllNext(metadata, arena, i);
      BindAllStops(metadata, arena, i + 1);
    } else {
      assert arena[..i] == arena;
    }
  }

  /** The `Graph` constructor. */
  method BuildGraph(metadata: Metadata, m: Module) returns (r: Result<Graph>)
    requires WellFormed(m)
    ensures r == GraphOf(metadata, m)
  {
    var inputs :- BuildGlobals(m.nodes, m.inputs, INPUT_TYPE);
    var outputs :- BuildGlobals(m.nodes, m.outputs, "");
    var nodes :- BuildNodes(metadata, m.nodes);
    r := Ok(Graph(inputs, outputs, nodes));
  }

  /** `ModelFactory.open` after the metadata is loaded: read the module
      from the start of the buffer, build the graph, and rewrite any
      error. */
  method Open(metadata: Metadata, data: seq<Byte>, identifier: string) returns (r: Result<Graph>)
    ensures r == OpenModel(metadata, data, identifier)
  {
    var stream := new Stream(data);
    var m := ReadModule(stream);
    ModuleWellFormed(data, 0);
    var g: Result<Graph>;
    if m.Fail? {
      g := Fail(m.error);
    } else {
      g := BuildGraph(metadata, m.value);
    }
    if g.Fail? {
      return Fail(LoaderError(Rewrite(ErrorText(g.error), identifier)));
    }
    r := g;
  }
}
