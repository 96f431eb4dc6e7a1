/** `tennis.Node` and `tennis.Prototype` of src/tennis-utils.js: a node of
    the graph table with its named parameters and the reserved `#name`,
    `#op`, `#shape` and `#dtype` entries decoded. */
module Nodes {
  import opened Results
  import opened Text
  import opened Dtype
  import opened Tensors

  /** A node of the table. `inputs` holds the table index of each input;
      `None` is the `undefined` an index outside the table gives. */
  datatype Node = Node(id: nat, params: map<string, Tensor>, name: Value, op: Value,
                       shape: Value, dtype: Value, inputs: seq<Option<nat>>)

  /** JS string conversion of a decoded element. Float bit patterns are not
      turned into numbers, so every float renders as the same placeholder. */
  function ScalarText(x: Scalar): string
  {
    match x
    case Int(i) => IntText(i)
    case Float(_, _) => "NaN"
    case Bool(b) => if b then "true" else "false"
  }

  /** JS string conversion of a value: arrays join their elements with ",". */
  function ValueText(v: Value): string
  {
    match v
    case Null => "null"
    case Str(s) => s
    case One(x) => ScalarText(x)
    case List(xs) => Join(seq(|xs|, i requires 0 <= i < |xs| => ScalarText(xs[i])), ",")
  }

  /** `.value` of the parameter `key`, which must be present: `get` gives
      `null` otherwise and reading `.value` of it throws. */
  function RequiredValue(params: map<string, Tensor>, key: string): (r: Result<Value>)
    ensures key !in params ==> r == Fail(TypeError("null", "value"))
    ensures key in params ==> r == ValueOf(params[key])
  {
    if key in params then ValueOf(params[key]) else Fail(TypeError("null", "value"))
  }

  /** `.value` of the parameter `key` when present, else `null`. */
  function OptionalValue(params: map<string, Tensor>, key: string): (r: Result<Value>)
    ensures key !in params ==> r == Ok(Null)
    ensures key in params ==> r == ValueOf(params[key])
  {
    if key in params then ValueOf(params[key]) else Ok(Null)
  }

  /** The `Node` constructor: `#name` and `#op` are required, `#dtype` is
      decoded before `#shape`, and the inputs start empty. */
  function NewNode(params: map<string, Tensor>, id: nat): (r: Result<Node>)
    ensures r.Ok? <==> ("#name" in params && "#op" in params &&
                        ValueOf(params["#name"]).Ok? && ValueOf(params["#op"]).Ok? &&
                        OptionalValue(params, "#dtype").Ok? && OptionalValue(params, "#shape").Ok?)
    ensures "#name" !in params ==> r == Fail(TypeError("null", "value"))
    ensures "#name" in params && "#op" !in params && ValueOf(params["#name"]).Ok? ==>
              r == Fail(TypeError("null", "value"))
    ensures r.Ok? ==> (r.value.id == id && r.value.params == params && r.value.inputs == [] &&
                       r.value.name == ValueOf(params["#name"]).value &&
                       r.value.op == ValueOf(params["#op"]).value &&
                       r.value.dtype == OptionalValue(params, "#dtype").value &&
                       r.value.shape == OptionalValue(params, "#shape").value)
  {
    var name :- RequiredValue(params, "#name");
    var op :- RequiredValue(params, "#op");
    var dtype :- OptionalValue(params, "#dtype");
    var shape :- OptionalValue(params, "#shape");
    Ok(Node(id, params, name, op, shape, dtype, []))
  }

  /** The names every plain JS object inherits from `Object.prototype`; the
      `in` operator finds them in a `{}` parameter object too. */
  const INHERITED: set<string> := {"constructor", "toString", "toLocaleString", "valueOf",
    "hasOwnProperty", "isPrototypeOf", "propertyIsEnumerable", "__proto__",
    "__defineGetter__", "__defineSetter__", "__lookupGetter__", "__lookupSetter__"}

  /** `has(param)`: `param in this._params`, own parameters and inherited
      names alike. The reserved `#` names are never inherited. */
  predicate Has(n: Node, param: string)
    ensures param in n.params ==> Has(n, param)
    ensures param in INHERITED ==> Has(n, param)
    ensures |param| > 0 && param[0] == '#' ==> (Has(n, param) <==> param in n.params)
  {
    param in n.params || param in INHERITED
  }

  /** What `get` returns: a parameter, the inherited member of that name
      (a function of `Object.prototype`), or the caller's default. */
  datatype Found = Own(tensor: Tensor) | Inherited(key: string) | Default(value: Option<Tensor>)

  /** `get(param, value)`: an own parameter first, then an inherited member,
      else the default. */
  function Get(n: Node, param: string, default: Option<Tensor>): (r: Found)
    ensures param in n.params ==> r == Own(n.params[param])
    ensures param !in n.params && param in INHERITED ==> r == Inherited(param)
    ensures !Has(n, param) ==> r == Default(default)
  {
    if param in n.params then Own(n.params[param])
    else if param in INHERITED then Inherited(param)
    else Default(default)
  }

  /** `has` agrees with `get`: a name is present exactly when `get` does not
      fall back to its default, and then the default plays no part. */
  lemma HasIffGet(n: Node, param: string, default: Option<Tensor>)
    ensures Has(n, param) <==> !Get(n, param, default).Default?
    ensures Has(n, param) ==> Get(n, param, default) == Get(n, param, None)
    ensures Get(n, param, None).Own? <==> param in n.params
  {
  }

  /** `arg_id`: the id, a colon, then the name. */
  function ArgId(n: Node): (s: string)
    ensures |s| >= 2
  {
    NatText(n.id) + ":" + ValueText(n.name)
  }

  lemma NoColonInDigits(n: nat)
    ensures ':' !in NatText(n)
  {
  }

  /** The id can be read back from an `arg_id`: nodes with different ids
      never share one, and equal ids with equal `arg_id`s render their names
      alike. */
  lemma ArgIdInjective(a: Node, b: Node)
    requires ArgId(a) == ArgId(b)
    ensures a.id == b.id && ValueText(a.name) == ValueText(b.name)
  {
    NoColonInDigits(a.id);
    NoColonInDigits(b.id);
    assert NatText(a.id) + ":" + ValueText(a.name) == NatText(b.id) + ":" + ValueText(b.name);
    SplitAtFirst(NatText(a.id), ValueText(a.name), NatText(b.id), ValueText(b.name), ":");
    NatTextInjective(a.id, b.id);
  }

  /** A declared element type and shape, each possibly `null`. */
  datatype Prototype = Prototype(dtype: Value, shape: Value)

  /** `proto`: absent exactly when neither a dtype nor a shape is declared. */
  function Proto(n: Node): (p: Option<Prototype>)
    ensures p.None? <==> n.dtype == Null && n.shape == Null
    ensures p.Some? ==> p.value.dtype == n.dtype && p.value.shape == n.shape
  {
    if n.dtype == Null && n.shape == Null then None else Some(Prototype(n.dtype, n.shape))
  }

  /** The dtype part: nothing for `null`, else `type_str` of the code. Only
      a single integer matches a case of `type_str`'s `switch`. */
  function DtypeLabel(dtype: Value): (s: string)
    ensures dtype == Null <==> s == ""
  {
    match dtype
    case Null => ""
    case One(Int(c)) => TypeStr(c)
    case _ => "unkown"
  }

  /** One dimension: negative ones print as "?". */
  function DimText(x: Scalar): (s: string)
    ensures |s| >= 1 && ',' !in s
    ensures x.Int? ==> (s == "?" <==> x.i < 0)
  {
    match x
    case Int(d) => if d < 0 then "?" else IntText(d)
    case _ => ScalarText(x)
  }

  function DimTexts(xs: seq<Scalar>): (ts: seq<string>)
    ensures |ts| == |xs| && forall i :: 0 <= i < |xs| ==> ts[i] == DimText(xs[i])
  {
    seq(|xs|, i requires 0 <= i < |xs| => DimText(xs[i]))
  }

  /** The shape part: " tensor" (or "tensor" alone) for `null`, the
      bracketed ", "-separated dimensions for a non-empty list (a string
      shape lists its characters), and nothing for an empty or scalar
      shape. */
  function ShapePart(prefix: string, shape: Value): (s: string)
    ensures shape == Null ==> s == (if |prefix| > 0 then " tensor" else "tensor")
    ensures shape.List? && |shape.xs| > 0 ==> s == "[" + Join(DimTexts(shape.xs), ", ") + "]"
    ensures shape.One? || shape == List([]) || shape == Str("") ==> s == ""
  {
    match shape
    case Null => if |prefix| > 0 then " tensor" else "tensor"
    case List(xs) => if |xs| > 0 then "[" + Join(DimTexts(xs), ", ") + "]" else ""
    case Str(cs) =>
      if |cs| > 0 then "[" + Join(seq(|cs|, i requires 0 <= i < |cs| => [cs[i]]), ", ") + "]" else ""
    case One(_) => ""
  }

  /** `Prototype.toString`. */
  function PrototypeText(p: Prototype): (s: string)
    ensures |DtypeLabel(p.dtype)| <= |s| && s[..|DtypeLabel(p.dtype)|] == DtypeLabel(p.dtype)
    ensures p.dtype == Null ==> s == ShapePart("", p.shape)
    ensures p.shape == Null ==> s == DtypeLabel(p.dtype) + (if p.dtype == Null then "tensor" else " tensor")
  {
    var prefix := DtypeLabel(p.dtype);
    prefix + ShapePart(prefix, p.shape)
  }

  ghost predicate IntDims(xs: seq<Scalar>)
  {
    forall i :: 0 <= i < |xs| ==> xs[i].Int? && xs[i].i >= 0
  }

  lemma Unbracket(prefix: string, x: string, y: string)
    requires prefix + ("[" + x + "]") == prefix + ("[" + y + "]")
    ensures x == y
  {
    var sx, sy := prefix + ("[" + x + "]"), prefix + ("[" + y + "]");
    assert x == sx[|prefix| + 1..|sx| - 1];
    assert y == sy[|prefix| + 1..|sy| - 1];
  }

  lemma DimTextsInjective(a: seq<Scalar>, b: seq<Scalar>)
    requires IntDims(a) && IntDims(b) && DimTexts(a) == DimTexts(b)
    ensures a == b
  {
    forall i | 0 <= i < |a|
      ensures a[i] == b[i]
    {
      assert DimText(a[i]) == DimTexts(a)[i] == DimTexts(b)[i] == DimText(b[i]);
      IntTextInjective(a[i].i, b[i].i);
    }
  }

  /** For a given dtype, the text determines a shape of known dimensions. */
  lemma PrototypeTextDeterminesShape(dtype: Value, a: seq<Scalar>, b: seq<Scalar>)
    requires |a| > 0 && |b| > 0 && IntDims(a) && IntDims(b)
    requires PrototypeText(Prototype(dtype, List(a))) == PrototypeText(Prototype(dtype, List(b)))
    ensures a == b
  {
    var prefix := DtypeLabel(dtype);
    var ta, tb := DimTexts(a), DimTexts(b);
    Unbracket(prefix, Join(ta, ", "), Join(tb, ", "));
    assert Separable(ta, ", ") && Separable(tb, ", ");
    JoinInjective(ta, tb, ", ");
    DimTextsInjective(a, b);
  }
}
