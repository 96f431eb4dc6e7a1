/** `TensorShape` and `TensorType.toString` of src/tennis.js. */
module Shapes {
  import opened Results
  import opened Text

  datatype TensorShape = TensorShape(dimensions: seq<int>)

  /** The `TensorShape` constructor: a zero dimension is rejected. */
  function NewTensorShape(dimensions: seq<int>): (r: Result<TensorShape>)
    ensures r.Ok? <==> 0 !in dimensions
    ensures r.Ok? ==> r.value.dimensions == dimensions
    ensures r.Fail? ==> r.error == LoaderError("Invalid tensor shape.")
  {
    if 0 in dimensions then Fail(LoaderError("Invalid tensor shape.")) else Ok(TensorShape(dimensions))
  }

  function DimTexts(dimensions: seq<int>): (parts: seq<string>)
    ensures |parts| == |dimensions|
    ensures forall i :: 0 <= i < |parts| ==> parts[i] == IntText(dimensions[i])
  {
    seq(|dimensions|, i requires 0 <= i < |dimensions| => IntText(dimensions[i]))
  }

  /** `TensorShape.toString`: empty for a scalar shape, otherwise the
      dimensions in brackets separated by ",". */
  function ShapeText(shape: TensorShape): (t: string)
    ensures t == "" <==> |shape.dimensions| == 0
    ensures t != "" ==> t[0] == '[' && t[|t| - 1] == ']' && '[' !in t[1..]
  {
    if |shape.dimensions| == 0 then ""
    else
      var parts := DimTexts(shape.dimensions);
      JoinFree(parts, ",", '[');
      "[" + Join(parts, ",") + "]"
  }

  /** A character in neither the parts nor the separator is not in the
      joined string. */
  lemma {:induction false} JoinFree(parts: seq<string>, sep: string, ch: char)
    requires ch !in sep && forall i :: 0 <= i < |parts| ==> ch !in parts[i]
    ensures ch !in Join(parts, sep)
  {
    if |parts| > 1 {
      JoinFree(parts[1..], sep, ch);
    }
  }

  /** The printed shape determines the shape. */
  lemma ShapeTextInjective(a: TensorShape, b: TensorShape)
    requires ShapeText(a) == ShapeText(b)
    ensures a == b
  {
    if |a.dimensions| > 0 {
      var t := ShapeText(a);
      assert Join(DimTexts(a.dimensions), ",") == t[1..|t| - 1] == Join(DimTexts(b.dimensions), ",");
      JoinedDimsInjective(a.dimensions, b.dimensions);
    }
  }

  /** The joined dimensions, without brackets, determine the dimensions. */
  lemma JoinedDimsInjective(a: seq<int>, b: seq<int>)
    requires Join(DimTexts(a), ",") == Join(DimTexts(b), ",")
    ensures a == b
  {
    JoinInjective(DimTexts(a), DimTexts(b), ",");
    forall i | 0 <= i < |a|
      ensures a[i] == b[i]
    {
      IntTextInjective(a[i], b[i]);
    }
  }

  /** `TensorType.toString`: the data type, or "?" when it is empty,
      followed by the printed shape. */
  function TensorTypeText(dataType: string, shape: TensorShape): (s: string)
    ensures |s| > 0 && (dataType == "" ==> s[0] == '?')
    ensures dataType != "" ==> |dataType| <= |s| && s[..|dataType|] == dataType
    ensures s[|s| - 1] == ']' <==> |shape.dimensions| > 0 || (dataType != "" && dataType[|dataType| - 1] == ']')
  {
    (if dataType == "" then "?" else dataType) + ShapeText(shape)
  }

  lemma BracketAt(u: string, t: string)
    requires t != "" && t[0] == '['
    ensures '[' in u + t
  {
    assert (u + t)[|u|] == '[';
  }

  /** A printed tensor type determines its shape, and its data type except
      that an empty data type prints like "?". */
  lemma TensorTypeTextInjective(d1: string, s1: TensorShape, d2: string, s2: TensorShape)
    requires '[' !in d1 && '[' !in d2
    requires TensorTypeText(d1, s1) == TensorTypeText(d2, s2)
    ensures s1 == s2
    ensures d1 == d2 || (d1 in {"", "?"} && d2 in {"", "?"})
  {
    var e1, e2 := if d1 == "" then "?" else d1, if d2 == "" then "?" else d2;
    var t1, t2 := ShapeText(s1), ShapeText(s2);
    var t := e1 + t1;
    if t1 != "" && t2 != "" {
      IndexOfAfter(e1, t1, '[');
      IndexOfAfter(e2, t2, '[');
      assert e1 + t1 == e2 + t2;
      assert e1 == t[..|e1|] == e2;
      assert t1 == t[|e1|..] == t2;
      ShapeTextInjective(s1, s2);
    } else if t1 == "" && t2 == "" {
      assert e1 == e1 + t1 == e2 + t2 == e2;
      ShapeTextInjective(s1, s2);
    } else if t1 == "" {
      BracketAt(e2, t2);
    } else {
      BracketAt(e1, t1);
    }
  }
}
