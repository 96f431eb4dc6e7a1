/** The `tennis.dtype` code tables of src/tennis-utils.js. */
module Dtype {
  import opened Results
  import opened Text

  const VOID := 0
  const INT8 := 1
  const UINT8 := 2
  const INT16 := 3
  const UINT16 := 4
  const INT32 := 5
  const UINT32 := 6
  const INT64 := 7
  const UINT64 := 8
  const FLOAT16 := 9
  const FLOAT32 := 10
  const FLOAT64 := 11
  const PTR := 12
  const CHAR8 := 13
  const CHAR16 := 14
  const CHAR32 := 15
  const UNKNOWN8 := 16
  const UNKNOWN16 := 17
  const UNKNOWN32 := 18
  const UNKNOWN64 := 19
  const UNKNOWN128 := 20
  const BOOLEAN := 21
  const COMPLEX32 := 22
  const COMPLEX64 := 23
  const COMPLEX128 := 24

  /** The element width in bytes; every code of the table except PTR has
      one, and every other code is an error naming the code. */
  function TypeBytes(dtype: int): (r: Result<nat>)
    ensures r.Ok? <==> VOID <= dtype <= COMPLEX128 && dtype != PTR
    ensures r.Ok? ==> r.value in {0, 1, 2, 4, 8, 16}
    ensures r.Ok? ==> (r.value == 0 <==> dtype == VOID)
    ensures r.Fail? ==> r.error == UtilsError("Not support dtype = " + IntText(dtype))
  {
    match dtype
    case 0 => Ok(0)
    case 1 => Ok(1)
    case 2 => Ok(1)
    case 3 => Ok(2)
    case 4 => Ok(2)
    case 5 => Ok(4)
    case 6 => Ok(4)
    case 7 => Ok(8)
    case 8 => Ok(8)
    case 9 => Ok(2)
    case 10 => Ok(4)
    case 11 => Ok(8)
    case 13 => Ok(1)
    case 14 => Ok(2)
    case 15 => Ok(4)
    case 16 => Ok(1)
    case 17 => Ok(2)
    case 18 => Ok(4)
    case 19 => Ok(8)
    case 20 => Ok(16)
    case 21 => Ok(1)
    case 22 => Ok(4)
    case 23 => Ok(8)
    case 24 => Ok(16)
    case _ => Fail(UtilsError("Not support dtype = " + IntText(dtype)))
  }

  /** The display name; total, with the misspelt "unkown" for PTR and for
      every code outside the table. */
  function TypeStr(dtype: int): (s: string)
    ensures s == "unkown" <==> TypeBytes(dtype).Fail?
  {
    match dtype
    case 0 => "void"
    case 1 => "int8"
    case 2 => "uint8"
    case 3 => "int16"
    case 4 => "uint16"
    case 5 => "int32"
    case 6 => "uint32"
    case 7 => "int64"
    case 8 => "uint64"
    case 9 => "float16"
    case 10 => "float32"
    case 11 => "float64"
    case 13 => "char8"
    case 14 => "char16"
    case 15 => "char32"
    case 16 => "unknown8"
    case 17 => "unknown16"
    case 18 => "unknown32"
    case 19 => "unknown64"
    case 20 => "unknown128"
    case 21 => "bool"
    case 22 => "complex32"
    case 23 => "complex64"
    case 24 => "complex128"
    case _ => "unkown"
  }

  /** Reads a display name back to its code. */
  function CodeOf(name: string): (r: Option<int>)
    ensures r.Some? ==> TypeBytes(r.value).Ok?
  {
    if name == "void" then Some(0)
    else if name == "int8" then Some(1)
    else if name == "uint8" then Some(2)
    else if name == "int16" then Some(3)
    else if name == "uint16" then Some(4)
    else if name == "int32" then Some(5)
    else if name == "uint32" then Some(6)
    else if name == "int64" then Some(7)
    else if name == "uint64" then Some(8)
    else if name == "float16" then Some(9)
    else if name == "float32" then Some(10)
    else if name == "float64" then Some(11)
    else if name == "char8" then Some(13)
    else if name == "char16" then Some(14)
    else if name == "char32" then Some(15)
    else if name == "unknown8" then Some(16)
    else if name == "unknown16" then Some(17)
    else if name == "unknown32" then Some(18)
    else if name == "unknown64" then Some(19)
    else if name == "unknown128" then Some(20)
    else if name == "bool" then Some(21)
    else if name == "complex32" then Some(22)
    else if name == "complex64" then Some(23)
    else if name == "complex128" then Some(24)
    else None
  }

  /** The round trip below, a range of codes at a time. */
  lemma NamesFrom0(dtype: int)
    requires 0 <= dtype <= 8 && dtype != PTR
    ensures CodeOf(TypeStr(dtype)) == Some(dtype)
  {
    match dtype
    case 0 =>
    case 1 =>
    case 2 =>
    case 3 =>
    case 4 =>
    case 5 =>
    case 6 =>
    case 7 =>
    case 8 =>
  }

  lemma NamesFrom9(dtype: int)
    requires 9 <= dtype <= 13 && dtype != PTR
    ensures CodeOf(TypeStr(dtype)) == Some(dtype)
  {
    match dtype
    case 9 =>
    case 10 =>
    case 11 =>
    case 13 =>
  }

  lemma NamesFrom14(dtype: int)
    requires 14 <= dtype <= 17 && dtype != PTR
    ensures CodeOf(TypeStr(dtype)) == Some(dtype)
  {
    match dtype
    case 14 =>
    case 15 =>
    case 16 =>
    case 17 =>
  }

  lemma NamesFrom18(dtype: int)
    requires 18 <= dtype <= 20 && dtype != PTR
    ensures CodeOf(TypeStr(dtype)) == Some(dtype)
  {
    match dtype
    case 18 =>
    case 19 =>
    case 20 =>
  }

  lemma NamesFrom21(dtype: int)
    requires 21 <= dtype <= 22 && dtype != PTR
    ensures CodeOf(TypeStr(dtype)) == Some(dtype)
  {
    match dtype
    case 21 =>
    case 22 =>
  }

  lemma NamesFrom23(dtype: int)
    requires 23 <= dtype <= 24 && dtype != PTR
    ensures CodeOf(TypeStr(dtype)) == Some(dtype)
  {
    match dtype
    case 23 =>
    case 24 =>
  }

  /** Every supported code has a name of its own: the name determines the
      code. */
  lemma TypeStrRoundTrip(dtype: int)
    requires TypeBytes(dtype).Ok?
    ensures CodeOf(TypeStr(dtype)) == Some(dtype)
  {
    if dtype <= 8 {
      NamesFrom0(dtype);
    } else if dtype <= 13 {
      NamesFrom9(dtype);
    } else if dtype <= 17 {
      NamesFrom14(dtype);
    } else if dtype <= 20 {
      NamesFrom18(dtype);
    } else if dtype <= 22 {
      NamesFrom21(dtype);
    } else {
      NamesFrom23(dtype);
    }
  }

  lemma TypeStrInjective(a: int, b: int)
    requires TypeStr(a) == TypeStr(b) != "unkown"
    ensures a == b
  {
    TypeStrRoundTrip(a);
    TypeStrRoundTrip(b);
  }
}
