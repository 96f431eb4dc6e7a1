/** Decimal rendering of integers and `Array.prototype.join`, with the facts
    that make rendered identifiers unambiguous. */
module Text {

  function Digit(d: nat): (c: char)
    requires d < 10
    ensures '0' <= c <= '9' && c as int - '0' as int == d
  {
    ('0' as int + d) as char
  }

  predicate IsDigits(s: string)
  {
    forall i :: 0 <= i < |s| ==> '0' <= s[i] <= '9'
  }

  /** `Number.prototype.toString()` of a non-negative integer (below 1e21). */
  function NatText(n: nat): (s: string)
    ensures |s| >= 1 && IsDigits(s)
  {
    if n < 10 then [Digit(n)] else NatText(n / 10) + [Digit(n % 10)]
  }

  /** The number a string of decimal digits denotes. */
  function DigitsValue(s: string): nat
    requires IsDigits(s)
  {
    if s == [] then 0 else 10 * DigitsValue(s[..|s| - 1]) + (s[|s| - 1] as int - '0' as int)
  }

  lemma {:induction false} NatTextRoundTrip(n: nat)
    ensures DigitsValue(NatText(n)) == n
  {
    if n >= 10 {
      NatTextRoundTrip(n / 10);
      var s := NatText(n);
      assert s[..|s| - 1] == NatText(n / 10);
    }
  }

  lemma NatTextInjective(m: nat, n: nat)
    ensures NatText(m) == NatText(n) ==> m == n
  {
    NatTextRoundTrip(m);
    NatTextRoundTrip(n);
  }

  /** `Number.prototype.toString()` of an integer (magnitude below 1e21). */
  function IntText(i: int): (s: string)
    ensures |s| >= 1 && ',' !in s && ':' !in s && ']' !in s
  {
    if i < 0 then "-" + NatText(-i) else NatText(i)
  }

  lemma IntTextSign(i: int)
    ensures IntText(i)[0] == '-' <==> i < 0
  {
    if i >= 0 {
      assert IntText(i)[0] == NatText(i)[0];
    }
  }

  lemma IntTextInjective(i: int, j: int)
    ensures IntText(i) == IntText(j) ==> i == j
  {
    if IntText(i) == IntText(j) {
      IntTextSign(i);
      IntTextSign(j);
      if i < 0 {
        MinusTextInjective(-i, -j);
      } else {
        NatTextInjective(i, j);
      }
    }
  }

  lemma MinusTextInjective(m: nat, n: nat)
    requires "-" + NatText(m) == "-" + NatText(n)
    ensures m == n
  {
    assert NatText(m) == ("-" + NatText(m))[1..];
    NatTextInjective(m, n);
  }

  /** `Array.prototype.join(sep)` over strings. */
  function Join(parts: seq<string>, sep: string): string
  {
    if |parts| == 0 then ""
    else if |parts| == 1 then parts[0]
    else parts[0] + sep + Join(parts[1..], sep)
  }

  /** The position of the first `ch` in `s`. */
  function IndexOf(s: string, ch: char): nat
    requires ch in s
  {
    if s[0] == ch then 0 else 1 + IndexOf(s[1..], ch)
  }

  lemma {:induction false} IndexOfAfter(a: string, rest: string, ch: char)
    requires ch !in a && |rest| > 0 && rest[0] == ch
    ensures ch in a + rest && IndexOf(a + rest, ch) == |a|
  {
    assert (a + rest)[|a|] == ch;
    if a != [] {
      assert (a + rest)[1..] == a[1..] + rest;
      IndexOfAfter(a[1..], rest, ch);
    }
  }

  /** A separator whose first character occurs in neither left-hand side
      can be split off at its first occurrence. */
  lemma SplitAtFirst(a: string, b: string, c: string, d: string, sep: string)
    requires |sep| > 0 && sep[0] !in a && sep[0] !in c
    requires a + sep + b == c + sep + d
    ensures a == c && b == d
  {
    var s := a + sep + b;
    IndexOfAfter(a, sep + b, sep[0]);
    IndexOfAfter(c, sep + d, sep[0]);
    assert a + (sep + b) == s == c + (sep + d);
    assert a == s[..|a|] == c;
    assert b == s[|a| + |sep|..] == d;
  }

  ghost predicate Separable(parts: seq<string>, sep: string)
  {
    |sep| > 0 && forall i :: 0 <= i < |parts| ==> |parts[i]| > 0 && sep[0] !in parts[i]
  }

  /** How many parts a joined string has shows in the string itself. */
  lemma {:induction false} JoinShape(parts: seq<string>, sep: string)
    requires Separable(parts, sep)
    ensures Join(parts, sep) == "" <==> |parts| == 0
    ensures sep[0] in Join(parts, sep) <==> |parts| > 1
  {
    if |parts| > 1 {
      assert Join(parts, sep)[|parts[0]|] == sep[0];
    } else if |parts| == 1 {
      assert Join(parts, sep) == parts[0];
    }
  }

  /** Joining non-empty parts that do not contain the separator's first
      character loses nothing: the parts can be recovered. */
  lemma {:induction false} JoinInjective(xs: seq<string>, ys: seq<string>, sep: string)
    requires Separable(xs, sep) && Separable(ys, sep)
    requires Join(xs, sep) == Join(ys, sep)
    ensures xs == ys
    decreases |xs|
  {
    JoinShape(xs, sep);
    JoinShape(ys, sep);
    if |xs| > 1 {
      SplitAtFirst(xs[0], Join(xs[1..], sep), ys[0], Join(ys[1..], sep), sep);
      JoinInjective(xs[1..], ys[1..], sep);
      assert xs == [xs[0]] + xs[1..];
      assert ys == [ys[0]] + ys[1..];
    }
  }
}
