/** Small shared vocabulary: optional values and the byte order on strings. */
module Basics {

  datatype Option<+T> = None | Some(value: T)

  /** Go's `<` on strings. */
  predicate StrLess(a: string, b: string) {
    if b == [] then false
    else if a == [] then true
    else if a[0] != b[0] then a[0] < b[0]
    else StrLess(a[1..], b[1..])
  }

  lemma {:induction false} StrLessTotal(a: string, b: string)
    ensures a == b || StrLess(a, b) || StrLess(b, a)
    ensures !(StrLess(a, b) && StrLess(b, a))
    ensures !StrLess(a, a)
  {
    if a != [] && b != [] && a[0] == b[0] {
      StrLessTotal(a[1..], b[1..]);
      assert a == [a[0]] + a[1..] && b == [b[0]] + b[1..];
    }
    if a != [] {
      StrLessTotal(a[1..], a[1..]);
    }
  }

  lemma {:induction false} StrLessTransitive(a: string, b: string, c: string)
    requires StrLess(a, b) && StrLess(b, c)
    ensures StrLess(a, c)
  {
    if a != [] && a[0] == b[0] && b[0] == c[0] {
      StrLessTransitive(a[1..], b[1..], c[1..]);
    }
  }

  function Min(a: int, b: int): int {
    if a < b then a else b
  }

  // ---------------------------------------------------------------- sums and counts over a list

  function SumBy<T>(s: seq<T>, value: T -> int): int {
    if s == [] then 0 else value(s[0]) + SumBy(s[1..], value)
  }

  function RealSumBy<T>(s: seq<T>, value: T -> real): real {
    if s == [] then 0.0 else value(s[0]) + RealSumBy(s[1..], value)
  }

  function CountBy<T>(s: seq<T>, holds: T -> bool): nat {
    if s == [] then 0 else (if holds(s[0]) then 1 else 0) + CountBy(s[1..], holds)
  }

  lemma {:induction false} SumBySnoc<T>(s: seq<T>, x: T, value: T -> int)
    ensures SumBy(s + [x], value) == SumBy(s, value) + value(x)
  {
    if s == [] {
      assert [x][1..] == [];
      assert s + [x] == [x];
    } else {
      assert (s + [x])[1..] == s[1..] + [x];
      SumBySnoc(s[1..], x, value);
    }
  }

  lemma {:induction false} RealSumBySnoc<T>(s: seq<T>, x: T, value: T -> real)
    ensures RealSumBy(s + [x], value) == RealSumBy(s, value) + value(x)
  {
    if s == [] {
      assert [x][1..] == [];
      assert s + [x] == [x];
    } else {
      assert (s + [x])[1..] == s[1..] + [x];
      RealSumBySnoc(s[1..], x, value);
    }
  }

  lemma {:induction false} CountBySnoc<T>(s: seq<T>, x: T, holds: T -> bool)
    ensures CountBy(s + [x], holds) == CountBy(s, holds) + if holds(x) then 1 else 0
  {
    if s == [] {
      assert [x][1..] == [];
      assert s + [x] == [x];
    } else {
      assert (s + [x])[1..] == s[1..] + [x];
      CountBySnoc(s[1..], x, holds);
    }
  }

  ghost function ElementOf<T(!new)>(s: set<T>): (x: T)
    requires s != {}
    ensures x in s
  {
    var x :| x in s;
    x
  }

  /** The next key of a Go map iteration: any one of those not visited yet. */
  method AnyOf<T(==)>(s: set<T>) returns (x: T)
    requires s != {}
    ensures x in s
  {
    x :| x in s;
  }

  /** unicode.IsSpace */
  predicate IsSpace(c: char) {
    '\U{9}' <= c <= '\U{D}' || c in " \U{85}\U{A0}\U{1680}\U{2028}\U{2029}\U{202F}\U{205F}\U{3000}"
    || '\U{2000}' <= c <= '\U{200A}'
  }
}
