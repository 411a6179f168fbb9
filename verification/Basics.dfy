/** What several modules share. */
module Basics {

  datatype Option<+T> = None | Some(value: T)

  predicate Distinct<T(==)>(s: seq<T>) {
    forall i, j :: 0 <= i < j < |s| ==> s[i] != s[j]
  }

  lemma Regroup<T>(a: seq<T>, b: seq<T>, c: seq<T>)
    ensures a + (b + c) == (a + b) + c
  {
  }

  // QString::replace of one character.
  function ReplaceChar(s: string, c: char, repl: string): string {
    if s == [] then [] else (if s[0] == c then repl else [s[0]]) + ReplaceChar(s[1..], c, repl)
  }

  function Pow(b: nat, n: nat): nat {
    if n == 0 then 1 else b * Pow(b, n - 1)
  }

  lemma {:induction false} PowMonotone(b: nat, m: nat, n: nat)
    requires b > 0 && m <= n
    ensures 0 < Pow(b, m) <= Pow(b, n)
    decreases n
  {
    if m < n {
      PowMonotone(b, m, n - 1);
      MulMonotone(Pow(b, n - 1), 1, b);
    } else if n > 0 {
      PowMonotone(b, m - 1, n - 1);
    }
  }

  lemma MulMonotone(n: nat, x: nat, y: nat)
    requires x <= y
    ensures n * x <= n * y && x * n <= y * n
  {
  }

  lemma MulSum(n: nat, x: nat, y: nat)
    ensures n * (x + y) == n * x + n * y && (x + y) * n == x * n + y * n
  {
  }

  /* ---- the elements of a list that are kept, in order ---- */

  function Filter<T>(s: seq<T>, keep: T -> bool): seq<T> {
    if s == [] then [] else (if keep(s[0]) then [s[0]] else []) + Filter(s[1..], keep)
  }

  lemma FilterFirst<T>(x: T, s: seq<T>, keep: T -> bool)
    ensures Filter([x] + s, keep) == (if keep(x) then [x] else []) + Filter(s, keep)
  {
    assert ([x] + s)[0] == x && ([x] + s)[1..] == s;
  }

  lemma FilterStep<T>(s: seq<T>, keep: T -> bool)
    requires s != []
    ensures Filter(s, keep) == (if keep(s[0]) then [s[0]] else []) + Filter(s[1..], keep)
  {
  }

  lemma FilterOne<T>(x: T, keep: T -> bool)
    ensures Filter([x], keep) == if keep(x) then [x] else []
  {
    FilterFirst(x, [], keep);
    assert [x] + [] == [x];
  }

  // Parts are filtered on their own.
  lemma {:induction false} FilterAppend<T>(a: seq<T>, b: seq<T>, keep: T -> bool)
    ensures Filter(a + b, keep) == Filter(a, keep) + Filter(b, keep)
    decreases |a|
  {
    if a == [] {
      assert a + b == b;
    } else {
      FilterAppend(a[1..], b, keep);
      assert a + b == [a[0]] + (a[1..] + b) && a == [a[0]] + a[1..];
      FilterFirst(a[0], a[1..] + b, keep);
      FilterFirst(a[0], a[1..], keep);
      hide Filter;
    }
  }

  lemma {:induction false} FilterTwice<T(!new)>(s: seq<T>, p: T -> bool, q: T -> bool, both: T -> bool)
    requires forall x :: both(x) <==> p(x) && q(x)
    ensures Filter(Filter(s, p), q) == Filter(s, both)
    decreases |s|
  {
    if s != [] {
      FilterTwice(s[1..], p, q, both);
      FilterStep(s, p);
      FilterStep(s, both);
      hide Filter;
      var f := Filter(s[1..], p);
      assert both(s[0]) <==> p(s[0]) && q(s[0]);
      if p(s[0]) { FilterFirst(s[0], f, q); } else { assert [] + f == f; }
    }
  }

  lemma {:induction false} FilterSame<T(!new)>(s: seq<T>, p: T -> bool, q: T -> bool)
    requires forall x :: p(x) <==> q(x)
    ensures Filter(s, p) == Filter(s, q)
    decreases |s|
  {
    if s != [] { FilterSame(s[1..], p, q); }
  }

  lemma {:induction false} FilterAll<T>(s: seq<T>, keep: T -> bool)
    requires forall x :: x in s ==> keep(x)
    ensures Filter(s, keep) == s
    decreases |s|
  {
    if s != [] { FilterAll(s[1..], keep); }
  }

  /* ---- texts that are cut at a separator ---- */

  function JoinedBy<T>(fields: seq<seq<T>>, sep: T): seq<T> {
    if fields == [] then [] else if |fields| == 1 then fields[0] else fields[0] + [sep] + JoinedBy(fields[1..], sep)
  }

  // No field holds the separator.
  predicate Fields<T(==)>(s: seq<T>, sep: T, fields: seq<seq<T>>) {
    s == JoinedBy(fields, sep) && forall i :: 0 <= i < |fields| ==> sep !in fields[i]
  }

  // Every element of all parts, in order.
  function Chars<T>(parts: seq<seq<T>>): seq<T> {
    if parts == [] then [] else parts[0] + Chars(parts[1..])
  }

  lemma {:induction false} CharsAppend<T>(a: seq<seq<T>>, b: seq<seq<T>>)
    ensures Chars(a + b) == Chars(a) + Chars(b)
    decreases |a|
  {
    if a == [] {
      assert a + b == b;
    } else {
      assert (a + b)[0] == a[0] && (a + b)[1..] == a[1..] + b;
      CharsAppend(a[1..], b);
    }
  }

  lemma CharsOne<T>(part: seq<T>)
    ensures Chars([part]) == part
  {
    assert [part][1..] == [];
  }

  /** Fields can be told apart: a text is cut in one way only. */
  lemma {:induction false} FieldsUnique<T>(s: seq<T>, sep: T, a: seq<seq<T>>, b: seq<seq<T>>)
    requires a != [] && b != [] && Fields(s, sep, a) && Fields(s, sep, b)
    ensures a == b
    decreases |a|
  {
    if |a| > 1 { FirstField(s, a[0], sep, JoinedBy(a[1..], sep)); }
    if |b| > 1 { FirstField(s, b[0], sep, JoinedBy(b[1..], sep)); }
    if |a| > 1 && |b| > 1 {
      assert |a[0]| == |b[0]|;
      FieldsUnique(s[|a[0]| + 1..], sep, a[1..], b[1..]);
      assert a == [a[0]] + a[1..] && b == [b[0]] + b[1..];
    }
  }

  lemma FirstField<T>(s: seq<T>, first: seq<T>, sep: T, rest: seq<T>)
    requires s == first + [sep] + rest && sep !in first
    ensures s[|first|] == sep && s[..|first|] == first && s[|first| + 1..] == rest && sep in s
    ensures forall i :: 0 <= i < |first| ==> s[i] != sep
  {
  }
}
