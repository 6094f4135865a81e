// The order Python's `sorted` and `list.sort` use on unit ids and branch names.
module Ordering {

  // Lexicographic order on strings, by code point.
  predicate Leq(a: string, b: string) {
    a == "" || (b != "" && (a[0] < b[0] || (a[0] == b[0] && Leq(a[1..], b[1..]))))
  }

  lemma {:induction false} LeqTotal(a: string, b: string)
    ensures Leq(a, b) || Leq(b, a)
  {
    if a != "" && b != "" {
      LeqTotal(a[1..], b[1..]);
    }
  }

  lemma {:induction false} LeqAntisymmetric(a: string, b: string)
    requires Leq(a, b) && Leq(b, a)
    ensures a == b
  {
    if a != "" && b != "" {
      LeqAntisymmetric(a[1..], b[1..]);
      assert a == [a[0]] + a[1..] && b == [b[0]] + b[1..];
    }
  }

  lemma {:induction false} LeqTransitive(a: string, b: string, c: string)
    requires Leq(a, b) && Leq(b, c)
    ensures Leq(a, c)
  {
    if a != "" && a[0] == c[0] {
      LeqTransitive(a[1..], b[1..], c[1..]);
    }
  }

  predicate Sorted(s: seq<string>) {
    forall i, j :: 0 <= i < j < |s| ==> Leq(s[i], s[j])
  }

  ghost predicate NoDuplicates<T>(s: seq<T>) {
    forall i, j :: 0 <= i < j < |s| ==> s[i] != s[j]
  }

  // Appending `x` to a sorted list and sorting it again.
  function Insert(x: string, s: seq<string>): (r: seq<string>)
    requires Sorted(s)
    ensures Sorted(r)
    ensures forall y :: y in r <==> y == x || y in s
    ensures |r| == |s| + 1
    ensures NoDuplicates(s) && x !in s ==> NoDuplicates(r)
  {
    if s == [] then [x]
    else if Leq(x, s[0]) then
      SmallestFirst(x, s);
      [x] + s
    else
      LeqTotal(x, s[0]);
      assert s == [s[0]] + s[1..];
      var rest := Insert(x, s[1..]);
      LargerRest(x, s, rest);
      [s[0]] + rest
  }

  lemma {:induction false} SmallestFirst(x: string, s: seq<string>)
    requires Sorted(s) && s != [] && Leq(x, s[0])
    ensures Sorted([x] + s)
  {
    forall j | 0 < j < |s| ensures Leq(x, s[j]) {
      LeqTransitive(x, s[0], s[j]);
    }
  }

  lemma {:induction false} LargerRest(x: string, s: seq<string>, rest: seq<string>)
    requires Sorted(s) && s != [] && Leq(s[0], x) && Sorted(rest)
    requires forall y :: y in rest <==> y == x || y in s[1..]
    ensures Sorted([s[0]] + rest)
    ensures NoDuplicates(s) && x !in s && NoDuplicates(rest) ==> NoDuplicates([s[0]] + rest)
  {
    forall j | 0 <= j < |rest| ensures Leq(s[0], rest[j]) {
      assert rest[j] in rest;
      if rest[j] != x {
        var i :| 0 <= i < |s[1..]| && s[1..][i] == rest[j];
        assert Leq(s[0], s[i + 1]);
      }
    }
    if NoDuplicates(s) && x !in s && NoDuplicates(rest) {
      assert s[0] !in s[1..];
      assert s[0] !in rest;
    }
  }

  // A list without repetitions that draws from a finite set is no longer than the set.
  lemma {:induction false} Pigeonhole<T>(s: seq<T>, bound: set<T>)
    requires NoDuplicates(s)
    requires forall x :: x in s ==> x in bound
    ensures |s| <= |bound|
  {
    if s != [] {
      var last := s[|s| - 1];
      var init := s[..|s| - 1];
      forall x | x in init ensures x in bound - {last} {
        var i :| 0 <= i < |init| && init[i] == x;
        assert s[i] != s[|s| - 1];
      }
      Pigeonhole(init, bound - {last});
    }
  }
}
