// A first-in-first-out listing of a graph, and when it keeps insertion order as its tie-break.
module TieBreak {
  import opened Ordering
  import opened PlanGraph
  import opened Toposort

  // ---------------------------------------------------------------- first come, first served

  // After these picks every prerequisite of `v` is listed.
  ghost predicate ReadyBy(es: seq<Edge>, picks: seq<Id>, v: Id) {
    forall e :: e in es && e.dst == v ==> e.src in picks
  }

  // Nobody in the line was ready, after any of the picks so far, while somebody further up was not.
  ghost predicate InTurn(es: seq<Edge>, ordered: seq<Id>, line: seq<Id>) {
    forall i, j, k :: 0 <= i < j < |line| && 0 <= k <= |ordered| && ReadyBy(es, ordered[..k], line[j]) ==>
      ReadyBy(es, ordered[..k], line[i])
  }

  ghost predicate FirstComeFirstServed(es: seq<Edge>, ordered: seq<Id>) {
    InTurn(es, ordered, ordered)
  }

  // Where a phase stands last among the dependents in a prerequisite's edge rows.
  function LastAt(targets: seq<Id>, v: Id): (i: int)
    ensures -1 <= i < |targets| && (i >= 0 ==> targets[i] == v)
  {
    if targets == [] then -1
    else if targets[|targets| - 1] == v then |targets| - 1
    else LastAt(targets[..|targets| - 1], v)
  }

  // The k-th pick was the last prerequisite.
  ghost predicate MadeReadyAt(es: seq<Edge>, ordered: seq<Id>, k: int, v: Id) {
    1 <= k <= |ordered| && ReadyBy(es, ordered[..k], v) && !ReadyBy(es, ordered[..k - 1], v)
  }

  // Phases made ready by the same pick stand in the order of that pick's edge rows.
  ghost predicate InRowOrder(es: seq<Edge>, ordered: seq<Id>, line: seq<Id>) {
    forall i, j, k ::
      0 <= i < j < |line| && MadeReadyAt(es, ordered, k, line[i]) && MadeReadyAt(es, ordered, k, line[j]) ==>
        LastAt(Targets(es, ordered[k - 1]), line[i]) < LastAt(Targets(es, ordered[k - 1]), line[j])
  }

  // The phases without prerequisites, in insertion order.
  ghost function Roots(ids: seq<Id>, es: seq<Edge>): seq<Id> {
    if ids == [] then []
    else
      Roots(ids[..|ids| - 1], es) + if ReadyBy(es, [], ids[|ids| - 1]) then [ids[|ids| - 1]] else []
  }

  // One more pick and the phases it made ready.
  lemma {:induction false} TurnIsKept(es: seq<Edge>, ordered: seq<Id>, queue: seq<Id>, more: seq<Id>)
    requires queue != [] && InTurn(es, ordered, ordered + queue)
    requires forall v :: v in ordered + queue ==> ReadyBy(es, ordered, v)
    requires forall v :: v in more ==> Edge(queue[0], v) in es && ReadyBy(es, ordered + [queue[0]], v)
    requires queue[0] !in ordered
    ensures InTurn(es, ordered + [queue[0]], (ordered + [queue[0]]) + (queue[1..] + more))
    ensures forall v :: v in (ordered + [queue[0]]) + (queue[1..] + more) ==> ReadyBy(es, ordered + [queue[0]], v)
  {
    var next := ordered + [queue[0]];
    var line := next + (queue[1..] + more);
    var before := ordered + queue;
    assert line == before + more;
    forall v, k | v in more && 0 <= k <= |ordered|
      ensures !ReadyBy(es, ordered[..k], v)
    {
      assert queue[0] !in ordered[..k];
    }
    forall v | v in line
      ensures ReadyBy(es, next, v)
    {
      if v in before {
        assert ReadyBy(es, ordered, v);
      }
    }
    assert forall m :: |before| <= m < |line| ==> line[m] in more;
    forall i, j, k | 0 <= i < j < |line| && 0 <= k <= |next| && ReadyBy(es, next[..k], line[j])
      ensures ReadyBy(es, next[..k], line[i])
    {
      assert line[i] in line;
      if k == |next| {
        assert next[..k] == next;
      } else {
        assert next[..k] == ordered[..k];
        assert j < |before|;
        assert line[j] == before[j] && line[i] == before[i];
      }
    }
  }

  lemma {:induction false} RowsAreKept(es: seq<Edge>, ordered: seq<Id>, queue: seq<Id>, more: seq<Id>)
    requires queue != [] && queue[0] !in ordered && InRowOrder(es, ordered, ordered + queue)
    requires forall v :: v in ordered + queue ==> ReadyBy(es, ordered, v)
    requires forall v :: v in more ==> Edge(queue[0], v) in es
    requires RowsAscend(Targets(es, queue[0]), more)
    ensures InRowOrder(es, ordered + [queue[0]], (ordered + queue) + more)
  {
    var next := ordered + [queue[0]];
    forall k, v | 0 <= k <= |ordered| && v in more
      ensures !ReadyBy(es, next[..k], v)
    {
      assert next[..k] == ordered[..k] && queue[0] !in ordered[..k];
    }
    var line := (ordered + queue) + more;
    forall i, j, k | 0 <= i < j < |line| && MadeReadyAt(es, next, k, line[i]) && MadeReadyAt(es, next, k, line[j])
      ensures LastAt(Targets(es, next[k - 1]), line[i]) < LastAt(Targets(es, next[k - 1]), line[j])
    {
      SamePick(es, ordered, queue, more, i, j, k);
    }
  }

  ghost predicate RowsAscend(targets: seq<Id>, more: seq<Id>) {
    forall i, j :: 0 <= i < j < |more| ==> LastAt(targets, more[i]) < LastAt(targets, more[j])
  }

  // Two phases made ready at once were so by an earlier pick, or both by this one.
  lemma {:induction false} SamePick(es: seq<Edge>, ordered: seq<Id>, queue: seq<Id>, more: seq<Id>, i: nat, j: nat,
                                    k: int)
    requires queue != [] && InRowOrder(es, ordered, ordered + queue)
    requires forall v :: v in ordered + queue ==> ReadyBy(es, ordered, v)
    requires forall m, v :: 0 <= m <= |ordered| && v in more ==> !ReadyBy(es, (ordered + [queue[0]])[..m], v)
    requires RowsAscend(Targets(es, queue[0]), more)
    requires var next, line := ordered + [queue[0]], (ordered + queue) + more;
             i < j < |line| && MadeReadyAt(es, next, k, line[i]) && MadeReadyAt(es, next, k, line[j])
    ensures var next, line := ordered + [queue[0]], (ordered + queue) + more;
            LastAt(Targets(es, next[k - 1]), line[i]) < LastAt(Targets(es, next[k - 1]), line[j])
  {
    var next, before := ordered + [queue[0]], ordered + queue;
    var line := before + more;
    if k <= |ordered| {
      assert next[..k] == ordered[..k] && next[..k - 1] == ordered[..k - 1] && next[k - 1] == ordered[k - 1];
      assert forall m :: |before| <= m < |line| ==> line[m] in more;
      assert j < |before|;
      assert line[i] == before[i] && line[j] == before[j];
      assert MadeReadyAt(es, ordered, k, before[i]) && MadeReadyAt(es, ordered, k, before[j]);
    } else {
      assert next[..k - 1] == ordered;
      assert forall m :: 0 <= m < |before| ==> line[m] in before;
      assert i >= |before|;
      assert line[i] == more[i - |before|] && line[j] == more[j - |before|];
    }
  }

  lemma {:induction false} LastIsHere(targets: seq<Id>, k: nat)
    requires k < |targets| && targets[k] !in targets[k + 1..]
    ensures LastAt(targets, targets[k]) == k
  {
    if k < |targets| - 1 {
      var init := targets[..|targets| - 1];
      assert targets[|targets| - 1] == targets[k + 1..][|targets| - k - 2];
      assert init[k + 1..] == targets[k + 1..][..|targets| - k - 2];
      LastIsHere(init, k);
    }
  }

  // ---------------------------------------------------------------- the promised tie-break

  // Each pick is the ready phase inserted first.
  ghost predicate EarliestFirst(ids: seq<Id>, es: seq<Edge>, ordered: seq<Id>) {
    forall i, j, a, b ::
        0 <= i < j < |ordered| && 0 <= a < b < |ids| && ordered[i] == ids[b] && ordered[j] == ids[a] ==>
      !ReadyBy(es, ordered[..i], ordered[j])
  }

  // Among phases without prerequisites insertion order is kept.
  lemma {:induction false} RootsKeepInsertionOrder(ids: seq<Id>, es: seq<Edge>, i: nat, j: nat) returns (a: nat, b: nat)
    requires i < j < |Roots(ids, es)|
    ensures a < b < |ids| && ids[a] == Roots(ids, es)[i] && ids[b] == Roots(ids, es)[j]
  {
    var init := ids[..|ids| - 1];
    if j < |Roots(init, es)| {
      a, b := RootsKeepInsertionOrder(init, es, i, j);
    } else {
      a := RootIsInserted(init, es, i);
      b := |ids| - 1;
    }
  }

  lemma {:induction false} RootIsInserted(ids: seq<Id>, es: seq<Edge>, i: nat) returns (a: nat)
    requires i < |Roots(ids, es)|
    ensures a < |ids| && ids[a] == Roots(ids, es)[i]
  {
    var init := ids[..|ids| - 1];
    if i < |Roots(init, es)| {
      a := RootIsInserted(init, es, i);
    } else {
      a := |ids| - 1;
    }
  }

  lemma {:induction false} RootsAreAll(ids: seq<Id>, es: seq<Edge>, v: Id)
    ensures v in Roots(ids, es) <==> v in ids && ReadyBy(es, [], v)
  {
    if ids != [] {
      assert ids == ids[..|ids| - 1] + [ids[|ids| - 1]];
      RootsAreAll(ids[..|ids| - 1], es, v);
    }
  }

  // What the pass produces on an acyclic graph.
  ghost predicate IsListing(ids: seq<Id>, es: seq<Edge>, ordered: seq<Id>) {
    && IsOrder(ids, es, ordered) && Roots(ids, es) <= ordered
    && FirstComeFirstServed(es, ordered) && InRowOrder(es, ordered, ordered)
  }

  ghost predicate IsOrder(ids: seq<Id>, es: seq<Edge>, ordered: seq<Id>) {
    && NoDuplicates(ordered) && (forall v :: v in ordered <==> v in ids)
    && Topological(EdgeSet(es), ordered)
  }

  // ---------------------------------------------------------------- the listing that keeps the tie-break

  ghost predicate CanPick(es: seq<Edge>, picks: seq<Id>, v: Id) {
    v !in picks && ReadyBy(es, picks, v)
  }

  // Of the phases inserted at `from` or later, the first that can be picked.
  ghost function NextIndex(ids: seq<Id>, es: seq<Edge>, picks: seq<Id>, from: nat): (r: nat)
    requires from <= |ids|
    ensures from <= r <= |ids| && (r < |ids| ==> CanPick(es, picks, ids[r]))
    ensures forall a :: from <= a < r ==> !CanPick(es, picks, ids[a])
    decreases |ids| - from
  {
    if from == |ids| || CanPick(es, picks, ids[from]) then from else NextIndex(ids, es, picks, from + 1)
  }

  // The first n picks when the ready phase inserted first is always taken.
  ghost function Picked(ids: seq<Id>, es: seq<Edge>, n: nat): seq<Id> {
    if n == 0 then []
    else
      var picks := Picked(ids, es, n - 1);
      var b := NextIndex(ids, es, picks, 0);
      if b < |ids| then picks + [ids[b]] else picks
  }

  ghost function EarliestListing(ids: seq<Id>, es: seq<Edge>): seq<Id> {
    Picked(ids, es, |ids|)
  }

  // Always taking the earliest happens to serve first come, first served, and in the order of the edge
  // rows what one pick made ready. This speaks of the stored phases and edges alone.
  ghost predicate KeepsTieBreak(ids: seq<Id>, es: seq<Edge>) {
    var p := EarliestListing(ids, es);
    FirstComeFirstServed(es, p) && InRowOrder(es, p, p)
  }

  ghost predicate GreedyAt(ids: seq<Id>, es: seq<Edge>, picks: seq<Id>, v: Id) {
    NextIndex(ids, es, picks, 0) < |ids| && v == ids[NextIndex(ids, es, picks, 0)]
  }

  ghost predicate Greedy(ids: seq<Id>, es: seq<Edge>, picks: seq<Id>) {
    forall i :: 0 <= i < |picks| ==> GreedyAt(ids, es, picks[..i], picks[i])
  }

  lemma {:induction false} PickedIsGreedy(ids: seq<Id>, es: seq<Edge>, n: nat)
    ensures Greedy(ids, es, Picked(ids, es, n))
  {
    if n > 0 {
      PickedIsGreedy(ids, es, n - 1);
      var before, after := Picked(ids, es, n - 1), Picked(ids, es, n);
      forall i | 0 <= i < |after|
        ensures GreedyAt(ids, es, after[..i], after[i])
      {
        assert after[..i] == before[..i];
        assert i == |before| ==> after[..i] == before;
      }
    }
  }

  lemma {:induction false} GreedyIsPicked(ids: seq<Id>, es: seq<Edge>, picks: seq<Id>, n: nat)
    requires Greedy(ids, es, picks) && n <= |picks|
    ensures Picked(ids, es, n) == picks[..n]
  {
    if n > 0 {
      assert picks[..n] == picks[..n - 1] + [picks[n - 1]];
      GreedyIsPicked(ids, es, picks, n - 1);
      OnePick(ids, es, picks[..n - 1], picks[n - 1], n);
    }
  }

  lemma {:induction false} OnePick(ids: seq<Id>, es: seq<Edge>, before: seq<Id>, v: Id, n: nat)
    requires n > 0 && Picked(ids, es, n - 1) == before && GreedyAt(ids, es, before, v)
    ensures Picked(ids, es, n) == before + [v]
  {
  }

  lemma {:induction false} EachIsReady(ids: seq<Id>, es: seq<Edge>, ordered: seq<Id>, i: nat)
    requires IsOrder(ids, es, ordered) && i < |ordered|
    ensures CanPick(es, ordered[..i], ordered[i])
  {
    forall e | e in es && e.dst == ordered[i]
      ensures e.src in ordered[..i]
    {
      assert e in EdgeSet(es);
    }
  }

  // An order that takes the earliest does so at every pick, and the other way round.
  lemma {:induction false} EarliestIsGreedy(ids: seq<Id>, es: seq<Edge>, ordered: seq<Id>, i: nat)
    requires NoDuplicates(ids) && IsOrder(ids, es, ordered) && EarliestFirst(ids, es, ordered) && i < |ordered|
    ensures GreedyAt(ids, es, ordered[..i], ordered[i])
  {
    EachIsReady(ids, es, ordered, i);
    assert ordered[i] in ordered;
    var b :| 0 <= b < |ids| && ids[b] == ordered[i];
    forall a | 0 <= a < b
      ensures !CanPick(es, ordered[..i], ids[a])
    {
      assert ids[a] in ids;
      var j :| 0 <= j < |ordered| && ordered[j] == ids[a];
      if j < i {
        assert ordered[..i][j] == ids[a];
      }
    }
    assert NextIndex(ids, es, ordered[..i], 0) == b;
  }

  lemma {:induction false} GreedyIsEarliest(ids: seq<Id>, es: seq<Edge>, ordered: seq<Id>)
    requires NoDuplicates(ids) && NoDuplicates(ordered) && Greedy(ids, es, ordered)
    ensures EarliestFirst(ids, es, ordered)
  {
    forall i, j, a, b | 0 <= i < j < |ordered| && 0 <= a < b < |ids| && ordered[i] == ids[b] && ordered[j] == ids[a]
      ensures !ReadyBy(es, ordered[..i], ordered[j])
    {
      assert GreedyAt(ids, es, ordered[..i], ordered[i]);
      assert NextIndex(ids, es, ordered[..i], 0) == b;
      assert !CanPick(es, ordered[..i], ids[a]);
    }
  }

  // ---------------------------------------------------------------- there is one such listing

  // The first phase of an order that is not among the picks can be picked.
  lemma {:induction false} SomeoneCanBePicked(ids: seq<Id>, es: seq<Edge>, ordered: seq<Id>, picks: seq<Id>, m: nat)
    returns (i: nat)
    requires IsOrder(ids, es, ordered) && m < |ordered| && ordered[m] !in picks
    ensures i < |ordered| && CanPick(es, picks, ordered[i])
  {
    if forall v :: v in ordered[..m] ==> v in picks {
      EachIsReady(ids, es, ordered, m);
      i := m;
    } else {
      var v :| v in ordered[..m] && v !in picks;
      var k :| 0 <= k < m && ordered[k] == v;
      i := SomeoneCanBePicked(ids, es, ordered, picks, k);
    }
  }

  lemma {:induction false} PickedGrows(ids: seq<Id>, es: seq<Edge>, ordered: seq<Id>, n: nat)
    requires NoDuplicates(ids) && IsOrder(ids, es, ordered) && n <= |ids| == |ordered|
    ensures |Picked(ids, es, n)| == n && NoDuplicates(Picked(ids, es, n))
    ensures forall v :: v in Picked(ids, es, n) ==> v in ids
  {
    if n > 0 {
      PickedGrows(ids, es, ordered, n - 1);
      var picks := Picked(ids, es, n - 1);
      if forall v :: v in ordered ==> v in picks {
        Pigeonhole(ordered, set v | v in picks);
        DistinctCount(picks, set v | v in picks);
      }
      var v :| v in ordered && v !in picks;
      var m :| 0 <= m < |ordered| && ordered[m] == v;
      var i := SomeoneCanBePicked(ids, es, ordered, picks, m);
      assert ordered[i] in ids;
      var a :| 0 <= a < |ids| && ids[a] == ordered[i];
    }
  }

  lemma {:induction false} SameLength(ids: seq<Id>, ordered: seq<Id>)
    requires NoDuplicates(ids) && NoDuplicates(ordered) && forall v :: v in ordered <==> v in ids
    ensures |ids| == |ordered|
  {
    DistinctCount(ids, set v | v in ids);
    DistinctCount(ordered, set v | v in ids);
  }

  lemma {:induction false} EarliestListingIsOrder(ids: seq<Id>, es: seq<Edge>, ordered: seq<Id>)
    requires NoDuplicates(ids) && IsOrder(ids, es, ordered)
    ensures IsOrder(ids, es, EarliestListing(ids, es)) && |EarliestListing(ids, es)| == |ids| == |ordered|
    ensures Greedy(ids, es, EarliestListing(ids, es))
  {
    SameLength(ids, ordered);
    PickedGrows(ids, es, ordered, |ids|);
    PickedIsGreedy(ids, es, |ids|);
    var p := EarliestListing(ids, es);
    var all, got := set v | v in ids, set v | v in p;
    DistinctCount(ids, all);
    DistinctCount(p, got);
    SubsetOfSameSize(got, all);
    assert forall v :: v in p <==> v in got;
    assert forall v :: v in ids <==> v in all;
    forall i, e | 0 <= i < |p| && e in EdgeSet(es) && e.dst == p[i]
      ensures e.src in p[..i]
    {
      assert GreedyAt(ids, es, p[..i], p[i]);
    }
  }

  // ---------------------------------------------------------------- the exact condition

  lemma {:induction false} LeastReady(es: seq<Edge>, o: seq<Id>, n: nat, v: Id) returns (k: nat)
    requires n <= |o| && ReadyBy(es, o[..n], v)
    ensures k <= n && ReadyBy(es, o[..k], v) && (k > 0 ==> !ReadyBy(es, o[..k - 1], v))
  {
    if n == 0 || !ReadyBy(es, o[..n - 1], v) {
      k := n;
    } else {
      k := LeastReady(es, o, n - 1, v);
    }
  }

  // Where two listings part, the two phases became ready at the same pick.
  lemma {:induction false} ReadyAtOnce(es: seq<Edge>, o: seq<Id>, p: seq<Id>, n: nat, i: nat, j: nat) returns (k: nat)
    requires FirstComeFirstServed(es, o) && FirstComeFirstServed(es, p)
    requires n < i < |p| && n < j < |o| && o[..n] == p[..n] && o[n] == p[i] && p[n] == o[j]
    requires ReadyBy(es, o[..n], o[n])
    ensures k <= n && o[..k] == p[..k] && ReadyBy(es, o[..k], o[n]) && ReadyBy(es, o[..k], o[j])
    ensures k > 0 ==> MadeReadyAt(es, o, k, o[n]) && MadeReadyAt(es, o, k, o[j])
    ensures k > 0 ==> MadeReadyAt(es, p, k, p[n]) && MadeReadyAt(es, p, k, p[i]) && o[k - 1] == p[k - 1]
  {
    k := LeastReady(es, o, n, o[n]);
    assert o[..k] == o[..n][..k] && p[..k] == p[..n][..k];
    assert ReadyBy(es, p[..k], p[i]);
    if k > 0 {
      assert o[..k - 1] == o[..n][..k - 1] && p[..k - 1] == p[..n][..k - 1];
      assert o[k - 1] == o[..n][k - 1] && p[k - 1] == p[..n][k - 1];
      assert !ReadyBy(es, o[..k - 1], o[n]);
      assert !ReadyBy(es, o[..k - 1], o[j]);
    }
  }

  // Two phases without prerequisites stand in a listing as they were inserted.
  lemma {:induction false} RootsAsInserted(ids: seq<Id>, es: seq<Edge>, o: seq<Id>, n: nat, j: nat)
    returns (a: nat, b: nat)
    requires IsOrder(ids, es, o) && Roots(ids, es) <= o && n < j < |o| && ReadyBy(es, [], o[j])
    ensures a < b < |ids| && ids[a] == o[n] && ids[b] == o[j]
  {
    assert o[j] in o;
    RootsAreAll(ids, es, o[j]);
    var m :| 0 <= m < |Roots(ids, es)| && Roots(ids, es)[m] == o[j];
    assert o[m] == o[j];
    a, b := RootsKeepInsertionOrder(ids, es, n, j);
  }

  // Whoever was inserted before the one taken could not be taken.
  lemma {:induction false} NobodyEarlier(ids: seq<Id>, es: seq<Edge>, p: seq<Id>, n: nat, a: nat, b: nat)
    requires NoDuplicates(ids) && Greedy(ids, es, p) && n < |p| && a < b < |ids| && ids[b] == p[n]
    ensures !CanPick(es, p[..n], ids[a])
  {
    assert GreedyAt(ids, es, p[..n], p[n]);
    assert NextIndex(ids, es, p[..n], 0) == b;
  }

  lemma {:induction false} LaterIn(ids: seq<Id>, es: seq<Edge>, o: seq<Id>, p: seq<Id>, n: nat) returns (j: nat)
    requires IsOrder(ids, es, o) && IsOrder(ids, es, p) && n < |o| && n < |p|
    requires o[..n] == p[..n] && o[n] != p[n]
    ensures n < j < |o| && o[j] == p[n]
  {
    forall m | 0 <= m < n
      ensures o[m] != p[n]
    {
      assert o[m] == o[..n][m] && p[m] == p[..n][m];
    }
    assert p[n] in p;
    j :| 0 <= j < |o| && o[j] == p[n];
  }

  // Where the two became ready at once, the edge rows do not have them both ways round.
  lemma {:induction false} RowsDecide(es: seq<Edge>, o: seq<Id>, p: seq<Id>, n: nat, i: nat, j: nat, k: nat)
    requires InRowOrder(es, o, o) && InRowOrder(es, p, p)
    requires n < i < |p| && n < j < |o| && o[n] == p[i] && p[n] == o[j]
    requires MadeReadyAt(es, o, k, o[n]) && MadeReadyAt(es, o, k, o[j])
    requires MadeReadyAt(es, p, k, p[n]) && o[k - 1] == p[k - 1]
    ensures !MadeReadyAt(es, p, k, p[i])
  {
  }

  lemma {:induction false} SameNextPick(ids: seq<Id>, es: seq<Edge>, o: seq<Id>, p: seq<Id>, n: nat)
    requires NoDuplicates(ids) && IsListing(ids, es, o)
    requires IsOrder(ids, es, p) && Greedy(ids, es, p) && FirstComeFirstServed(es, p) && InRowOrder(es, p, p)
    requires n < |o| && n < |p| && o[..n] == p[..n]
    ensures o[n] == p[n]
  {
    if o[n] != p[n] {
      var j := LaterIn(ids, es, o, p, n);
      var i := LaterIn(ids, es, p, o, n);
      EachIsReady(ids, es, o, n);
      var k := ReadyAtOnce(es, o, p, n, i, j);
      if k == 0 {
        assert o[..0] == [];
        var a, b := RootsAsInserted(ids, es, o, n, j);
        NobodyEarlier(ids, es, p, n, a, b);
      } else {
        RowsDecide(es, o, p, n, i, j, k);
      }
    }
  }

  lemma {:induction false} FirstDifference(o: seq<Id>, p: seq<Id>, n: nat) returns (m: nat)
    requires n <= |o| == |p|
    ensures m <= n && o[..m] == p[..m] && (m < n ==> o[m] != p[m])
  {
    m := 0;
    while m < n && o[m] == p[m]
      invariant m <= n && forall i :: 0 <= i < m ==> o[i] == p[i]
    {
      m := m + 1;
    }
  }

  // Two listings that serve alike start alike, however far one looks.
  lemma {:induction false} SamePicks(ids: seq<Id>, es: seq<Edge>, o: seq<Id>, p: seq<Id>, n: nat)
    requires NoDuplicates(ids) && IsListing(ids, es, o)
    requires IsOrder(ids, es, p) && Greedy(ids, es, p) && FirstComeFirstServed(es, p) && InRowOrder(es, p, p)
    requires n <= |o| == |p|
    ensures o[..n] == p[..n]
  {
    var m := FirstDifference(o, p, n);
    if m < n {
      SameNextPick(ids, es, o, p, m);
    }
  }

  // The listing keeps insertion order as its tie-break exactly when always taking the earliest phase
  // would serve first come, first served and in the order of the edge rows. It is that listing then.
  lemma {:induction false} TieBreakExactly(ids: seq<Id>, es: seq<Edge>, ordered: seq<Id>)
    requires NoDuplicates(ids) && IsListing(ids, es, ordered)
    ensures EarliestFirst(ids, es, ordered) <==> KeepsTieBreak(ids, es)
    ensures EarliestFirst(ids, es, ordered) <==> ordered == EarliestListing(ids, es)
  {
    var p := EarliestListing(ids, es);
    EarliestListingIsOrder(ids, es, ordered);
    GreedyIsEarliest(ids, es, p);
    if EarliestFirst(ids, es, ordered) {
      forall i | 0 <= i < |ordered|
        ensures GreedyAt(ids, es, ordered[..i], ordered[i])
      {
        EarliestIsGreedy(ids, es, ordered, i);
      }
      GreedyIsPicked(ids, es, ordered, |ordered|);
      assert ordered[..|ordered|] == ordered;
    }
    if KeepsTieBreak(ids, es) {
      SamePicks(ids, es, ordered, p, |ordered|);
      assert ordered[..|ordered|] == ordered && p[..|ordered|] == p;
    }
  }

  // Here the tie-break is lost: "x" was inserted before "y" and is ready before "y" is
  // picked, yet every listing that serves first come, first served has "y" first.
  lemma {:induction false} TieBreakIsLost(ordered: seq<Id>)
    requires IsListing(["a", "b", "x", "y"], [Edge("a", "y"), Edge("b", "x")], ordered)
    ensures ordered == ["a", "b", "y", "x"]
    ensures !EarliestFirst(["a", "b", "x", "y"], [Edge("a", "y"), Edge("b", "x")], ordered)
    ensures !KeepsTieBreak(["a", "b", "x", "y"], [Edge("a", "y"), Edge("b", "x")])
  {
    FourRoots();
    FourPhases(ordered);
    YIsReadyFirst(ordered);
    var ids, es := ["a", "b", "x", "y"], [Edge("a", "y"), Edge("b", "x")];
    assert ordered[2] == ids[3] && ordered[3] == ids[2];
    assert !EarliestFirst(ids, es, ordered);
    TieBreakExactly(ids, es, ordered);
  }

  // One edge is enough: "v" was inserted before "w", and is picked after it.
  lemma {:induction false} OneEdgeLosesIt(ordered: seq<Id>)
    requires IsListing(["a", "v", "w"], [Edge("a", "v")], ordered)
    ensures !EarliestFirst(["a", "v", "w"], [Edge("a", "v")], ordered)
    ensures !KeepsTieBreak(["a", "v", "w"], [Edge("a", "v")])
  {
    var ids, es := ["a", "v", "w"], [Edge("a", "v")];
    assert es[0] == Edge("a", "v");
    SameLength(ids, ordered);
    RootsAreAll(ids, es, "a");
    RootsAreAll(ids, es, "w");
    RootsAreAll(ids, es, "v");
    assert ids[0] == "a" && ids[1] == "v" && ids[2] == "w";
    TwoRoots();
    assert ordered[0] == "a" && ordered[1] == "w";
    assert ordered[2] in ordered;
    assert ordered[2] == "v";
    assert ordered[..1] == ["a"];
    assert ReadyBy(es, ordered[..1], ordered[2]);
    TieBreakExactly(ids, es, ordered);
  }

  lemma {:induction false} TwoRoots()
    ensures Roots(["a", "v", "w"], [Edge("a", "v")]) == ["a", "w"]
  {
    var es := [Edge("a", "v")];
    assert es[0] == Edge("a", "v");
    assert ["a", "v", "w"][..2] == ["a", "v"] && ["a", "v"][..1] == ["a"] && ["a"][..0] == [];
    assert Roots(["a"], es) == ["a"];
    assert Roots(["a", "v"], es) == ["a"];
  }

  lemma {:induction false} YIsReadyFirst(ordered: seq<Id>)
    requires ["a", "b"] <= ordered && |ordered| == 4
    ensures var es := [Edge("a", "y"), Edge("b", "x")];
            ReadyBy(es, ordered[..1], "y") && !ReadyBy(es, ordered[..1], "x") && ReadyBy(es, ordered[..2], "x")
  {
    var es := [Edge("a", "y"), Edge("b", "x")];
    assert ordered[..1] == ["a"] && ordered[..2] == ["a", "b"];
    assert es[1] == Edge("b", "x") && Edge("b", "x") in es && "b" !in ["a"];
  }

  lemma {:induction false} FourRoots()
    ensures Roots(["a", "b", "x", "y"], [Edge("a", "y"), Edge("b", "x")]) == ["a", "b"]
  {
    var es := [Edge("a", "y"), Edge("b", "x")];
    assert Edge("a", "y") in es && Edge("b", "x") in es;
    assert ["a", "b", "x", "y"][..3] == ["a", "b", "x"] && ["a", "b", "x"][..2] == ["a", "b"];
    assert ["a", "b"][..1] == ["a"] && ["a"][..0] == [];
    assert Roots(["a"], es) == ["a"];
    assert Roots(["a", "b"], es) == ["a", "b"];
    assert !ReadyBy(es, [], "x") && !ReadyBy(es, [], "y");
    assert Roots(["a", "b", "x"], es) == ["a", "b"];
  }

  // Four phases, two of them in front: two listings are left.
  lemma {:induction false} FourPhases(ordered: seq<Id>)
    requires NoDuplicates(ordered) && (forall v :: v in ordered <==> v in ["a", "b", "x", "y"]) && ["a", "b"] <= ordered
    ensures ordered == ["a", "b", "x", "y"] || ordered == ["a", "b", "y", "x"]
  {
    DistinctCount(["a", "b", "x", "y"], {"a", "b", "x", "y"});
    DistinctCount(ordered, {"a", "b", "x", "y"});
    assert ordered[0] == "a" && ordered[1] == "b";
    assert ordered[2] in ordered && ordered[3] in ordered;
    assert ordered[2] in {"x", "y"} && ordered[3] in {"x", "y"};
  }
}
