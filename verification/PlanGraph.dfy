// Directed graphs of units (phases or stages): walks, cycles and topological orders.
module PlanGraph {
  import opened Ordering

  type Id = string

  // A dependency edge: `dst` waits for `src`.
  datatype Edge = Edge(src: Id, dst: Id)

  ghost predicate IsWalk(es: set<Edge>, p: seq<Id>) {
    p != [] && forall i :: 0 <= i < |p| - 1 ==> Edge(p[i], p[i + 1]) in es
  }

  ghost predicate IsCycle(es: set<Edge>, p: seq<Id>) {
    |p| >= 2 && IsWalk(es, p) && p[0] == p[|p| - 1]
  }

  ghost predicate Acyclic(es: set<Edge>) {
    forall p :: !IsCycle(es, p)
  }

  // Some cycle has a walk (of any length, also zero) to `v`.
  ghost predicate InOrBehindCycle(es: set<Edge>, v: Id) {
    exists c, w :: IsCycle(es, c) && IsWalk(es, w) && w[0] == c[0] && w[|w| - 1] == v
  }

  // Every prerequisite of a listed unit is listed before it.
  ghost predicate Topological(es: set<Edge>, order: seq<Id>) {
    forall i, e :: 0 <= i < |order| && e in es && e.dst == order[i] ==> e.src in order[..i]
  }

  // ---------------------------------------------------------------- no progress means a cycle

  ghost predicate HasPrerequisiteIn(es: set<Edge>, r: set<Id>, v: Id) {
    exists e :: e in es && e.dst == v && e.src in r
  }

  ghost predicate Stuck(es: set<Edge>, r: set<Id>) {
    forall v {:trigger HasPrerequisiteIn(es, r, v)} :: v in r ==> HasPrerequisiteIn(es, r, v)
  }

  // A walk of any length that ends in `v` and stays inside `r`.
  lemma {:induction false} WalkBack(es: set<Edge>, r: set<Id>, v: Id, n: nat) returns (w: seq<Id>)
    requires v in r && Stuck(es, r)
    ensures IsWalk(es, w) && |w| == n + 1 && w[n] == v
    ensures forall x :: x in w ==> x in r
    decreases n
  {
    if n == 0 {
      w := [v];
    } else {
      assert HasPrerequisiteIn(es, r, v);
      var e :| e in es && e.dst == v && e.src in r;
      var rest := WalkBack(es, r, e.src, n - 1);
      w := rest + [v];
      assert e == Edge(rest[n - 1], v);
    }
  }

  // A walk that visits a unit twice has gone round a cycle.
  lemma {:induction false} RepeatedVisit(es: set<Edge>, w: seq<Id>, i: nat, j: nat)
    requires IsWalk(es, w) && i < j < |w| && w[i] == w[j]
    ensures InOrBehindCycle(es, w[|w| - 1])
  {
    var c := w[i..j + 1];
    var tail := w[j..];
    assert forall k :: 0 <= k < |c| ==> c[k] == w[i + k];
    assert IsCycle(es, c);
    assert forall k :: 0 <= k < |tail| ==> tail[k] == w[j + k];
    assert IsWalk(es, tail) && tail[0] == c[0] && tail[|tail| - 1] == w[|w| - 1];
  }

  // Units that each have a prerequisite among themselves are all in or behind a cycle.
  lemma {:induction false} StuckUnitsAreBehindCycle(es: set<Edge>, r: set<Id>, v: Id)
    requires v in r && Stuck(es, r)
    ensures InOrBehindCycle(es, v)
  {
    var w := WalkBack(es, r, v, |r|);
    if NoDuplicates(w) {
      Pigeonhole(w, r);
    }
    var i, j :| 0 <= i < j < |w| && w[i] == w[j];
    RepeatedVisit(es, w, i, j);
  }

  // ---------------------------------------------------------------- an order rules cycles out

  // Walking backwards from a listed unit stays in the list and moves strictly towards its front.
  lemma {:induction false} WalkIsOrdered(es: set<Edge>, order: seq<Id>, w: seq<Id>, k: nat) returns (i: nat)
    requires Topological(es, order) && IsWalk(es, w)
    requires k < |order| && order[k] == w[|w| - 1]
    ensures i <= k && order[i] == w[0]
    ensures |w| > 1 ==> i < k
    decreases |w|
  {
    if |w| == 1 {
      i := k;
    } else {
      var n := |w|;
      assert Edge(w[n - 2], w[n - 2 + 1]) in es;
      assert w[n - 2] in order[..k];
      var j :| 0 <= j < k && order[j] == w[n - 2];
      i := WalkIsOrdered(es, order, w[..n - 1], j);
    }
  }

  lemma {:induction false} CyclesAvoidOrder(es: set<Edge>, order: seq<Id>, v: Id)
    requires Topological(es, order) && NoDuplicates(order)
    requires InOrBehindCycle(es, v)
    ensures v !in order
  {
    var c, w :| IsCycle(es, c) && IsWalk(es, w) && w[0] == c[0] && w[|w| - 1] == v;
    if v in order {
      var k :| 0 <= k < |order| && order[k] == v;
      var i := WalkIsOrdered(es, order, w, k);
      var j := WalkIsOrdered(es, order, c, i);
      assert false;
    }
  }

  lemma {:induction false} CycleMembersAreBehindCycle(es: set<Edge>, c: seq<Id>)
    requires IsCycle(es, c)
    ensures InOrBehindCycle(es, c[0])
  {
    assert IsWalk(es, [c[0]]);
    var w := [c[0]];
    assert w[|w| - 1] == c[0];
  }

  lemma {:induction false} NoEdgesNoCycle(es: set<Edge>)
    requires es == {}
    ensures Acyclic(es)
  {
    forall p ensures !IsCycle(es, p) {
      if |p| >= 2 {
        assert Edge(p[0], p[0 + 1]) !in es;
      }
    }
  }
}
