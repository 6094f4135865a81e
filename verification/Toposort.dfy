// Kahn's algorithm as the plan validators run it: an in-degree table, an adjacency table and a
// sorted list of ready units, over the edges whose endpoints are both known units.
module Toposort {
  import opened Ordering
  import opened PlanGraph

  datatype Verdict = Accepted | Cyclic(units: seq<Id>)

  // The edges inside the plan; an edge with a foreign endpoint is skipped.
  function Induced(nodes: seq<Id>, edges: seq<Edge>): (r: seq<Edge>)
    ensures forall e :: e in r <==> e in edges && e.src in nodes && e.dst in nodes
  {
    if edges == [] then []
    else
      var last := edges[|edges| - 1];
      Induced(nodes, edges[..|edges| - 1])
      + if last.src in nodes && last.dst in nodes then [last] else []
  }

  // How many edges into `v` start outside `done`.
  function InCount(es: seq<Edge>, v: Id, done: set<Id>): nat {
    if es == [] then 0
    else
      var last := es[|es| - 1];
      InCount(es[..|es| - 1], v, done) + if last.dst == v && last.src !in done then 1 else 0
  }

  function Targets(es: seq<Edge>, u: Id): (r: seq<Id>)
    ensures forall v :: v in r <==> Edge(u, v) in es
  {
    if es == [] then []
    else
      var last := es[|es| - 1];
      Targets(es[..|es| - 1], u) + if last.src == u then [last.dst] else []
  }

  lemma {:induction false} ZeroInCount(es: seq<Edge>, v: Id, done: set<Id>)
    ensures InCount(es, v, done) == 0 <==> forall e :: e in es && e.dst == v ==> e.src in done
  {
    if es != [] {
      ZeroInCount(es[..|es| - 1], v, done);
      assert es == es[..|es| - 1] + [es[|es| - 1]];
    }
  }

  // Finishing `u` releases one pending edge per occurrence of `v` among the targets of `u`.
  lemma {:induction false} InCountAfter(es: seq<Edge>, v: Id, done: set<Id>, u: Id)
    requires u !in done
    ensures InCount(es, v, done) == InCount(es, v, done + {u}) + multiset(Targets(es, u))[v]
  {
    if es != [] {
      InCountAfter(es[..|es| - 1], v, done, u);
    }
  }

  lemma {:induction false} InducedStep(nodes: seq<Id>, edges: seq<Edge>, i: nat)
    requires i < |edges|
    ensures Induced(nodes, edges[..i + 1])
         == Induced(nodes, edges[..i]) + if edges[i].src in nodes && edges[i].dst in nodes then [edges[i]] else []
  {
    assert edges[..i + 1][..i] == edges[..i];
  }

  // The units that may be taken next: not taken yet, all prerequisites taken.
  ghost predicate ReadyAfter(nodes: seq<Id>, es: seq<Edge>, order: seq<Id>, v: Id) {
    v in nodes && v !in order && forall e :: e in es && e.dst == v ==> e.src in order
  }

  // Each pick is a ready unit, and the least one in id order.
  ghost predicate LeastFirst(nodes: seq<Id>, es: seq<Edge>, order: seq<Id>) {
    forall i :: 0 <= i < |order| ==>
      && ReadyAfter(nodes, es, order[..i], order[i])
      && forall v :: ReadyAfter(nodes, es, order[..i], v) ==> Leq(order[i], v)
  }

  ghost predicate Tables(nodes: seq<Id>, es: seq<Edge>, done: set<Id>, indegree: map<Id, nat>,
                         adjacency: map<Id, seq<Id>>) {
    && (forall v :: v in indegree <==> v in nodes)
    && (forall v :: v in adjacency <==> v in nodes)
    && (forall v :: v in nodes ==> indegree[v] == InCount(es, v, done))
    && (forall v :: v in nodes ==> adjacency[v] == Targets(es, v))
  }

  lemma {:induction false} AddEdge(nodes: seq<Id>, es: seq<Edge>, e: Edge, indegree: map<Id, nat>,
                                   adjacency: map<Id, seq<Id>>)
    requires Tables(nodes, es, {}, indegree, adjacency) && e.src in nodes && e.dst in nodes
    ensures Tables(nodes, es + [e], {}, indegree[e.dst := indegree[e.dst] + 1],
                   adjacency[e.src := adjacency[e.src] + [e.dst]])
  {
    assert (es + [e])[..|es|] == es;
  }

  ghost predicate IsReadyList(indegree: map<Id, nat>, done: set<Id>, ready: seq<Id>) {
    && Sorted(ready) && NoDuplicates(ready)
    && forall v :: v in ready <==> v in indegree && v !in done && indegree[v] == 0
  }

  method BuildTables(nodes: seq<Id>, edges: seq<Edge>)
    returns (indegree: map<Id, nat>, adjacency: map<Id, seq<Id>>)
    ensures Tables(nodes, Induced(nodes, edges), {}, indegree, adjacency)
  {
    indegree := map v | v in nodes :: 0;
    adjacency := map v | v in nodes :: [];
    for i := 0 to |edges|
      invariant Tables(nodes, Induced(nodes, edges[..i]), {}, indegree, adjacency)
    {
      InducedStep(nodes, edges, i);
      var e := edges[i];
      if e.src in indegree && e.dst in indegree {
        AddEdge(nodes, Induced(nodes, edges[..i]), e, indegree, adjacency);
        adjacency := adjacency[e.src := adjacency[e.src] + [e.dst]];
        indegree := indegree[e.dst := indegree[e.dst] + 1];
      } else {
        assert Induced(nodes, edges[..i]) + [] == Induced(nodes, edges[..i]);
      }
    }
    assert edges[..|edges|] == edges;
  }

  // The units at in-degree zero (or above it), in id order.
  method SelectByDegree(nodes: seq<Id>, indegree: map<Id, nat>, positive: bool) returns (units: seq<Id>)
    requires forall v :: v in indegree <==> v in nodes
    ensures Sorted(units) && NoDuplicates(units)
    ensures forall v :: v in units <==> v in nodes && (indegree[v] > 0 <==> positive)
  {
    units := [];
    for i := 0 to |nodes|
      invariant Sorted(units) && NoDuplicates(units)
      invariant forall v :: v in units <==> v in nodes[..i] && (indegree[v] > 0 <==> positive)
    {
      if (indegree[nodes[i]] > 0) == positive && nodes[i] !in units {
        units := Insert(nodes[i], units);
      }
      assert nodes[..i + 1] == nodes[..i] + [nodes[i]];
    }
    assert nodes[..|nodes|] == nodes;
  }

  // ---------------------------------------------------------------- the main loop

  ghost function EdgeSet(es: seq<Edge>): set<Edge> {
    set e | e in es
  }

  ghost predicate Settled(nodes: seq<Id>, es: seq<Edge>, order: seq<Id>, done: set<Id>) {
    && NoDuplicates(order)
    && (forall v :: v in order <==> v in done)
    && (forall v :: v in done ==> v in nodes)
    && Topological(EdgeSet(es), order)
  }

  ghost predicate Progress(nodes: seq<Id>, es: seq<Edge>, order: seq<Id>, done: set<Id>) {
    Settled(nodes, es, order, done) && LeastFirst(nodes, es, order)
  }

  ghost predicate NothingReady(indegree: map<Id, nat>, done: set<Id>) {
    forall v :: v in indegree && v !in done ==> indegree[v] != 0
  }

  // Mid-way through the targets of a unit: `rest` still has to be released.
  ghost predicate Releasing(nodes: seq<Id>, es: seq<Edge>, done: set<Id>, rest: seq<Id>, indegree: map<Id, nat>) {
    && (forall v :: v in indegree <==> v in nodes)
    && forall v :: v in nodes ==> indegree[v] == InCount(es, v, done) + multiset(rest)[v]
  }

  ghost predicate Midway(nodes: seq<Id>, es: seq<Edge>, order: seq<Id>, done: set<Id>, indegree: map<Id, nat>,
                         adjacency: map<Id, seq<Id>>, ready: seq<Id>)
  {
    && Progress(nodes, es, order, done)
    && Tables(nodes, es, done, indegree, adjacency)
    && IsReadyList(indegree, done, ready)
  }

  lemma {:induction false} ReadyUnits(nodes: seq<Id>, es: seq<Edge>, order: seq<Id>, done: set<Id>,
                                      indegree: map<Id, nat>, adjacency: map<Id, seq<Id>>, ready: seq<Id>, v: Id)
    requires Midway(nodes, es, order, done, indegree, adjacency, ready)
    ensures v in ready <==> ReadyAfter(nodes, es, order, v)
  {
    if v in nodes {
      ZeroInCount(es, v, done);
    }
  }

  lemma {:induction false} PickLeast(nodes: seq<Id>, es: seq<Edge>, order: seq<Id>, u: Id)
    requires LeastFirst(nodes, es, order) && ReadyAfter(nodes, es, order, u)
    requires forall v :: ReadyAfter(nodes, es, order, v) ==> Leq(u, v)
    ensures LeastFirst(nodes, es, order + [u])
  {
    var next := order + [u];
    assert next[..|order|] == order;
    forall i | 0 <= i < |order| ensures next[..i] == order[..i] && next[i] == order[i] {
    }
  }

  lemma {:induction false} PickReady(nodes: seq<Id>, es: seq<Edge>, order: seq<Id>, u: Id)
    requires Topological(EdgeSet(es), order) && ReadyAfter(nodes, es, order, u)
    ensures Topological(EdgeSet(es), order + [u])
  {
    var next := order + [u];
    forall i, e | 0 <= i < |next| && e in EdgeSet(es) && e.dst == next[i] ensures e.src in next[..i] {
      if i < |order| {
        assert next[..i] == order[..i];
      } else {
        assert next[..i] == order;
      }
    }
  }

  lemma {:induction false} NoEdgeBack(nodes: seq<Id>, es: seq<Edge>, order: seq<Id>, u: Id, t: Id)
    requires Topological(EdgeSet(es), order) && ReadyAfter(nodes, es, order, u) && Edge(u, t) in es
    ensures t !in order && t != u
  {
    assert Edge(u, t) in EdgeSet(es);
    assert u !in order;
  }

  lemma {:induction false} TakeLeastReady(nodes: seq<Id>, es: seq<Edge>, order: seq<Id>, done: set<Id>,
                                          indegree: map<Id, nat>, adjacency: map<Id, seq<Id>>, ready: seq<Id>)
    requires Midway(nodes, es, order, done, indegree, adjacency, ready) && ready != []
    ensures ReadyAfter(nodes, es, order, ready[0])
    ensures Progress(nodes, es, order + [ready[0]], done + {ready[0]})
  {
    var u := ready[0];
    ReadyUnits(nodes, es, order, done, indegree, adjacency, ready, u);
    forall v | ReadyAfter(nodes, es, order, v) ensures Leq(u, v) {
      ReadyUnits(nodes, es, order, done, indegree, adjacency, ready, v);
      var i :| 0 <= i < |ready| && ready[i] == v;
      LeqTotal(u, u);
    }
    PickLeast(nodes, es, order, u);
    PickReady(nodes, es, order, u);
  }

  lemma {:induction false} StartRelease(nodes: seq<Id>, es: seq<Edge>, order: seq<Id>, done: set<Id>,
                                        indegree: map<Id, nat>, adjacency: map<Id, seq<Id>>, ready: seq<Id>)
    requires Midway(nodes, es, order, done, indegree, adjacency, ready) && ready != []
    requires ReadyAfter(nodes, es, order, ready[0])
    ensures forall t :: t in Targets(es, ready[0]) ==> t !in done + {ready[0]}
    ensures Releasing(nodes, es, done + {ready[0]}, Targets(es, ready[0]), indegree)
    ensures IsReadyList(indegree, done + {ready[0]}, ready[1..])
  {
    var u := ready[0];
    assert ready == [u] + ready[1..];
    assert u !in ready[1..];
    forall t | t in Targets(es, u) ensures t !in done + {u} {
      NoEdgeBack(nodes, es, order, u, t);
    }
    forall v | v in nodes ensures indegree[v] == InCount(es, v, done + {u}) + multiset(Targets(es, u))[v] {
      InCountAfter(es, v, done, u);
    }
  }

  lemma {:induction false} ReleaseOne(nodes: seq<Id>, es: seq<Edge>, done: set<Id>, rest: seq<Id>,
                                      indegree: map<Id, nat>)
    requires rest != [] && rest[0] in nodes
    requires Releasing(nodes, es, done, rest, indegree)
    ensures indegree[rest[0]] > 0
    ensures Releasing(nodes, es, done, rest[1..], indegree[rest[0] := indegree[rest[0]] - 1])
  {
    assert rest == [rest[0]] + rest[1..];
    assert multiset(rest) == multiset{rest[0]} + multiset(rest[1..]);
  }

  lemma {:induction false} DistinctCount(order: seq<Id>, done: set<Id>)
    requires NoDuplicates(order) && forall v :: v in order <==> v in done
    ensures |order| == |done|
  {
    if order == [] {
      assert done == {};
    } else {
      var init := order[..|order| - 1];
      var last := order[|order| - 1];
      assert order == init + [last];
      forall v ensures v in init <==> v in done - {last} {
        if v in init {
          var i :| 0 <= i < |init| && init[i] == v;
          assert order[i] != order[|order| - 1];
        }
      }
      DistinctCount(init, done - {last});
    }
  }

  lemma {:induction false} Exhausted(nodes: seq<Id>, es: seq<Edge>, order: seq<Id>, done: set<Id>,
                                     indegree: map<Id, nat>, adjacency: map<Id, seq<Id>>)
    requires forall e :: e in es ==> e.src in nodes && e.dst in nodes
    requires Settled(nodes, es, order, done) && Tables(nodes, es, done, indegree, adjacency)
            && NothingReady(indegree, done)
    ensures |order| == |indegree| <==> forall v :: v in nodes ==> v in order
    ensures forall v :: v in nodes ==> (indegree[v] > 0 <==> v !in order)
    ensures forall v :: v in nodes ==> (indegree[v] > 0 <==> InOrBehindCycle(EdgeSet(es), v))
  {
    AllTaken(nodes, order, done, indegree);
    var stuck := set v | v in nodes && v !in done;
    forall v | v in stuck ensures HasPrerequisiteIn(EdgeSet(es), stuck, v) {
      ZeroInCount(es, v, done);
      var e :| e in es && e.dst == v && e.src !in done;
      assert e in EdgeSet(es) && e.src in stuck;
    }
    forall v | v in nodes
      ensures indegree[v] > 0 <==> v !in order
      ensures indegree[v] > 0 <==> InOrBehindCycle(EdgeSet(es), v)
    {
      if v in stuck {
        StuckUnitsAreBehindCycle(EdgeSet(es), stuck, v);
      } else {
        TakenUnit(nodes, es, order, done, v);
      }
    }
  }

  // A unit already taken has no prerequisite left, and no cycle leads to it.
  lemma {:induction false} TakenUnit(nodes: seq<Id>, es: seq<Edge>, order: seq<Id>, done: set<Id>, v: Id)
    requires Settled(nodes, es, order, done) && v in done
    ensures InCount(es, v, done) == 0 && !InOrBehindCycle(EdgeSet(es), v)
  {
    var i :| 0 <= i < |order| && order[i] == v;
    ZeroInCount(es, v, done);
    forall e | e in es && e.dst == v ensures e.src in done {
      assert e in EdgeSet(es);
    }
    if InOrBehindCycle(EdgeSet(es), v) {
      CyclesAvoidOrder(EdgeSet(es), order, v);
    }
  }

  lemma {:induction false} AllTaken(nodes: seq<Id>, order: seq<Id>, done: set<Id>, indegree: map<Id, nat>)
    requires NoDuplicates(order) && (forall v :: v in order <==> v in done) && (forall v :: v in done ==> v in nodes)
    requires forall v :: v in indegree <==> v in nodes
    ensures |order| == |indegree| <==> forall v :: v in nodes ==> v in order
  {
    DistinctCount(order, done);
    assert |indegree| == |indegree.Keys|;
    if |order| == |indegree| {
      SubsetOfSameSize(done, indegree.Keys);
    } else if forall v :: v in nodes ==> v in order {
      SameSize(done, indegree.Keys);
    }
  }

  lemma {:induction false} SubsetOfSameSize<T>(a: set<T>, b: set<T>)
    requires a <= b && |a| == |b|
    ensures a == b
  {
    assert |b - a| == |b| - |a|;
  }

  lemma {:induction false} SameSize<T>(a: set<T>, b: set<T>)
    requires forall x :: x in a <==> x in b
    ensures |a| == |b|
  {
    assert a == b;
  }

  lemma {:induction false} AcceptedMeansAcyclic(nodes: seq<Id>, es: seq<Edge>)
    requires forall e :: e in es ==> e.src in nodes && e.dst in nodes
    ensures Acyclic(EdgeSet(es)) <==> forall v :: v in nodes ==> !InOrBehindCycle(EdgeSet(es), v)
  {
    if c :| IsCycle(EdgeSet(es), c) {
      CycleMembersAreBehindCycle(EdgeSet(es), c);
      assert Edge(c[0], c[0 + 1]) in EdgeSet(es);
    }
  }

  lemma {:induction false} Outcome(nodes: seq<Id>, es: seq<Edge>, order: seq<Id>, done: set<Id>,
                                   indegree: map<Id, nat>, adjacency: map<Id, seq<Id>>)
    requires forall e :: e in es ==> e.src in nodes && e.dst in nodes
    requires Settled(nodes, es, order, done) && Tables(nodes, es, done, indegree, adjacency)
            && NothingReady(indegree, done)
    ensures |order| == |indegree| <==> Acyclic(EdgeSet(es))
    ensures |order| == |indegree| ==> forall v :: v in nodes <==> v in order
    ensures forall v :: v in indegree <==> v in nodes
    ensures forall v :: v in nodes ==> (indegree[v] > 0 <==> InOrBehindCycle(EdgeSet(es), v))
  {
    Exhausted(nodes, es, order, done, indegree, adjacency);
    AcceptedMeansAcyclic(nodes, es);
  }

  // The inner loop: one unit's targets lose one pending prerequisite each.
  method Release(nodes: seq<Id>, targets: seq<Id>, indegree0: map<Id, nat>, ready0: seq<Id>, ghost es: seq<Edge>,
                 ghost done: set<Id>)
    returns (indegree: map<Id, nat>, ready: seq<Id>)
    requires Releasing(nodes, es, done, targets, indegree0) && IsReadyList(indegree0, done, ready0)
    requires forall t :: t in targets ==> t in nodes && t !in done
    ensures Releasing(nodes, es, done, [], indegree) && IsReadyList(indegree, done, ready)
  {
    indegree, ready := indegree0, ready0;
    for k := 0 to |targets|
      invariant Releasing(nodes, es, done, targets[k..], indegree)
      invariant IsReadyList(indegree, done, ready)
    {
      var dependent := targets[k];
      assert dependent in targets;
      ReleaseOne(nodes, es, done, targets[k..], indegree);
      assert targets[k..][1..] == targets[k + 1..];
      indegree := indegree[dependent := indegree[dependent] - 1];
      if indegree[dependent] == 0 {
        ready := Insert(dependent, ready);
      }
    }
  }

  // One turn of the outer loop: pop the first ready unit and release its targets.
  method TakeUnit(nodes: seq<Id>, indegree0: map<Id, nat>, adjacency: map<Id, seq<Id>>, ready0: seq<Id>,
                  ghost es: seq<Edge>, ghost order: seq<Id>, ghost done: set<Id>)
    returns (unit: Id, indegree: map<Id, nat>, ready: seq<Id>)
    requires forall e :: e in es ==> e.src in nodes && e.dst in nodes
    requires Midway(nodes, es, order, done, indegree0, adjacency, ready0) && ready0 != []
    ensures unit in nodes && unit !in done
    ensures Midway(nodes, es, order + [unit], done + {unit}, indegree, adjacency, ready)
  {
    TakeLeastReady(nodes, es, order, done, indegree0, adjacency, ready0);
    StartRelease(nodes, es, order, done, indegree0, adjacency, ready0);
    unit := ready0[0];
    indegree, ready := Release(nodes, adjacency[unit], indegree0, ready0[1..], es, done + {unit});
  }

  // Accepts exactly the graphs without a directed cycle. An accepted graph was processed in
  // topological order, least id first; a rejection reports exactly the units in or behind a cycle.
  method Kahn(nodes: seq<Id>, edges: seq<Edge>) returns (verdict: Verdict, ghost order: seq<Id>)
    ensures verdict.Accepted? <==> Acyclic(EdgeSet(Induced(nodes, edges)))
    ensures verdict.Cyclic? ==>
              && Sorted(verdict.units) && NoDuplicates(verdict.units)
              && forall v :: v in verdict.units
                             <==> v in nodes && InOrBehindCycle(EdgeSet(Induced(nodes, edges)), v)
    ensures NoDuplicates(order) && Topological(EdgeSet(Induced(nodes, edges)), order)
    ensures LeastFirst(nodes, Induced(nodes, edges), order)
    ensures verdict.Accepted? ==> forall v :: v in nodes <==> v in order
  {
    ghost var es := Induced(nodes, edges);
    var indegree, adjacency := BuildTables(nodes, edges);
    var ready := SelectByDegree(nodes, indegree, false);
    var processed := 0;
    order := [];
    ghost var done: set<Id> := {};
    while ready != []
      invariant Midway(nodes, es, order, done, indegree, adjacency, ready) && processed == |order|
      decreases (set v | v in nodes) - done
    {
      var unit;
      unit, indegree, ready := TakeUnit(nodes, indegree, adjacency, ready, es, order, done);
      processed := processed + 1;
      order, done := order + [unit], done + {unit};
    }
    assert NothingReady(indegree, done) by {
      assert forall v :: v !in ready;
    }
    Outcome(nodes, es, order, done, indegree, adjacency);
    if processed != |indegree| {
      var cyclic := SelectByDegree(nodes, indegree, true);
      verdict := Cyclic(cyclic);
    } else {
      verdict := Accepted;
    }
  }
}
