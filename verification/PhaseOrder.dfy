// The order in which the pages list the phases: a first-in-first-out Kahn pass over the stored
// edges, and the insertion order when the stored graph has a cycle.
module PhaseOrder {
  import opened Ordering
  import opened PlanGraph
  import opened Toposort
  import opened TieBreak

  ghost predicate IsQueue(indegree: map<Id, nat>, done: set<Id>, queue: seq<Id>) {
    && NoDuplicates(queue)
    && forall v :: v in queue <==> v in indegree && v !in done && indegree[v] == 0
  }

  ghost predicate Between(nodes: seq<Id>, es: seq<Edge>, ordered: seq<Id>, done: set<Id>, indegree: map<Id, nat>,
                          children: map<Id, seq<Id>>, queue: seq<Id>)
  {
    Settled(nodes, es, ordered, done) && Tables(nodes, es, done, indegree, children) && IsQueue(indegree, done, queue)
  }

  lemma {:induction false} TakeFirst(nodes: seq<Id>, es: seq<Edge>, ordered: seq<Id>, done: set<Id>,
                                     indegree: map<Id, nat>, children: map<Id, seq<Id>>, queue: seq<Id>)
    requires Between(nodes, es, ordered, done, indegree, children, queue) && queue != []
    ensures Settled(nodes, es, ordered + [queue[0]], done + {queue[0]})
    ensures forall t :: t in Targets(es, queue[0]) ==> t !in done + {queue[0]}
    ensures Releasing(nodes, es, done + {queue[0]}, Targets(es, queue[0]), indegree)
    ensures IsQueue(indegree, done + {queue[0]}, queue[1..])
  {
    var u := queue[0];
    assert queue == [u] + queue[1..];
    ZeroInCount(es, u, done);
    assert ReadyAfter(nodes, es, ordered, u);
    PickReady(nodes, es, ordered, u);
    forall t | t in Targets(es, u)
      ensures t !in done + {u}
    {
      NoEdgeBack(nodes, es, ordered, u, t);
    }
    forall v | v in nodes
      ensures indegree[v] == InCount(es, v, done + {u}) + multiset(Targets(es, u))[v]
    {
      InCountAfter(es, v, done, u);
    }
  }

  // The inner loop: a child whose last prerequisite this was joins the back of the queue.
  method ReleaseChildren(nodes: seq<Id>, targets: seq<Id>, indegree0: map<Id, nat>, queue0: seq<Id>,
                         ghost es: seq<Edge>, ghost done: set<Id>)
    returns (indegree: map<Id, nat>, queue: seq<Id>)
    requires Releasing(nodes, es, done, targets, indegree0) && IsQueue(indegree0, done, queue0)
    requires forall t :: t in targets ==> t in nodes && t !in done
    ensures Releasing(nodes, es, done, [], indegree) && IsQueue(indegree, done, queue)
    ensures queue0 <= queue && (forall v :: v in queue[|queue0|..] ==> v in targets)
    ensures RowsAscend(targets, queue[|queue0|..])
  {
    indegree, queue := indegree0, queue0;
    for k := 0 to |targets|
      invariant Releasing(nodes, es, done, targets[k..], indegree)
      invariant IsQueue(indegree, done, queue)
      invariant queue0 <= queue && RowsUpTo(targets, queue[|queue0|..], k)
    {
      var child := targets[k];
      assert child in targets;
      ReleaseOne(nodes, es, done, targets[k..], indegree);
      assert targets[k..][1..] == targets[k + 1..];
      assert child !in queue;
      indegree := indegree[child := indegree[child] - 1];
      if indegree[child] == 0 {
        assert child !in targets[k + 1..];
        OneMoreRow(targets, queue[|queue0|..], k);
        assert (queue + [child])[|queue0|..] == queue[|queue0|..] + [child];
        queue := queue + [child];
      }
    }
  }

  // Released so far, in the order of the rows, all from rows before the k-th.
  ghost predicate RowsUpTo(targets: seq<Id>, released: seq<Id>, k: int) {
    RowsAscend(targets, released) && forall v :: v in released ==> v in targets && LastAt(targets, v) < k
  }

  lemma {:induction false} OneMoreRow(targets: seq<Id>, released: seq<Id>, k: nat)
    requires RowsUpTo(targets, released, k) && k < |targets| && targets[k] !in targets[k + 1..]
    ensures RowsUpTo(targets, released + [targets[k]], k + 1)
  {
    LastIsHere(targets, k);
    var more := released + [targets[k]];
    forall i, j | 0 <= i < j < |more|
      ensures LastAt(targets, more[i]) < LastAt(targets, more[j])
    {
      assert more[i] in released;
    }
  }

  function WithoutPrerequisites(ids: seq<Id>, indegree: map<Id, nat>): seq<Id>
    requires forall v :: v in ids ==> v in indegree
  {
    if ids == [] then []
    else
      assert ids == ids[..|ids| - 1] + [ids[|ids| - 1]];
      WithoutPrerequisites(ids[..|ids| - 1], indegree) + if indegree[ids[|ids| - 1]] == 0 then [ids[|ids| - 1]] else []
  }

  lemma {:induction false} RootsAreFirst(nodes: seq<Id>, ids: seq<Id>, es: seq<Edge>, indegree: map<Id, nat>)
    requires forall v :: v in ids ==> v in nodes
    requires (forall v :: v in indegree <==> v in nodes) && forall v :: v in nodes ==> indegree[v] == InCount(es, v, {})
    ensures WithoutPrerequisites(ids, indegree) == Roots(ids, es)
  {
    if ids != [] {
      var last := ids[|ids| - 1];
      assert ids == ids[..|ids| - 1] + [last];
      RootsAreFirst(nodes, ids[..|ids| - 1], es, indegree);
      ZeroInCount(es, last, {});
    }
  }

  // What the listing has kept so far: everyone in turn, and the phases without prerequisites in front.
  ghost predicate Orderly(ids: seq<Id>, es: seq<Edge>, ordered: seq<Id>, queue: seq<Id>) {
    && InTurn(es, ordered, ordered + queue) && InRowOrder(es, ordered, ordered + queue)
    && (forall v :: v in ordered + queue ==> ReadyBy(es, ordered, v))
    && Roots(ids, es) <= ordered + queue
  }

  lemma {:induction false} NobodyPicked(es: seq<Edge>, queue: seq<Id>)
    requires forall v :: v in queue ==> ReadyBy(es, [], v)
    ensures InTurn(es, [], queue)
  {
    var nobody: seq<Id> := [];
    forall i | 0 <= i < |queue|
      ensures ReadyBy(es, nobody[..0], queue[i])
    {
      assert nobody[..0] == nobody && queue[i] in queue;
    }
  }

  lemma {:induction false} StartsOrderly(ids: seq<Id>, es: seq<Edge>, indegree: map<Id, nat>,
                                         children: map<Id, seq<Id>>, queue: seq<Id>)
    requires Tables(ids, es, {}, indegree, children) && IsQueue(indegree, {}, queue)
    requires queue == WithoutPrerequisites(ids, indegree)
    ensures Orderly(ids, es, [], queue)
  {
    RootsAreFirst(ids, ids, es, indegree);
    forall v | v in queue
      ensures ReadyBy(es, [], v)
    {
      ZeroInCount(es, v, {});
    }
    NobodyPicked(es, queue);
    assert [] + queue == queue;
  }

  lemma {:induction false} StaysOrderly(ids: seq<Id>, es: seq<Edge>, ordered: seq<Id>, done: set<Id>,
                                        indegree: map<Id, nat>, children: map<Id, seq<Id>>,
                                        queue: seq<Id>, next: seq<Id>)
    requires queue != [] && Orderly(ids, es, ordered, queue) && queue[0] !in ordered
    requires Between(ids, es, ordered + [queue[0]], done, indegree, children, next)
    requires queue[1..] <= next && forall v :: v in next[|queue| - 1..] ==> Edge(queue[0], v) in es
    requires RowsAscend(Targets(es, queue[0]), next[|queue| - 1..])
    ensures Orderly(ids, es, ordered + [queue[0]], next)
  {
    var more := next[|queue| - 1..];
    QueueIsReady(ids, es, ordered + [queue[0]], done, indegree, children, next);
    assert next == queue[1..] + more;
    OnePickLater(ids, es, ordered, queue, more);
  }

  lemma {:induction false} QueueIsReady(ids: seq<Id>, es: seq<Edge>, ordered: seq<Id>, done: set<Id>,
                                        indegree: map<Id, nat>, children: map<Id, seq<Id>>, queue: seq<Id>)
    requires Between(ids, es, ordered, done, indegree, children, queue)
    ensures forall v :: v in queue ==> ReadyBy(es, ordered, v)
  {
    forall v | v in queue
      ensures ReadyBy(es, ordered, v)
    {
      ZeroInCount(es, v, done);
    }
  }

  lemma {:induction false} OnePickLater(ids: seq<Id>, es: seq<Edge>, ordered: seq<Id>, queue: seq<Id>, more: seq<Id>)
    requires queue != [] && Orderly(ids, es, ordered, queue) && queue[0] !in ordered
    requires forall v :: v in more ==> Edge(queue[0], v) in es && ReadyBy(es, ordered + [queue[0]], v)
    requires RowsAscend(Targets(es, queue[0]), more)
    ensures Orderly(ids, es, ordered + [queue[0]], queue[1..] + more)
  {
    TurnIsKept(es, ordered, queue, more);
    RowsAreKept(es, ordered, queue, more);
    assert (ordered + [queue[0]]) + (queue[1..] + more) == (ordered + queue) + more;
  }

  method InitialQueue(ids: seq<Id>, indegree: map<Id, nat>) returns (queue: seq<Id>)
    requires NoDuplicates(ids) && forall v :: v in indegree <==> v in ids
    ensures IsQueue(indegree, {}, queue) && queue == WithoutPrerequisites(ids, indegree)
  {
    queue := [];
    for i := 0 to |ids|
      invariant NoDuplicates(queue)
      invariant forall v :: v in queue <==> v in ids[..i] && indegree[v] == 0
      invariant queue == WithoutPrerequisites(ids[..i], indegree)
    {
      assert ids[..i + 1][..i] == ids[..i];
      assert ids[..i + 1] == ids[..i] + [ids[i]];
      assert ids[i] !in ids[..i];
      if indegree[ids[i]] == 0 {
        queue := queue + [ids[i]];
      }
    }
    assert ids[..|ids|] == ids;
  }

  method TakePhase(nodes: seq<Id>, indegree0: map<Id, nat>, children: map<Id, seq<Id>>, queue0: seq<Id>,
                   ghost es: seq<Edge>, ghost ordered: seq<Id>, ghost done: set<Id>)
    returns (id: Id, indegree: map<Id, nat>, queue: seq<Id>)
    requires forall e :: e in es ==> e.src in nodes && e.dst in nodes
    requires Between(nodes, es, ordered, done, indegree0, children, queue0) && queue0 != []
    requires Orderly(nodes, es, ordered, queue0)
    ensures id in nodes && id !in done
    ensures Between(nodes, es, ordered + [id], done + {id}, indegree, children, queue)
    ensures Orderly(nodes, es, ordered + [id], queue)
  {
    TakeFirst(nodes, es, ordered, done, indegree0, children, queue0);
    id := queue0[0];
    indegree, queue := ReleaseChildren(nodes, children[id], indegree0, queue0[1..], es, done + {id});
    StaysOrderly(nodes, es, ordered, done + {id}, indegree, children, queue0, queue);
  }

  // Every phase is listed once; prerequisites come first whenever the stored graph allows it. The phases
  // without prerequisites lead in insertion order, the others follow in the order they become ready, and
  // in the order of the edge rows where one pick makes several ready. Insertion order is kept as the
  // tie-break exactly when the stored phases and edges let it be.
  method PhaseDagOrder(ids: seq<Id>, edges: seq<Edge>) returns (ordered: seq<Id>)
    requires NoDuplicates(ids)
    ensures NoDuplicates(ordered) && forall v :: v in ordered <==> v in ids
    ensures Acyclic(EdgeSet(Induced(ids, edges))) <==> Topological(EdgeSet(Induced(ids, edges)), ordered)
    ensures !Acyclic(EdgeSet(Induced(ids, edges))) ==> ordered == ids
    ensures Acyclic(EdgeSet(Induced(ids, edges))) ==>
              && IsListing(ids, Induced(ids, edges), ordered)
              && (EarliestFirst(ids, Induced(ids, edges), ordered) <==> KeepsTieBreak(ids, Induced(ids, edges)))
  {
    ghost var es := Induced(ids, edges);
    var indegree, children := BuildTables(ids, edges);
    var queue := InitialQueue(ids, indegree);
    StartsOrderly(ids, es, indegree, children, queue);
    ordered := [];
    ghost var done: set<Id> := {};
    while queue != []
      invariant Between(ids, es, ordered, done, indegree, children, queue) && Orderly(ids, es, ordered, queue)
      decreases (set v | v in ids) - done
    {
      var id;
      id, indegree, queue := TakePhase(ids, indegree, children, queue, es, ordered, done);
      ordered, done := ordered + [id], done + {id};
    }
    QueueRanDry(ids, es, ordered, done, indegree, children, queue);
    assert ordered + queue == ordered;
    if |ordered| != |ids| {
      ordered := ids;
    } else {
      TieBreakExactly(ids, es, ordered);
    }
  }

  lemma {:induction false} QueueRanDry(ids: seq<Id>, es: seq<Edge>, ordered: seq<Id>, done: set<Id>,
                                       indegree: map<Id, nat>, children: map<Id, seq<Id>>, queue: seq<Id>)
    requires NoDuplicates(ids) && forall e :: e in es ==> e.src in ids && e.dst in ids
    requires Between(ids, es, ordered, done, indegree, children, queue) && queue == []
    ensures |ordered| == |ids| <==> Acyclic(EdgeSet(es))
    ensures |ordered| == |ids| ==> forall v :: v in ordered <==> v in ids
    ensures |ordered| != |ids| ==> !Topological(EdgeSet(es), ids)
  {
    assert NothingReady(indegree, done) by {
      assert forall v :: v !in queue;
    }
    Outcome(ids, es, ordered, done, indegree, children);
    DistinctIds(ids, indegree);
    if |ordered| != |ids| {
      CycleDefeatsAnyOrder(ids, es);
    }
  }

  lemma {:induction false} DistinctIds(ids: seq<Id>, indegree: map<Id, nat>)
    requires NoDuplicates(ids) && forall v :: v in indegree <==> v in ids
    ensures |ids| == |indegree|
  {
    DistinctCount(ids, indegree.Keys);
    assert |indegree| == |indegree.Keys|;
  }

  // No listing of all phases puts prerequisites first when there is a cycle.
  lemma {:induction false} CycleDefeatsAnyOrder(ids: seq<Id>, es: seq<Edge>)
    requires NoDuplicates(ids) && forall e :: e in es ==> e.src in ids && e.dst in ids
    requires !Acyclic(EdgeSet(es))
    ensures !Topological(EdgeSet(es), ids)
  {
    var c :| IsCycle(EdgeSet(es), c);
    CycleMembersAreBehindCycle(EdgeSet(es), c);
    assert Edge(c[0], c[0 + 1]) in EdgeSet(es);
    if Topological(EdgeSet(es), ids) {
      CyclesAvoidOrder(EdgeSet(es), ids, c[0]);
    }
  }
}
