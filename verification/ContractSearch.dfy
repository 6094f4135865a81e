// The contract-first rule of a phase plan: once some stage freezes a contract, every other stage
// must come after a contract stage. The search walks the dependency edges from the contracts.
module ContractSearch {
  import opened Ordering
  import opened PlanGraph
  import opened Toposort

  datatype Role = Contract | Leaf | Unset
  datatype PlanStage = PlanStage(id: Id, riskClass: string, role: Role)

  // A walk of at least one edge from a root to `v`.
  ghost predicate ProperDescendant(es: set<Edge>, roots: set<Id>, v: Id) {
    exists w :: IsWalk(es, w) && |w| >= 2 && w[0] in roots && w[|w| - 1] == v
  }

  ghost function Contracts(stages: seq<PlanStage>): set<Id> {
    set s | s in stages && s.role == Contract :: s.id
  }

  lemma {:induction false} StepFurther(es: set<Edge>, roots: set<Id>, u: Id, v: Id)
    requires Edge(u, v) in es
    requires u in roots || ProperDescendant(es, roots, u)
    ensures ProperDescendant(es, roots, v)
  {
    var w := [u];
    if u !in roots {
      w :| IsWalk(es, w) && |w| >= 2 && w[0] in roots && w[|w| - 1] == u;
    }
    var longer := w + [v];
    assert IsWalk(es, longer) && longer[0] in roots && longer[|longer| - 1] == v;
  }

  // A set that contains the successors of the roots and of its own members contains every descendant.
  lemma {:induction false} ClosedUnderEdges(es: set<Edge>, roots: set<Id>, closed: set<Id>, w: seq<Id>)
    requires forall e :: e in es && (e.src in roots || e.src in closed) ==> e.dst in closed
    requires IsWalk(es, w) && |w| >= 2 && w[0] in roots
    ensures w[|w| - 1] in closed
  {
    var n := |w|;
    assert Edge(w[n - 2], w[n - 2 + 1]) in es;
    if n > 2 {
      ClosedUnderEdges(es, roots, closed, w[..n - 1]);
    }
  }

  // The state of the search: what is reachable so far, and whose successors are still to be visited.
  ghost predicate Searching(es: set<Edge>, roots: set<Id>, reachable: set<Id>, frontier: seq<Id>) {
    && (forall v :: v in reachable ==> ProperDescendant(es, roots, v))
    && (forall v :: v in frontier ==> v in roots || v in reachable)
    && (forall e :: e in es && (e.src in roots || e.src in reachable) && e.src !in frontier
          ==> e.dst in reachable)
  }

  lemma {:induction false} SearchIsComplete(es: set<Edge>, roots: set<Id>, reachable: set<Id>)
    requires Searching(es, roots, reachable, [])
    ensures forall v :: v in reachable <==> ProperDescendant(es, roots, v)
  {
    assert forall v: Id :: v !in [];
    forall v | ProperDescendant(es, roots, v) ensures v in reachable {
      var w :| IsWalk(es, w) && |w| >= 2 && w[0] in roots && w[|w| - 1] == v;
      ClosedUnderEdges(es, roots, reachable, w);
    }
  }

  ghost predicate Adjacent(nodes: seq<Id>, es: set<Edge>, adjacency: map<Id, seq<Id>>) {
    forall u :: u in nodes ==> u in adjacency && forall v :: v in adjacency[u] <==> Edge(u, v) in es
  }

  method Reachable(nodes: seq<Id>, edges: seq<Edge>, contracts: seq<Id>) returns (reachable: set<Id>)
    requires forall e :: e in edges ==> e.src in nodes && e.dst in nodes
    requires forall c :: c in contracts ==> c in nodes
    ensures forall v :: v in reachable <==> ProperDescendant(EdgeSet(edges), (set c | c in contracts), v)
  {
    var _, adjacency := BuildTables(nodes, edges);
    InducedIsAll(nodes, edges);
    reachable := Search(nodes, adjacency, contracts, EdgeSet(edges));
  }

  // The work list of the search, last in, first out.
  method Search(nodes: seq<Id>, adjacency: map<Id, seq<Id>>, contracts: seq<Id>, ghost es: set<Edge>)
    returns (reachable: set<Id>)
    requires Adjacent(nodes, es, adjacency)
    requires (forall e :: e in es ==> e.dst in nodes) && forall c :: c in contracts ==> c in nodes
    ensures forall v :: v in reachable <==> ProperDescendant(es, (set c | c in contracts), v)
  {
    ghost var roots := set c | c in contracts;
    reachable := {};
    var frontier := contracts;
    while frontier != []
      invariant Searching(es, roots, reachable, frontier)
      invariant forall v :: v in reachable || v in frontier ==> v in nodes
      decreases (set v | v in nodes) - reachable, |frontier|
    {
      var node := frontier[|frontier| - 1];
      assert node in frontier;
      assert frontier[..|frontier| - 1] + [node] == frontier;
      reachable, frontier := Visit(nodes, adjacency[node], reachable, frontier[..|frontier| - 1], es, roots, node);
    }
    SearchIsComplete(es, roots, reachable);
  }

  // One pop of the frontier: the successors not seen before become reachable and are pushed.
  method Visit(nodes: seq<Id>, targets: seq<Id>, reachable0: set<Id>, frontier0: seq<Id>, ghost es: set<Edge>,
               ghost roots: set<Id>, ghost node: Id)
    returns (reachable: set<Id>, frontier: seq<Id>)
    requires Searching(es, roots, reachable0, frontier0 + [node])
    requires forall v :: v in targets <==> Edge(node, v) in es
    requires forall v :: v in targets || v in reachable0 || v in frontier0 ==> v in nodes
    ensures Searching(es, roots, reachable, frontier)
    ensures forall v :: v in reachable || v in frontier ==> v in nodes
    ensures reachable0 <= reachable
    ensures reachable == reachable0 ==> frontier == frontier0
  {
    reachable, frontier := reachable0, frontier0;
    assert node in frontier0 + [node];
    for k := 0 to |targets|
      invariant reachable0 <= reachable
      invariant reachable == reachable0 ==> frontier == frontier0
      invariant forall v :: v in reachable || v in frontier ==> v in nodes
      invariant Searching(es, roots, reachable, frontier + [node])
      invariant forall j :: 0 <= j < k ==> targets[j] in reachable
    {
      var next := targets[k];
      StepFurther(es, roots, node, next);
      if next !in reachable {
        reachable, frontier := reachable + {next}, frontier + [next];
      }
    }
  }

  lemma {:induction false} InducedIsAll(nodes: seq<Id>, edges: seq<Edge>)
    requires forall e :: e in edges ==> e.src in nodes && e.dst in nodes
    ensures Induced(nodes, edges) == edges
  {
    if edges != [] {
      var init, last := edges[..|edges| - 1], edges[|edges| - 1];
      assert edges == init + [last];
      assert last in edges;
      forall e | e in init ensures e.src in nodes && e.dst in nodes {
        assert e in edges;
      }
      InducedIsAll(nodes, init);
    }
  }

  // A non-contract stage without a contract ancestor, in a plan that has contract stages.
  ghost predicate IsOrphan(stages: seq<PlanStage>, es: set<Edge>, v: Id) {
    && Contracts(stages) != {}
    && (exists s :: s in stages && s.id == v && s.role != Contract)
    && !ProperDescendant(es, Contracts(stages), v)
  }

  method ContractIds(stages: seq<PlanStage>) returns (contracts: seq<Id>)
    ensures Contracts(stages) == (set c | c in contracts)
  {
    contracts := [];
    for i := 0 to |stages|
      invariant forall v :: v in contracts <==> v in Contracts(stages[..i])
    {
      assert stages[..i + 1] == stages[..i] + [stages[i]];
      if stages[i].role == Contract {
        contracts := contracts + [stages[i].id];
      }
    }
    assert stages[..|stages|] == stages;
  }

  function IdsOf(stages: seq<PlanStage>): (r: seq<Id>)
    ensures forall v :: v in r <==> HasId(stages, v)
  {
    if stages == [] then []
    else
      assert stages == stages[..|stages| - 1] + [stages[|stages| - 1]];
      IdsOf(stages[..|stages| - 1]) + [stages[|stages| - 1].id]
  }

  predicate HasId(stages: seq<PlanStage>, v: Id) {
    exists s :: s in stages && s.id == v
  }

  ghost predicate OffContract(stages: seq<PlanStage>, reachable: set<Id>, v: Id) {
    exists s :: s in stages && s.id == v && s.role != Contract && v !in reachable
  }

  lemma {:induction false} OneMoreStage(stages: seq<PlanStage>, next: PlanStage, reachable: set<Id>, v: Id)
    ensures OffContract(stages + [next], reachable, v)
       <==> OffContract(stages, reachable, v) || (next.id == v && next.role != Contract && v !in reachable)
  {
    assert next in stages + [next];
    assert forall s :: s in stages ==> s in stages + [next];
  }

  method Unreached(stages: seq<PlanStage>, reachable: set<Id>) returns (orphans: seq<Id>)
    ensures Sorted(orphans) && forall v :: v in orphans <==> OffContract(stages, reachable, v)
  {
    orphans := [];
    for i := 0 to |stages|
      invariant Sorted(orphans) && forall v :: v in orphans <==> OffContract(stages[..i], reachable, v)
    {
      assert stages[..i + 1] == stages[..i] + [stages[i]];
      forall v
        ensures OffContract(stages[..i + 1], reachable, v)
           <==> (OffContract(stages[..i], reachable, v)
                 || (stages[i].id == v && stages[i].role != Contract && v !in reachable))
      {
        OneMoreStage(stages[..i], stages[i], reachable, v);
      }
      if stages[i].role != Contract && stages[i].id !in reachable {
        orphans := Insert(stages[i].id, orphans);
      }
    }
    assert stages[..|stages|] == stages;
  }

  // The stages that break the rule, in id order; none when the plan has no contract stage.
  method Orphans(stages: seq<PlanStage>, edges: seq<Edge>) returns (orphans: seq<Id>)
    requires forall e :: e in edges ==> HasId(stages, e.src) && HasId(stages, e.dst)
    ensures forall v :: v in orphans <==> IsOrphan(stages, EdgeSet(edges), v)
    ensures Sorted(orphans)
  {
    orphans := [];
    var contracts := ContractIds(stages);
    if contracts == [] {
      return;
    }
    assert contracts[0] in Contracts(stages);
    forall c | c in contracts ensures HasId(stages, c) {
      assert c in Contracts(stages);
    }
    var reachable := Reachable(IdsOf(stages), edges, contracts);
    orphans := Unreached(stages, reachable);
  }
}
