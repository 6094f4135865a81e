// A phase may be planned again: the new plan's stages and edges join those already stored. What is
// stored is the union of the accepted plans, and only the plans were checked for cycles.
module Replans {
  import opened Ordering
  import opened PlanGraph
  import opened Toposort
  import opened ContractSearch
  import opened Plans
  import opened UnitStates
  import opened Dispatch

  // Edges already stored are skipped.
  function Ingest(stored: seq<Edge>, more: seq<Edge>): (r: seq<Edge>)
    ensures forall e :: e in r <==> e in stored || e in more
    ensures NoDuplicates(stored) ==> NoDuplicates(r)
  {
    if more == [] then stored
    else
      var init, last := Ingest(stored, more[..|more| - 1]), more[|more| - 1];
      assert more == more[..|more| - 1] + [last];
      if last in init then init else init + [last]
  }

  function StoredEdges(plans: seq<PhasePlan>): (r: seq<Edge>)
    ensures forall e :: e in r <==> exists i :: 0 <= i < |plans| && e in plans[i].edges
  {
    if plans == [] then []
    else
      var init, last := plans[..|plans| - 1], plans[|plans| - 1];
      assert forall e, i :: 0 <= i < |init| && e in init[i].edges ==> e in plans[i].edges;
      assert forall e, i :: 0 <= i < |plans| && e in plans[i].edges ==>
          e in last.edges || (i < |init| && e in init[i].edges);
      Ingest(StoredEdges(init), last.edges)
  }

  function StoredStages(plans: seq<PhasePlan>): (r: set<Id>)
    ensures forall v :: v in r <==> exists i :: 0 <= i < |plans| && v in plans[i].Ids()
  {
    if plans == [] then {}
    else
      var init, last := plans[..|plans| - 1], plans[|plans| - 1];
      assert forall i :: 0 <= i < |init| ==> init[i] == plans[i];
      assert forall i, v :: 0 <= i < |plans| && v in plans[i].Ids() ==>
          v in last.Ids() || (i < |init| && v in init[i].Ids());
      StoredStages(init) + set v | v in last.Ids()
  }

  // ---------------------------------------------------------------- stalls

  // Whatever the units' states, a waiting unit waits on one that is runnable, running, blocked or failed.
  ghost predicate StallFree(units: set<Id>, es: set<Edge>) {
    forall states: States, u :: states.Keys == units && u in states && CategoryOf(states, es, u) == Waiting ==>
      HasCause(states, es, u)
  }

  function AllDoneBut(units: set<Id>, pending: set<Id>): States {
    map u | u in units :: if u in pending then Pending else Done
  }

  // A cycle whose members are pending while all else is done: they wait for each other and for nobody.
  lemma {:induction false} CycleStalls(units: set<Id>, es: set<Edge>, c: seq<Id>)
    requires IsCycle(es, c) && forall e :: e in es ==> e.src in units && e.dst in units
    ensures c[0] in units && !StallFree(units, es)
  {
    var pending := set v | v in c;
    var states := AllDoneBut(units, pending);
    assert Edge(c[0], c[0 + 1]) in es;
    forall v | v in states
      ensures CategoryOf(states, es, v) == if v in pending then Waiting else CategoryOf(states, es, v)
      ensures CategoryOf(states, es, v) !in {Runnable, InFlight, Blocked, TerminalFail}
    {
      if v in pending {
        MemberHasMember(es, c, v);
        var e :| e in es && e.dst == v && e.src in c;
        assert states[e.src] == Pending;
      }
    }
    assert c[0] in pending && states.Keys == units && !HasCause(states, es, c[0]);
  }

  lemma {:induction false} MemberHasMember(es: set<Edge>, c: seq<Id>, v: Id)
    requires IsCycle(es, c) && v in c
    ensures exists e :: e in es && e.dst == v && e.src in c
  {
    var i :| 0 <= i < |c| && c[i] == v;
    var k := if i == 0 then |c| - 2 else i - 1;
    assert c[k + 1] == v && Edge(c[k], c[k + 1]) in es;
  }

  // No silent stall, exactly for the acyclic graphs.
  lemma {:induction false} StallFreeExactlyWhenAcyclic(units: set<Id>, es: set<Edge>)
    requires forall e :: e in es ==> e.src in units && e.dst in units
    ensures StallFree(units, es) <==> Acyclic(es)
  {
    if Acyclic(es) {
      forall states: States, u | states.Keys == units && u in states && CategoryOf(states, es, u) == Waiting
        ensures HasCause(states, es, u)
      {
        var v := NoSilentStall(states, es, u);
      }
    } else {
      var c :| IsCycle(es, c);
      CycleStalls(units, es, c);
    }
  }

  // Over any sequence of accepted plans: no state of the stored stages stalls silently, exactly when the
  // union of the plans has no cycle.
  lemma {:induction false} ReplansStallExactlyOnCycles(plans: seq<PhasePlan>, riskClasses: set<string>)
    requires forall i :: 0 <= i < |plans| ==> SoundPhasePlan(plans[i], riskClasses)
    ensures StallFree(StoredStages(plans), EdgeSet(StoredEdges(plans))) <==> Acyclic(EdgeSet(StoredEdges(plans)))
  {
    StallFreeExactlyWhenAcyclic(StoredStages(plans), EdgeSet(StoredEdges(plans)));
  }

  // ---------------------------------------------------------------- it happens

  function TwoStages(edge: Edge): PhasePlan {
    PhasePlan([PlanStage("a", "r", Unset), PlanStage("b", "r", Unset)], [edge])
  }

  lemma {:induction false} OneEdgeIsSound(src: Id, dst: Id)
    requires (src == "a" && dst == "b") || (src == "b" && dst == "a")
    ensures SoundPhasePlan(TwoStages(Edge(src, dst)), {"r"})
  {
    var plan := TwoStages(Edge(src, dst));
    assert plan.Ids()[0] == "a" && plan.Ids()[1] == "b";
    forall p
      ensures !IsCycle(EdgeSet(plan.edges), p)
    {
      if |p| >= 3 {
        assert p[1] == p[0 + 1] && p[2] == p[1 + 1];
        assert Edge(p[0], p[0 + 1]) in EdgeSet(plan.edges) ==> Edge(p[1], p[1 + 1]) !in EdgeSet(plan.edges);
      } else if |p| == 2 {
        assert Edge(p[0], p[0 + 1]) in EdgeSet(plan.edges) ==> p[0] != p[1];
      }
    }
  }

  // First "b" after "a", then "a" after "b": each plan is sound, and what is stored can stall.
  lemma {:induction false} TwoSoundPlansStall()
    ensures SoundPhasePlan(TwoStages(Edge("a", "b")), {"r"}) && SoundPhasePlan(TwoStages(Edge("b", "a")), {"r"})
    ensures var plans := [TwoStages(Edge("a", "b")), TwoStages(Edge("b", "a"))];
            !StallFree(StoredStages(plans), EdgeSet(StoredEdges(plans)))
  {
    OneEdgeIsSound("a", "b");
    OneEdgeIsSound("b", "a");
    var plans := [TwoStages(Edge("a", "b")), TwoStages(Edge("b", "a"))];
    ReplansStallExactlyOnCycles(plans, {"r"});
    assert Edge("a", "b") in plans[0].edges && Edge("b", "a") in plans[1].edges;
    BackAndForth(EdgeSet(StoredEdges(plans)), "a", "b");
  }

  lemma {:induction false} BackAndForth(es: set<Edge>, a: Id, b: Id)
    requires Edge(a, b) in es && Edge(b, a) in es
    ensures !Acyclic(es)
  {
    var p := [a, b, a];
    assert IsWalk(es, p);
    assert IsCycle(es, p);
  }
}
