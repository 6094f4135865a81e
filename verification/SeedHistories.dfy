// Which plans a history of seeding runs has stored: nothing of an accepted plan is lost, and nothing is
// stored that no accepted plan holds.
module SeedHistories {
  import opened Ordering
  import opened PlanGraph
  import opened Toposort
  import opened Plans
  import opened UnitStates
  import opened Dispatch
  import opened Seeding

  // What may happen to the tables: a seeding run of a plan, or one transition of a phase.
  datatype Act = Seed(plan: MacroPlan, file: PlanFile) | Work(id: Id, to: UnitState)

  // A run that is refused changes nothing, and neither does an illegal transition.
  ghost function Did(projects: set<string>, t: Tables, act: Act): Tables {
    match act
    case Seed(plan, f) => if Admissible(t, plan, projects) then SeedTables(t, plan, f) else t
    case Work(id, to) =>
      if id in t.phases && to in PhaseExits(t.phases[id].state)
      then t.(phases := t.phases[id := t.phases[id].(state := to)], events := t.events + [OtherEvent]) else t
  }

  ghost function Played(projects: set<string>, acts: seq<Act>): Tables {
    if acts == [] then EmptyTables
    else Did(projects, Played(projects, acts[..|acts| - 1]), acts[|acts| - 1])
  }

  ghost function Tale(projects: set<string>, acts: seq<Act>): (h: seq<Tables>)
    ensures |h| == |acts| + 1 && h[|acts|] == Played(projects, acts)
  {
    if acts == [] then [EmptyTables]
    else Tale(projects, acts[..|acts| - 1]) + [Played(projects, acts)]
  }

  // Playing acts gives histories, so all that holds of histories holds here.
  lemma {:induction false} PlayingIsHistory(projects: set<string>, acts: seq<Act>)
    ensures IsHistory(projects, Tale(projects, acts))
  {
    if acts != [] {
      var init, last := acts[..|acts| - 1], acts[|acts| - 1];
      PlayingIsHistory(projects, init);
      DidIsAStep(projects, Played(projects, init), last);
    }
  }

  lemma {:induction false} DidIsAStep(projects: set<string>, t: Tables, act: Act)
    ensures var t' := Did(projects, t, act); t' == t || SeedStep(projects, t, t') || OrchestratorStep(t, t')
  {
  }

  // And every history is played by some acts.
  lemma {:induction false} HistoriesArePlayed(projects: set<string>, h: seq<Tables>, k: nat) returns (acts: seq<Act>)
    requires IsHistory(projects, h) && k < |h|
    ensures Played(projects, acts) == h[k]
  {
    if k == 0 {
      acts := [];
    } else {
      acts := HistoriesArePlayed(projects, h, k - 1);
      var t, t' := h[k - 1], h[(k - 1) + 1];
      if t' != t {
        var last := StepIsAnAct(projects, t, t');
        assert (acts + [last])[..|acts|] == acts;
        acts := acts + [last];
      }
    }
  }

  lemma {:induction false} StepIsAnAct(projects: set<string>, t: Tables, t': Tables) returns (act: Act)
    requires SeedStep(projects, t, t') || OrchestratorStep(t, t')
    ensures Did(projects, t, act) == t'
  {
    if SeedStep(projects, t, t') {
      var plan, f :| Admissible(t, plan, projects) && t' == SeedTables(t, plan, f);
      act := Seed(plan, f);
    } else {
      var id, s :| id in t.phases && s in PhaseExits(t.phases[id].state)
        && t' == t.(phases := t.phases[id := t.phases[id].(state := s)], events := t.events + [OtherEvent]);
      act := Work(id, s);
    }
  }

  // The act numbered `i` is a run that committed its plan.
  ghost predicate Accepted(projects: set<string>, acts: seq<Act>, i: nat) {
    i < |acts| && acts[i].Seed? && Admissible(Played(projects, acts[..i]), acts[i].plan, projects)
  }

  ghost predicate PlannedEdge(projects: set<string>, acts: seq<Act>, i: nat, e: Edge) {
    Accepted(projects, acts, i) && e in acts[i].plan.edges
  }

  ghost predicate PlannedPhase(projects: set<string>, acts: seq<Act>, i: nat, id: Id) {
    Accepted(projects, acts, i) && id in acts[i].plan.Ids()
  }

  lemma {:induction false} EarlierPlansStand(projects: set<string>, acts: seq<Act>, i: nat)
    requires i < |acts| - 1
    ensures Accepted(projects, acts[..|acts| - 1], i) == Accepted(projects, acts, i)
  {
    assert acts[..|acts| - 1][..i] == acts[..i];
  }

  ghost predicate HasEdge(projects: set<string>, acts: seq<Act>, e: Edge) {
    exists i :: PlannedEdge(projects, acts, i, e)
  }

  ghost predicate HasPhase(projects: set<string>, acts: seq<Act>, id: Id) {
    exists i :: PlannedPhase(projects, acts, i, id)
  }

  lemma {:induction false} OneMorePlan(projects: set<string>, init: seq<Act>, last: Act, e: Edge, id: Id)
    ensures var kept := last.Seed? && Admissible(Played(projects, init), last.plan, projects);
            && (HasEdge(projects, init + [last], e) <==> HasEdge(projects, init, e) || (kept && e in last.plan.edges))
            && (HasPhase(projects, init + [last], id) <==>
                  HasPhase(projects, init, id) || (kept && id in last.plan.Ids()))
  {
    var acts, n := init + [last], |init|;
    assert acts[..n] == init;
    forall i: nat | i < n
      ensures PlannedEdge(projects, init, i, e) == PlannedEdge(projects, acts, i, e)
      ensures PlannedPhase(projects, init, i, id) == PlannedPhase(projects, acts, i, id)
    {
      EarlierPlansStand(projects, acts, i);
    }
    if last.Seed? && Admissible(Played(projects, init), last.plan, projects) {
      assert PlannedEdge(projects, acts, n, e) == (e in last.plan.edges);
      assert PlannedPhase(projects, acts, n, id) == (id in last.plan.Ids());
    }
  }

  lemma {:induction false} PlayedIsPlanned(projects: set<string>, acts: seq<Act>, e: Edge, id: Id)
    ensures e in Played(projects, acts).edges <==> HasEdge(projects, acts, e)
    ensures id in Played(projects, acts).phases <==> HasPhase(projects, acts, id)
  {
    if acts != [] {
      var init, last := acts[..|acts| - 1], acts[|acts| - 1];
      PlayedIsPlanned(projects, init, e, id);
      assert acts == init + [last];
      OneMorePlan(projects, init, last, e, id);
      DidStores(projects, Played(projects, init), last);
    }
  }

  // The stored edges are the edges of the accepted plans.
  lemma {:induction false} EdgesAreThePlanned(projects: set<string>, acts: seq<Act>, e: Edge)
    ensures e in Played(projects, acts).edges <==> exists i :: PlannedEdge(projects, acts, i, e)
  {
    PlayedIsPlanned(projects, acts, e, e.src);
  }

  // The stored phases are the phases of the accepted plans.
  lemma {:induction false} PhasesAreThePlanned(projects: set<string>, acts: seq<Act>, id: Id)
    ensures id in Played(projects, acts).phases <==> exists i :: PlannedPhase(projects, acts, i, id)
  {
    PlayedIsPlanned(projects, acts, Edge(id, id), id);
  }

  lemma {:induction false} DidStores(projects: set<string>, t: Tables, act: Act)
    ensures var t' := Did(projects, t, act);
            var kept := act.Seed? && Admissible(t, act.plan, projects);
            && (forall e :: e in t'.edges <==> e in t.edges || (kept && e in act.plan.edges))
            && (forall id :: id in t'.phases <==> id in t.phases || (kept && id in act.plan.Ids()))
  {
    if act.Seed? {
      SeedingStores(t, act.plan, act.file);
    }
  }

  // The order of an accepted plan holds from then on: whatever is seeded or done later, a phase does not
  // become runnable while a prerequisite planned for it is not done.
  lemma {:induction false} PlannedOrderHolds(projects: set<string>, acts: seq<Act>, i: nat, e: Edge)
    requires PlannedEdge(projects, acts, i, e)
    ensures var t := Played(projects, acts);
            && e.src in t.phases && e.dst in t.phases
            && (t.phases[e.src].state != Done ==>
                  CategoryOf(PhaseStates(t), EdgeSet(t.edges), e.dst) != Runnable)
  {
    EdgesAreThePlanned(projects, acts, e);
    PlayingIsHistory(projects, acts);
    HistoryIsConsistent(projects, Tale(projects, acts), |acts|);
  }

  // And a pending phase all of whose planned prerequisites are done may start: nothing else holds it up.
  lemma {:induction false} NothingElseHoldsUp(projects: set<string>, acts: seq<Act>, id: Id)
    requires var t := Played(projects, acts);
             && id in t.phases && t.phases[id].state == Pending
             && forall i, e :: PlannedEdge(projects, acts, i, e) && e.dst == id ==>
                  e.src in t.phases && t.phases[e.src].state == Done
    ensures CategoryOf(PhaseStates(Played(projects, acts)), EdgeSet(Played(projects, acts).edges), id) == Runnable
  {
    forall e | e in Played(projects, acts).edges && e.dst == id
      ensures e.src in Played(projects, acts).phases && Played(projects, acts).phases[e.src].state == Done
    {
      EdgesAreThePlanned(projects, acts, e);
    }
  }
}
