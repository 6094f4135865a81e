// The seeding command as it runs: checks in order, then one transaction over the tables.
module SeedPhases {
  import opened Ordering
  import opened PlanGraph
  import opened Toposort
  import opened ContractSearch
  import opened Plans
  import opened UnitStates
  import opened Seeding

  datatype Check = Passed | NotPassed(why: Refusal)

  method Listed(s: set<Id>) returns (ids: seq<Id>)
    ensures forall v :: v in ids <==> v in s
  {
    ids := [];
    var rest := s;
    while rest != {}
      invariant rest <= s
      invariant forall v :: v in ids <==> v in s && v !in rest
      decreases rest
    {
      var v :| v in rest;
      ids := ids + [v];
      rest := rest - {v};
    }
  }

  // The recorded plan a replayed run must match: the newest ref of the project.
  function LatestRef(refs: seq<MacroRef>, project: string): (r: nat)
    ensures r <= |refs|
    ensures r < |refs| ==> refs[r].project == project && forall i :: r < i < |refs| ==> refs[i].project != project
    ensures r == |refs| ==> forall i :: 0 <= i < |refs| ==> refs[i].project != project
  {
    if refs == [] then 0
    else if refs[|refs| - 1].project == project then |refs| - 1
    else
      var r := LatestRef(refs[..|refs| - 1], project);
      if r == |refs| - 1 then |refs| else r
  }

  predicate IsReplay(t: Tables, plan: MacroPlan, f: PlanFile) {
    && (forall id :: id in plan.Ids() ==> id in t.phases)
    && var r := LatestRef(t.refs, plan.project);
       r < |t.refs| && t.refs[r].path == f.path && t.refs[r].sha == f.sha && t.refs[r].commit == f.head
  }

  // The run gets as far as comparing with the database, and some phase of the plan is already there.
  ghost predicate ReachesReplayCheck(t: Tables, plan: MacroPlan, projects: set<string>, around: Surroundings) {
    && around.orchestratorStopped && SoundMacroPlan(plan, projects)
    && (forall id :: id in t.phases ==> t.phases[id].project == plan.project)
    && exists id :: id in plan.Ids() && id in t.phases
  }

  // What an edge can be refused for.
  ghost predicate IsEdgeFault(t: Tables, plan: MacroPlan, why: Refusal) {
    match why
    case UnknownPhase(e) => e in plan.edges && !(KnownEndpoint(t, plan, e.src) && KnownEndpoint(t, plan, e.dst))
    case DeadPhase(e) => e in plan.edges && !(LiveEndpoint(t, e.src) && LiveEndpoint(t, e.dst))
    case EdgeExists(e) => e in plan.edges && e in t.edges
    case CombinedCycle(units) => !Acyclic(EdgeSet(t.edges + plan.edges)) && Sorted(units)
        && forall v :: v in units <==> InOrBehindCycle(EdgeSet(t.edges + plan.edges), v)
    case _ => false
  }

  // Endpoints known and alive, no edge twice, and no cycle in the combined graph.
  method CheckPlanEdges(t: Tables, plan: MacroPlan) returns (c: Check)
    ensures c.Passed? <==> SoundEdges(t, plan)
    ensures c.NotPassed? ==> IsEdgeFault(t, plan, c.why)
  {
    for i := 0 to |plan.edges|
      invariant forall j :: 0 <= j < i ==>
                  var e := plan.edges[j];
                  && KnownEndpoint(t, plan, e.src) && KnownEndpoint(t, plan, e.dst)
                  && LiveEndpoint(t, e.src) && LiveEndpoint(t, e.dst) && e !in t.edges
    {
      var e := plan.edges[i];
      if !KnownEndpoint(t, plan, e.src) {
        return NotPassed(UnknownPhase(e));
      }
      if !LiveEndpoint(t, e.src) {
        return NotPassed(DeadPhase(e));
      }
      if !KnownEndpoint(t, plan, e.dst) {
        return NotPassed(UnknownPhase(e));
      }
      if !LiveEndpoint(t, e.dst) {
        return NotPassed(DeadPhase(e));
      }
      if e in t.edges {
        return NotPassed(EdgeExists(e));
      }
    }
    c := CheckCombined((set v | v in plan.Ids()) + t.phases.Keys, t.edges + plan.edges);
  }

  lemma {:induction false} CyclicUnitsHaveEdges(edges: seq<Edge>, v: Id)
    requires InOrBehindCycle(EdgeSet(edges), v)
    ensures exists e :: e in edges && (e.src == v || e.dst == v)
  {
    var c, w :| IsCycle(EdgeSet(edges), c) && IsWalk(EdgeSet(edges), w) && w[0] == c[0] && w[|w| - 1] == v;
    if |w| == 1 {
      assert Edge(c[0], c[0 + 1]) in EdgeSet(edges);
    } else {
      assert Edge(w[|w| - 2], w[|w| - 2 + 1]) in EdgeSet(edges);
    }
  }

  // No cycle over the stored and the planned edges together.
  method CheckCombined(known: set<Id>, edges: seq<Edge>) returns (c: Check)
    ensures c.Passed? <==> Acyclic(EdgeSet(edges))
    ensures c.NotPassed? ==>
              && c.why.CombinedCycle?
              && Sorted(c.why.units)
              && forall v :: v in c.why.units <==> InOrBehindCycle(EdgeSet(edges), v)
  {
    var nodes := Listed(known + (set e | e in edges :: e.src) + (set e | e in edges :: e.dst));
    InducedIsAll(nodes, edges);
    var verdict, _ := Kahn(nodes, edges);
    if verdict.Cyclic? {
      forall v | InOrBehindCycle(EdgeSet(edges), v) ensures v in nodes {
        CyclicUnitsHaveEdges(edges, v);
      }
      return NotPassed(CombinedCycle(verdict.units));
    }
    return Passed;
  }

  // No key collides and the write that would raise lies beyond the last one.
  ghost predicate AllWritesSucceed(t: Tables, plan: MacroPlan, failAt: nat) {
    && NoDuplicates(plan.Ids()) && (forall id :: id in plan.Ids() ==> id !in t.phases)
    && NoDuplicates(plan.edges) && (forall e :: e in plan.edges ==> e !in t.edges)
    && failAt > 2 * |plan.phases| + |plan.edges|
  }

  class PhaseDatabase {
    var phases: map<Id, Phase>
    var edges: seq<Edge>
    var refs: seq<MacroRef>
    var events: seq<Event>

    constructor ()
      ensures State() == EmptyTables
    {
      phases, edges, refs, events := map[], [], [], [];
    }

    function State(): Tables
      reads this
    {
      Tables(phases, edges, refs, events)
    }

    // The write numbered `failAt` raises; a key that exists already raises too.
    method InsertPhases(plan: MacroPlan, failAt: nat) returns (ok: bool)
      modifies this
      ensures ok ==> State() == old(State()).(phases := AddPhases(old(phases), plan.project, plan.phases))
      ensures ok <== failAt >= |plan.phases| && NoDuplicates(plan.Ids())
                     && forall id :: id in plan.Ids() ==> id !in old(phases)
    {
      for i := 0 to |plan.phases|
        invariant State() == old(State()).(phases := AddPhases(old(phases), plan.project, plan.phases[..i]))
      {
        var p := plan.phases[i];
        assert plan.phases[..i + 1][..i] == plan.phases[..i];
        if failAt == i || p.id in phases {
          forall j | 0 <= j < i ensures plan.phases[..i][j] == plan.phases[j] && plan.Ids()[j] == plan.phases[j].id {
          }
          assert plan.Ids()[i] == p.id;
          return false;
        }
        phases := phases[p.id := Phase(plan.project, p.name, Pending)];
      }
      assert plan.phases[..|plan.phases|] == plan.phases;
      return true;
    }

    method InsertEdges(plan: MacroPlan, failAt: nat) returns (ok: bool)
      modifies this
      ensures ok ==> State() == old(State()).(edges := old(edges) + plan.edges)
      ensures ok <== failAt >= |plan.edges| && NoDuplicates(plan.edges)
                     && forall e :: e in plan.edges ==> e !in old(edges)
    {
      for i := 0 to |plan.edges|
        invariant State() == old(State()).(edges := old(edges) + plan.edges[..i])
      {
        var e := plan.edges[i];
        if failAt == i || e in edges {
          return false;
        }
        edges := edges + [e];
      }
      return true;
    }

    method AppendSeedEvents(plan: MacroPlan, ref: nat, failAt: nat) returns (ok: bool)
      modifies this
      ensures ok ==> State() == old(State()).(events := old(events) + SeedEvents(plan.phases, ref))
      ensures ok <== failAt >= |plan.phases|
    {
      for i := 0 to |plan.phases|
        invariant State() == old(State()).(events := old(events) + SeedEvents(plan.phases[..i], ref))
      {
        if failAt == i {
          return false;
        }
        events := events + [PhaseSeeded(plan.phases[i].id, ref)];
      }
      assert plan.phases[..|plan.phases|] == plan.phases;
      return true;
    }

    // The transaction body: phases, edges, the macro-plan ref, one event per phase.
    method WriteAll(plan: MacroPlan, f: PlanFile, failAt: nat) returns (ok: bool)
      modifies this
      ensures ok ==> State() == SeedTables(old(State()), plan, f)
      ensures AllWritesSucceed(old(State()), plan, failAt) ==> ok
    {
      ok := InsertPhases(plan, failAt);
      if ok {
        var left := if failAt >= |plan.phases| then failAt - |plan.phases| else |plan.edges|;
        ok := InsertEdges(plan, left);
        if ok {
          if left == |plan.edges| {
            return false;
          }
          var ref := FindRef(refs, f.path, f.sha);
          refs := Register(refs, plan.project, f);
          ok := AppendSeedEvents(plan, ref, if left > |plan.edges| then left - |plan.edges| - 1 else |plan.phases|);
        }
      }
    }

    // Either everything is written, or nothing is.
    method Transaction(plan: MacroPlan, f: PlanFile, failAt: nat) returns (ok: bool)
      modifies this
      ensures ok ==> forall e :: e in edges <==> e in old(edges) || e in plan.edges
      ensures ok ==> forall id :: id in phases <==> id in old(phases) || id in plan.Ids()
      ensures ok ==> forall id :: id in old(phases) && id !in plan.Ids() ==> phases[id] == old(phases)[id]
      ensures ok ==> old(events) <= events && Logged(State(), plan, f, |old(events)|)
      ensures ok && NoDuplicates(plan.Ids()) ==> Named(State(), plan)
      ensures !ok ==> phases == old(phases) && edges == old(edges) && refs == old(refs) && events == old(events)
      ensures State() == if ok then SeedTables(old(State()), plan, f) else old(State())
      ensures AllWritesSucceed(old(State()), plan, failAt) ==> ok
    {
      var saved := State();
      ok := WriteAll(plan, f, failAt);
      if ok {
        SeedingStores(saved, plan, f);
      } else {
        phases, edges, refs, events := saved.phases, saved.edges, saved.refs, saved.events;
      }
    }

    // A run commits exactly the admissible plans; every other run leaves the database alone.
    method Seed(plan: MacroPlan, projects: set<string>, f: PlanFile, around: Surroundings, dryRun: bool, failAt: nat)
      returns (r: SeedResult)
      modifies this
      ensures r.Seeded? ==> forall e :: e in edges <==> e in old(edges) || e in plan.edges
      ensures r.Seeded? ==> forall id :: id in phases <==> id in old(phases) || id in plan.Ids()
      ensures r.Seeded? ==> forall id :: id in old(phases) ==> phases[id] == old(phases)[id]
      ensures r.Seeded? ==> old(events) <= events && Logged(State(), plan, f, |old(events)|) && Named(State(), plan)
      ensures !r.Seeded? ==> phases == old(phases) && edges == old(edges) && refs == old(refs) && events == old(events)
      ensures r == Refused(OrchestratorRunning) <==> !around.orchestratorStopped
      ensures r == Refused(WorkspaceNotReady) <==>
              around.orchestratorStopped && Admissible(old(State()), plan, projects) && !around.workspaceReady
      ensures r == Refused(PlanNotCommitted) <==>
              around == Surroundings(true, true, false) && Admissible(old(State()), plan, projects)
      ensures r.DryRun? <==>
              dryRun && around == Surroundings(true, true, true) && Admissible(old(State()), plan, projects)
      ensures State() == if r.Seeded? then SeedTables(old(State()), plan, f) else old(State())
      ensures r.Seeded? ==> Admissible(old(State()), plan, projects)
      ensures r.Seeded? <== Admissible(old(State()), plan, projects) && around == Surroundings(true, true, true)
                            && !dryRun && AllWritesSucceed(old(State()), plan, failAt)
      ensures r.AlreadySeeded? <==>
              ReachesReplayCheck(old(State()), plan, projects, around) && IsReplay(old(State()), plan, f)
      ensures r == Refused(DivergentPlan) <==>
              ReachesReplayCheck(old(State()), plan, projects, around) && !IsReplay(old(State()), plan, f)
    {
      if !around.orchestratorStopped {
        return Refused(OrchestratorRunning);
      }
      var read := ReadMacroPlan(plan, projects);
      if read.Rejected? {
        return Refused(BadPlan(read.error));
      }
      var t := State();
      if exists id :: id in t.phases && t.phases[id].project != plan.project {
        return Refused(ForeignProject);
      }
      if exists id :: id in plan.Ids() && id in t.phases {
        if IsReplay(t, plan, f) {
          return AlreadySeeded;
        }
        return Refused(DivergentPlan);
      }
      var c := CheckPlanEdges(t, plan);
      if c.NotPassed? {
        return Refused(c.why);
      }
      if !around.workspaceReady {
        return Refused(WorkspaceNotReady);
      }
      if !around.planCommitted {
        return Refused(PlanNotCommitted);
      }
      if dryRun {
        return DryRun;
      }
      var ok := Transaction(plan, f, failAt);
      if !ok {
        return Refused(WriteFailed);
      }
      return Seeded;
    }
  }
}
