// What a plan file must satisfy before the factory looks at it: `read_phase_plan` for the stages of
// one phase, `read_macro_plan` for the phases of a project.
module Plans {
  import opened Ordering
  import opened PlanGraph
  import opened Toposort
  import opened ContractSearch

  datatype PlanError =
    | UnknownProject(project: string)
    | NothingDeclared
    | DuplicateIds
    | MalformedId(id: Id)
    | UnknownRiskClass(id: Id, riskClass: string)
    | DuplicateEdge(edge: Edge)
    | UndeclaredEndpoint(edge: Edge)
    | CyclicPlan(units: seq<Id>)
    | NoContractAncestor(units: seq<Id>)

  datatype Outcome = Ok | Rejected(error: PlanError)

  datatype PhasePlan = PhasePlan(stages: seq<PlanStage>, edges: seq<Edge>)
  {
    function Ids(): (r: seq<Id>)
      ensures |r| == |stages| && forall i :: 0 <= i < |r| ==> r[i] == stages[i].id
    {
      seq(|stages|, i requires 0 <= i < |stages| => stages[i].id)
    }
  }

  datatype MacroPhase = MacroPhase(id: Id, name: string)
  datatype MacroPlan = MacroPlan(project: string, phases: seq<MacroPhase>, edges: seq<Edge>)
  {
    function Ids(): (r: seq<Id>)
      ensures |r| == |phases| && forall i :: 0 <= i < |r| ==> r[i] == phases[i].id
    {
      seq(|phases|, i requires 0 <= i < |phases| => phases[i].id)
    }
  }

  predicate Alphanumeric(c: char) {
    'A' <= c <= 'Z' || 'a' <= c <= 'z' || '0' <= c <= '9'
  }

  // Letters, digits, '.', '_' and '-', starting alphanumeric, no "..", no final '.'.
  predicate SafeId(id: Id) {
    && id != "" && Alphanumeric(id[0]) && id[|id| - 1] != '.'
    && (forall i :: 0 <= i < |id| ==> Alphanumeric(id[i]) || id[i] in "._-")
    && (forall i :: 0 <= i < |id| - 1 ==> !(id[i] == '.' && id[i + 1] == '.'))
  }

  // Every stage that freezes no contract comes after one that does, if there is one at all.
  ghost predicate ContractFirst(plan: PhasePlan) {
    Contracts(plan.stages) != {} ==>
      forall s :: s in plan.stages && s.role != Contract
                  ==> ProperDescendant(EdgeSet(plan.edges), Contracts(plan.stages), s.id)
  }

  ghost predicate SoundPhasePlan(plan: PhasePlan, riskClasses: set<string>) {
    && plan.stages != [] && NoDuplicates(plan.Ids())
    && (forall s :: s in plan.stages ==> SafeId(s.id) && s.riskClass in riskClasses)
    && NoDuplicates(plan.edges)
    && (forall e :: e in plan.edges ==> e.src in plan.Ids() && e.dst in plan.Ids())
    && Acyclic(EdgeSet(plan.edges))
    && ContractFirst(plan)
  }

  ghost predicate SoundMacroPlan(plan: MacroPlan, projects: set<string>) {
    && plan.project in projects
    && plan.phases != [] && NoDuplicates(plan.Ids())
    && (forall p :: p in plan.phases ==> SafeId(p.id))
    && NoDuplicates(plan.edges)
    && Acyclic(EdgeSet(Induced(plan.Ids(), plan.edges)))
  }

  predicate HasTwoDots(id: Id, before: string, after: string) {
    id == before + ".." + after
  }

  // Two dots in a row are two dots somewhere between a front and a rest.
  lemma {:induction false} TwoDotsAreAdjacent(id: Id)
    ensures (exists before, after :: HasTwoDots(id, before, after)) <==>
            exists i, j :: 0 <= i < j < |id| && j == i + 1 && id[i] == '.' && id[j] == '.'
  {
    if before, after :| HasTwoDots(id, before, after) {
      var i := |before|;
      assert id[i] == '.' && id[i + 1] == '.';
    }
    if i, j :| 0 <= i < j < |id| && j == i + 1 && id[i] == '.' && id[j] == '.' {
      assert id == id[..i] + ".." + id[i + 2..];
      assert HasTwoDots(id, id[..i], id[i + 2..]);
    }
  }

  lemma {:induction false} SafeIdExactly(id: Id)
    ensures SafeId(id) <==>
              && id != "" && Alphanumeric(id[0]) && id[|id| - 1] != '.'
              && (forall c :: c in id ==> Alphanumeric(c) || c == '.' || c == '_' || c == '-')
              && forall before, after :: !HasTwoDots(id, before, after)
  {
    TwoDotsAreAdjacent(id);
    assert forall i :: 0 <= i < |id| ==> id[i] in id;
  }

  // So a safe id is one path component: nothing in it separates, climbs or hides.
  lemma {:induction false} SafeIdsAreOneComponent(id: Id)
    requires SafeId(id)
    ensures id != "" && '/' !in id && '\\' !in id && ' ' !in id && '\0' !in id && '~' !in id
    ensures id != "." && id != ".." && id[0] != '.' && id[0] != '-'
    ensures forall before, after :: !HasTwoDots(id, before, after)
  {
    SafeIdExactly(id);
  }

  // What a rejected plan has wrong with it, by the error it is rejected with.
  ghost predicate IsStageFault(stages: seq<PlanStage>, riskClasses: set<string>, error: PlanError) {
    match error
    case MalformedId(id) => !SafeId(id) && exists s :: s in stages && s.id == id
    case UnknownRiskClass(id, risk) =>
      risk !in riskClasses && exists s :: s in stages && s.id == id && s.riskClass == risk
    case _ => false
  }

  ghost predicate IsEdgeFault(ids: seq<Id>, edges: seq<Edge>, error: PlanError) {
    match error
    case DuplicateEdge(e) => exists i, j :: 0 <= i < j < |edges| && edges[i] == e == edges[j]
    case UndeclaredEndpoint(e) => e in edges && (e.src !in ids || e.dst !in ids)
    case _ => false
  }

  // The units of a cycle are those of the plan in it or behind it; orphans are the stages no contract
  // comes before.
  ghost predicate IsGraphFault(plan: PhasePlan, error: PlanError) {
    match error
    case CyclicPlan(units) => !Acyclic(EdgeSet(plan.edges)) && Sorted(units)
        && forall v :: v in units <==> v in plan.Ids() && InOrBehindCycle(EdgeSet(plan.edges), v)
    case NoContractAncestor(units) => units != [] && Contracts(plan.stages) != {}
        && forall v :: v in units <==> IsOrphan(plan.stages, EdgeSet(plan.edges), v)
    case _ => false
  }

  ghost predicate IsPhaseFault(plan: PhasePlan, riskClasses: set<string>, error: PlanError) {
    match error
    case NothingDeclared => plan.stages == []
    case DuplicateIds => !NoDuplicates(plan.Ids())
    case _ =>
      IsStageFault(plan.stages, riskClasses, error) || IsEdgeFault(plan.Ids(), plan.edges, error)
      || IsGraphFault(plan, error)
  }

  ghost predicate IsMacroFault(plan: MacroPlan, projects: set<string>, error: PlanError) {
    match error
    case UnknownProject(project) => project == plan.project && project !in projects
    case NothingDeclared => plan.phases == []
    case DuplicateIds => !NoDuplicates(plan.Ids())
    case MalformedId(id) => !SafeId(id) && exists p :: p in plan.phases && p.id == id
    case DuplicateEdge(_) => IsEdgeFault(plan.Ids(), plan.edges, error)
    case CyclicPlan(units) => Sorted(units) && !Acyclic(EdgeSet(Induced(plan.Ids(), plan.edges)))
        && forall v :: v in units <==>
             v in plan.Ids() && InOrBehindCycle(EdgeSet(Induced(plan.Ids(), plan.edges)), v)
    case _ => false
  }

  method HasDuplicates(ids: seq<Id>) returns (found: bool)
    ensures found <==> !NoDuplicates(ids)
  {
    var seen: set<Id> := {};
    for i := 0 to |ids|
      invariant seen == set x | x in ids[..i]
      invariant NoDuplicates(ids[..i])
    {
      if ids[i] in seen {
        var k :| 0 <= k < |ids[..i]| && ids[..i][k] == ids[i];
        assert ids[k] == ids[i];
        return true;
      }
      assert ids[..i + 1] == ids[..i] + [ids[i]];
      seen := seen + {ids[i]};
    }
    assert ids[..|ids|] == ids;
    found := false;
  }

  method CheckStages(stages: seq<PlanStage>, riskClasses: set<string>) returns (r: Outcome)
    ensures r.Ok? <==> forall s :: s in stages ==> SafeId(s.id) && s.riskClass in riskClasses
    ensures r.Rejected? ==> IsStageFault(stages, riskClasses, r.error)
  {
    for i := 0 to |stages|
      invariant forall j :: 0 <= j < i ==> SafeId(stages[j].id) && stages[j].riskClass in riskClasses
    {
      if !SafeId(stages[i].id) {
        return Rejected(MalformedId(stages[i].id));
      }
      if stages[i].riskClass !in riskClasses {
        return Rejected(UnknownRiskClass(stages[i].id, stages[i].riskClass));
      }
    }
    return Ok;
  }

  method CheckEdges(ids: seq<Id>, edges: seq<Edge>) returns (r: Outcome)
    ensures r.Ok? <==> NoDuplicates(edges) && forall e :: e in edges ==> e.src in ids && e.dst in ids
    ensures r.Rejected? ==> IsEdgeFault(ids, edges, r.error)
  {
    for i := 0 to |edges|
      invariant NoDuplicates(edges[..i])
      invariant forall j :: 0 <= j < i ==> edges[j].src in ids && edges[j].dst in ids
    {
      var e := edges[i];
      if e in edges[..i] {
        var k :| 0 <= k < |edges[..i]| && edges[..i][k] == e;
        assert edges[k] == e;
        return Rejected(DuplicateEdge(e));
      }
      if e.src !in ids || e.dst !in ids {
        return Rejected(UndeclaredEndpoint(e));
      }
      assert edges[..i + 1] == edges[..i] + [e];
    }
    assert edges[..|edges|] == edges;
    return Ok;
  }

  // Accepts exactly the sound plans.
  method ReadPhasePlan(plan: PhasePlan, riskClasses: set<string>) returns (r: Outcome)
    ensures r.Ok? <==> SoundPhasePlan(plan, riskClasses)
    ensures r.Ok? ==> && plan.stages != [] && (forall stage :: stage in plan.stages ==> stage.riskClass in riskClasses)
                      && (forall i, j :: 0 <= i < j < |plan.stages| ==> plan.stages[i].id != plan.stages[j].id)
                      && forall e :: e in plan.edges ==> e.src in plan.Ids() && e.dst in plan.Ids()
    ensures r.Rejected? ==> IsPhaseFault(plan, riskClasses, r.error)
  {
    if plan.stages == [] {
      return Rejected(NothingDeclared);
    }
    var ids := plan.Ids();
    var repeated := HasDuplicates(ids);
    if repeated {
      return Rejected(DuplicateIds);
    }
    r := CheckStages(plan.stages, riskClasses);
    if r.Rejected? {
      return;
    }
    r := CheckEdges(ids, plan.edges);
    if r.Rejected? {
      return;
    }
    r := CheckGraph(plan);
  }

  method CheckGraph(plan: PhasePlan) returns (r: Outcome)
    requires forall e :: e in plan.edges ==> e.src in plan.Ids() && e.dst in plan.Ids()
    ensures r.Ok? <==> Acyclic(EdgeSet(plan.edges)) && ContractFirst(plan)
    ensures r.Rejected? ==> IsGraphFault(plan, r.error)
  {
    InducedIsAll(plan.Ids(), plan.edges);
    var verdict, _ := Kahn(plan.Ids(), plan.edges);
    if verdict.Cyclic? {
      return Rejected(CyclicPlan(verdict.units));
    }
    EndpointsAreStages(plan);
    var orphans := Orphans(plan.stages, plan.edges);
    if orphans != [] {
      assert IsOrphan(plan.stages, EdgeSet(plan.edges), orphans[0]);
      return Rejected(NoContractAncestor(orphans));
    }
    forall s | s in plan.stages && s.role != Contract && Contracts(plan.stages) != {}
      ensures ProperDescendant(EdgeSet(plan.edges), Contracts(plan.stages), s.id)
    {
      assert s.id !in orphans;
    }
    return Ok;
  }

  lemma {:induction false} EndpointsAreStages(plan: PhasePlan)
    requires forall e :: e in plan.edges ==> e.src in plan.Ids() && e.dst in plan.Ids()
    ensures forall e :: e in plan.edges ==> HasId(plan.stages, e.src) && HasId(plan.stages, e.dst)
  {
    forall v | v in plan.Ids() ensures HasId(plan.stages, v) {
      var i :| 0 <= i < |plan.stages| && plan.Ids()[i] == v;
      assert plan.stages[i] in plan.stages;
    }
  }

  // Accepts exactly the sound plans; edges to phases outside the plan are left to the caller.
  method ReadMacroPlan(plan: MacroPlan, projects: set<string>) returns (r: Outcome)
    ensures r.Ok? <==> SoundMacroPlan(plan, projects)
    ensures r.Ok? ==> && plan.project in projects && plan.phases != []
                      && (forall i, j :: 0 <= i < j < |plan.phases| ==> plan.phases[i].id != plan.phases[j].id)
                      && forall i, j :: 0 <= i < j < |plan.edges| ==> plan.edges[i] != plan.edges[j]
    ensures r.Rejected? ==> IsMacroFault(plan, projects, r.error)
  {
    if plan.project !in projects {
      return Rejected(UnknownProject(plan.project));
    }
    if plan.phases == [] {
      return Rejected(NothingDeclared);
    }
    var ids := plan.Ids();
    var repeated := HasDuplicates(ids);
    if repeated {
      return Rejected(DuplicateIds);
    }
    for i := 0 to |plan.phases|
      invariant forall j :: 0 <= j < i ==> SafeId(plan.phases[j].id)
    {
      if !SafeId(plan.phases[i].id) {
        return Rejected(MalformedId(plan.phases[i].id));
      }
    }
    for i := 0 to |plan.edges|
      invariant NoDuplicates(plan.edges[..i])
    {
      var e := plan.edges[i];
      if e in plan.edges[..i] {
        var k :| 0 <= k < |plan.edges[..i]| && plan.edges[..i][k] == e;
        assert plan.edges[k] == e;
        return Rejected(DuplicateEdge(e));
      }
      assert plan.edges[..i + 1] == plan.edges[..i] + [e];
    }
    assert plan.edges[..|plan.edges|] == plan.edges;
    var verdict, _ := Kahn(ids, plan.edges);
    if verdict.Cyclic? {
      return Rejected(CyclicPlan(verdict.units));
    }
    return Ok;
  }
}
