// `seed-phases`: the one command that creates phases. A run validates a macro plan against the
// database and then writes everything in one transaction, or writes nothing.
module Seeding {
  import opened Ordering
  import opened PlanGraph
  import opened Toposort
  import opened Plans
  import opened UnitStates
  import opened Dispatch

  datatype Phase = Phase(project: string, name: string, state: UnitState)
  datatype MacroRef = MacroRef(project: string, path: string, sha: string, commit: string)
  datatype Event = PhaseSeeded(id: Id, ref: nat) | OtherEvent

  // The tables a seeding run reads and writes; a ref's id is its position.
  datatype Tables = Tables(phases: map<Id, Phase>, edges: seq<Edge>, refs: seq<MacroRef>, events: seq<Event>)

  const EmptyTables := Tables(map[], [], [], [])

  // The plan file as found on disk and the factory repository's HEAD.
  datatype PlanFile = PlanFile(path: string, sha: string, head: string)

  // What the run finds outside the database.
  datatype Surroundings = Surroundings(orchestratorStopped: bool, workspaceReady: bool, planCommitted: bool)

  datatype Refusal =
    | OrchestratorRunning | BadPlan(error: PlanError) | ForeignProject | DivergentPlan
    | UnknownPhase(edge: Edge) | DeadPhase(edge: Edge) | EdgeExists(edge: Edge)
    | CombinedCycle(units: seq<Id>) | WorkspaceNotReady | PlanNotCommitted | WriteFailed

  datatype SeedResult = Seeded | AlreadySeeded | DryRun | Refused(why: Refusal)

  predicate Dead(s: UnitState) {
    s == Failed || s == Cancelled
  }

  predicate KnownEndpoint(t: Tables, plan: MacroPlan, v: Id) {
    v in plan.Ids() || v in t.phases
  }

  predicate LiveEndpoint(t: Tables, v: Id) {
    v in t.phases ==> !Dead(t.phases[v].state)
  }

  ghost predicate SoundEdges(t: Tables, plan: MacroPlan) {
    && (forall e :: e in plan.edges ==>
          && KnownEndpoint(t, plan, e.src) && KnownEndpoint(t, plan, e.dst)
          && LiveEndpoint(t, e.src) && LiveEndpoint(t, e.dst)
          && e !in t.edges)
    && Acyclic(EdgeSet(t.edges + plan.edges))
  }

  // The conditions under which a run reaches its transaction.
  ghost predicate Admissible(t: Tables, plan: MacroPlan, projects: set<string>) {
    && SoundMacroPlan(plan, projects)
    && (forall id :: id in t.phases ==> t.phases[id].project == plan.project)
    && (forall id :: id in plan.Ids() ==> id !in t.phases)
    && SoundEdges(t, plan)
  }

  // ---------------------------------------------------------------- what the transaction writes

  function AddPhases(phases: map<Id, Phase>, project: string, ps: seq<MacroPhase>): (r: map<Id, Phase>)
    ensures forall id :: id in r <==> id in phases || exists p :: p in ps && p.id == id
    ensures forall id :: id in phases && (forall p :: p in ps ==> p.id != id) ==> r[id] == phases[id]
    ensures forall p :: p in ps ==> r[p.id].project == project && r[p.id].state == Pending
  {
    if ps == [] then phases
    else
      var last := ps[|ps| - 1];
      AddPhases(phases, project, ps[..|ps| - 1])[last.id := Phase(project, last.name, Pending)]
  }

  function FindRef(refs: seq<MacroRef>, path: string, sha: string): (r: nat)
    ensures r <= |refs|
    ensures r < |refs| ==> refs[r].path == path && refs[r].sha == sha
    ensures forall i :: 0 <= i < r ==> refs[i].path != path || refs[i].sha != sha
  {
    if refs == [] || (refs[0].path == path && refs[0].sha == sha) then 0
    else 1 + FindRef(refs[1..], path, sha)
  }

  // Get-or-create on (path, sha256).
  function Register(refs: seq<MacroRef>, project: string, f: PlanFile): seq<MacroRef> {
    if FindRef(refs, f.path, f.sha) < |refs| then refs
    else refs + [MacroRef(project, f.path, f.sha, f.head)]
  }

  function SeedEvents(ps: seq<MacroPhase>, ref: nat): (r: seq<Event>)
    ensures |r| == |ps|
  {
    seq(|ps|, i requires 0 <= i < |ps| => PhaseSeeded(ps[i].id, ref))
  }

  function SeedTables(t: Tables, plan: MacroPlan, f: PlanFile): Tables {
    Tables(AddPhases(t.phases, plan.project, plan.phases),
           t.edges + plan.edges,
           Register(t.refs, plan.project, f),
           t.events + SeedEvents(plan.phases, FindRef(t.refs, f.path, f.sha)))
  }

  lemma {:induction false} PhasesAreNamed(phases: map<Id, Phase>, project: string, ps: seq<MacroPhase>)
    requires forall i, j :: 0 <= i < j < |ps| ==> ps[i].id != ps[j].id
    ensures forall p :: p in ps ==> AddPhases(phases, project, ps)[p.id] == Phase(project, p.name, Pending)
  {
    if ps != [] {
      var init, last := ps[..|ps| - 1], ps[|ps| - 1];
      assert ps == init + [last];
      PhasesAreNamed(phases, project, init);
      forall p | p in init ensures p.id != last.id {
        var i :| 0 <= i < |init| && init[i] == p;
        assert ps[i] == p;
      }
    }
  }

  // Every phase of the plan is there, pending, under its project and name.
  ghost predicate Named(t: Tables, plan: MacroPlan) {
    forall p :: p in plan.phases ==> p.id in t.phases && t.phases[p.id] == Phase(plan.project, p.name, Pending)
  }

  // From position `n` on the log has one event for each phase of the plan, in order, and all of them
  // name a reference to the plan's file.
  ghost predicate Logged(t: Tables, plan: MacroPlan, f: PlanFile, n: nat) {
    && |t.events| == n + |plan.phases|
    && exists ref: nat ::
         && ref < |t.refs| && t.refs[ref].path == f.path && t.refs[ref].sha == f.sha
         && forall i :: 0 <= i < |plan.phases| ==> t.events[n + i] == PhaseSeeded(plan.phases[i].id, ref)
  }

  // What a committed run adds, table by table.
  lemma {:induction false} SeedingStores(t: Tables, plan: MacroPlan, f: PlanFile)
    ensures var t' := SeedTables(t, plan, f);
            && (forall e :: e in t'.edges <==> e in t.edges || e in plan.edges)
            && (forall id :: id in t'.phases <==> id in t.phases || id in plan.Ids())
            && (forall id :: id in t.phases && id !in plan.Ids() ==> t'.phases[id] == t.phases[id])
            && (NoDuplicates(plan.Ids()) ==> Named(t', plan))
            && t.events <= t'.events && Logged(t', plan, f, |t.events|)
            && t.refs <= t'.refs
  {
    PlanIdsArePhaseIds(plan);
    if NoDuplicates(plan.Ids()) {
      PhasesAreNamed(t.phases, plan.project, plan.phases);
    }
    EventsAreLogged(t, plan, f);
  }

  lemma {:induction false} EventsAreLogged(t: Tables, plan: MacroPlan, f: PlanFile)
    ensures Logged(SeedTables(t, plan, f), plan, f, |t.events|)
  {
    var t', ref := SeedTables(t, plan, f), FindRef(t.refs, f.path, f.sha);
    assert ref < |t'.refs| && t'.refs[ref].path == f.path && t'.refs[ref].sha == f.sha;
    forall i | 0 <= i < |plan.phases|
      ensures t'.events[|t.events| + i] == PhaseSeeded(plan.phases[i].id, ref)
    {
      assert t'.events[|t.events| + i] == SeedEvents(plan.phases, ref)[i];
    }
  }

  // ---------------------------------------------------------------- every reachable database

  function SeedCount(events: seq<Event>, id: Id): nat {
    if events == [] then 0
    else
      var last := events[|events| - 1];
      SeedCount(events[..|events| - 1], id) + if last.PhaseSeeded? && last.id == id then 1 else 0
  }

  ghost predicate Consistent(t: Tables) {
    && Acyclic(EdgeSet(t.edges))
    && (forall e :: e in t.edges ==> e.src in t.phases && e.dst in t.phases)
    && (forall a, b :: a in t.phases && b in t.phases ==> t.phases[a].project == t.phases[b].project)
    && (forall id :: SeedCount(t.events, id) == if id in t.phases then 1 else 0)
  }

  // The orchestrator, between runs: one phase takes one legal transition.
  ghost predicate OrchestratorStep(t: Tables, t': Tables) {
    exists id, s :: id in t.phases && s in PhaseExits(t.phases[id].state)
      && t' == t.(phases := t.phases[id := t.phases[id].(state := s)], events := t.events + [OtherEvent])
  }

  ghost predicate SeedStep(projects: set<string>, t: Tables, t': Tables) {
    exists plan, f :: Admissible(t, plan, projects) && t' == SeedTables(t, plan, f)
  }

  ghost predicate IsHistory(projects: set<string>, h: seq<Tables>) {
    && h != [] && h[0] == EmptyTables
    && forall i :: 0 <= i < |h| - 1 ==>
         h[i + 1] == h[i] || SeedStep(projects, h[i], h[i + 1]) || OrchestratorStep(h[i], h[i + 1])
  }

  lemma {:induction false} CountConcat(a: seq<Event>, b: seq<Event>, id: Id)
    ensures SeedCount(a + b, id) == SeedCount(a, id) + SeedCount(b, id)
  {
    if b == [] {
      assert a + b == a;
    } else {
      assert (a + b)[..|a + b| - 1] == a + b[..|b| - 1];
      CountConcat(a, b[..|b| - 1], id);
    }
  }

  lemma {:induction false} SeedsEachOnce(ps: seq<MacroPhase>, ref: nat, id: Id)
    requires forall i, j :: 0 <= i < j < |ps| ==> ps[i].id != ps[j].id
    ensures SeedCount(SeedEvents(ps, ref), id) == if exists p :: p in ps && p.id == id then 1 else 0
  {
    if ps != [] {
      var init, last := ps[..|ps| - 1], ps[|ps| - 1];
      assert SeedEvents(ps, ref)[..|ps| - 1] == SeedEvents(init, ref);
      assert ps == init + [last];
      SeedsEachOnce(init, ref, id);
    }
  }

  lemma {:induction false} PlanIdsArePhaseIds(plan: MacroPlan)
    ensures forall v :: v in plan.Ids() <==> exists p :: p in plan.phases && p.id == v
    ensures NoDuplicates(plan.Ids()) ==> forall i, j :: 0 <= i < j < |plan.phases| ==>
            plan.phases[i].id != plan.phases[j].id
  {
    forall v ensures v in plan.Ids() <==> exists p :: p in plan.phases && p.id == v {
      if v in plan.Ids() {
        var i :| 0 <= i < |plan.phases| && plan.Ids()[i] == v;
        assert plan.phases[i] in plan.phases;
      }
      if p :| p in plan.phases && p.id == v {
        var i :| 0 <= i < |plan.phases| && plan.phases[i] == p;
        assert plan.Ids()[i] == v;
      }
    }
    if NoDuplicates(plan.Ids()) {
      forall i, j | 0 <= i < j < |plan.phases| ensures plan.phases[i].id != plan.phases[j].id {
        assert plan.Ids()[i] != plan.Ids()[j];
      }
    }
  }

  lemma {:induction false} SeedingCountsOnce(t: Tables, plan: MacroPlan, f: PlanFile, id: Id)
    requires SeedCount(t.events, id) == if id in t.phases then 1 else 0
    requires NoDuplicates(plan.Ids()) && forall v :: v in plan.Ids() ==> v !in t.phases
    ensures SeedCount(SeedTables(t, plan, f).events, id) == if id in SeedTables(t, plan, f).phases then 1 else 0
  {
    PlanIdsArePhaseIds(plan);
    var ref := FindRef(t.refs, f.path, f.sha);
    CountConcat(t.events, SeedEvents(plan.phases, ref), id);
    SeedsEachOnce(plan.phases, ref, id);
  }

  lemma {:induction false} SeedingKeepsConsistent(projects: set<string>, t: Tables, plan: MacroPlan, f: PlanFile)
    requires Consistent(t) && Admissible(t, plan, projects)
    ensures Consistent(SeedTables(t, plan, f))
  {
    PlanIdsArePhaseIds(plan);
    forall id {
      SeedingCountsOnce(t, plan, f, id);
    }
  }

  lemma {:induction false} OrchestratorKeepsConsistent(t: Tables, t': Tables)
    requires Consistent(t) && OrchestratorStep(t, t')
    ensures Consistent(t')
  {
    forall id ensures SeedCount(t'.events, id) == SeedCount(t.events, id) {
      CountConcat(t.events, [OtherEvent], id);
    }
  }

  // Over every history of seeding runs and transitions from the empty database: the phase graph is
  // acyclic, edges join known phases, there is one project, and each phase was seeded exactly once.
  lemma {:induction false} HistoryIsConsistent(projects: set<string>, h: seq<Tables>, k: nat)
    requires IsHistory(projects, h) && k < |h|
    ensures Consistent(h[k])
  {
    if k == 0 {
      NoEdgesNoCycle(EdgeSet([]));
    } else {
      HistoryIsConsistent(projects, h, k - 1);
      var t, t' := h[k - 1], h[(k - 1) + 1];
      if SeedStep(projects, t, t') {
        var plan, f :| Admissible(t, plan, projects) && t' == SeedTables(t, plan, f);
        SeedingKeepsConsistent(projects, t, plan, f);
      } else if OrchestratorStep(t, t') {
        OrchestratorKeepsConsistent(t, t');
      }
    }
  }

  function PhaseStates(t: Tables): States {
    map id | id in t.phases :: t.phases[id].state
  }

  // So the seeded phases never stall silently either.
  lemma {:induction false} SeededPhasesNeverStall(projects: set<string>, h: seq<Tables>, k: nat, id: Id)
    returns (cause: Id)
    requires IsHistory(projects, h) && k < |h| && id in h[k].phases
    requires CategoryOf(PhaseStates(h[k]), EdgeSet(h[k].edges), id) == Waiting
    ensures cause in h[k].phases && HeldUpBy(PhaseStates(h[k]), EdgeSet(h[k].edges), id, cause)
  {
    HistoryIsConsistent(projects, h, k);
    cause := NoSilentStall(PhaseStates(h[k]), EdgeSet(h[k].edges), id);
  }
}
