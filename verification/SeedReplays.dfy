// Repeating a committed seeding run: when the second run is recognised as a replay.
module SeedReplays {
  import opened Ordering
  import opened PlanGraph
  import opened Toposort
  import opened Plans
  import opened Seeding
  import opened SeedPhases

  lemma {:induction false} LatestAfterRegister(refs: seq<MacroRef>, project: string, f: PlanFile)
    requires FindRef(refs, f.path, f.sha) == |refs|
    ensures LatestRef(Register(refs, project, f), project) == |refs|
  {
  }

  // A committed run repeated with the same file is a replay exactly when its reference was new, or the
  // project's latest reference is the very one it found: same path, same digest, same commit.
  lemma {:induction false} RepeatIsReplay(t: Tables, plan: MacroPlan, f: PlanFile)
    ensures IsReplay(SeedTables(t, plan, f), plan, f) <==>
              || FindRef(t.refs, f.path, f.sha) == |t.refs|
              || (var r := LatestRef(t.refs, plan.project);
                  r < |t.refs| && t.refs[r].path == f.path && t.refs[r].sha == f.sha && t.refs[r].commit == f.head)
  {
    PlanIdsArePhaseIds(plan);
    if FindRef(t.refs, f.path, f.sha) == |t.refs| {
      LatestAfterRegister(t.refs, plan.project, f);
    }
  }

  // Histories in which a digest determines the plan it was taken from.
  ghost predicate DigestStep(projects: set<string>, planOf: string -> seq<Id>, t: Tables, t': Tables) {
    exists plan: MacroPlan, f: PlanFile ::
      Admissible(t, plan, projects) && plan.Ids() == planOf(f.sha) && t' == SeedTables(t, plan, f)
  }

  ghost predicate IsDigestHistory(projects: set<string>, planOf: string -> seq<Id>, h: seq<Tables>) {
    && h != [] && h[0] == EmptyTables
    && forall i: nat :: i + 1 < |h| ==> HistoryStep(projects, planOf, h, i)
  }

  ghost predicate HistoryStep(projects: set<string>, planOf: string -> seq<Id>, h: seq<Tables>, i: nat) {
    && i + 1 < |h|
    && (h[i + 1] == h[i] || DigestStep(projects, planOf, h[i], h[i + 1]) || OrchestratorStep(h[i], h[i + 1]))
  }

  // Every reference on record stands for phases that are there.
  ghost predicate RefsAreSeeded(planOf: string -> seq<Id>, t: Tables) {
    forall i, id :: 0 <= i < |t.refs| && id in planOf(t.refs[i].sha) ==> id in t.phases
  }

  lemma {:induction false} HistoryKeepsRefsSeeded(projects: set<string>, planOf: string -> seq<Id>,
                                                   h: seq<Tables>, k: nat)
    requires IsDigestHistory(projects, planOf, h) && k < |h|
    ensures RefsAreSeeded(planOf, h[k])
  {
    if k > 0 {
      HistoryKeepsRefsSeeded(projects, planOf, h, k - 1);
      StepKeepsRefsSeeded(projects, planOf, h, k - 1);
    }
  }

  lemma {:induction false} StepKeepsRefsSeeded(projects: set<string>, planOf: string -> seq<Id>, h: seq<Tables>, i: nat)
    requires IsDigestHistory(projects, planOf, h) && i + 1 < |h| && RefsAreSeeded(planOf, h[i])
    ensures RefsAreSeeded(planOf, h[i + 1])
  {
    assert HistoryStep(projects, planOf, h, i);
    if DigestStep(projects, planOf, h[i], h[i + 1]) {
      var plan: MacroPlan, f: PlanFile :|
        Admissible(h[i], plan, projects) && plan.Ids() == planOf(f.sha) && h[i + 1] == SeedTables(h[i], plan, f);
      SeedingKeepsRefsSeeded(planOf, h[i], plan, f);
    }
  }

  lemma {:induction false} SeedingKeepsRefsSeeded(planOf: string -> seq<Id>, t: Tables, plan: MacroPlan, f: PlanFile)
    requires RefsAreSeeded(planOf, t) && plan.Ids() == planOf(f.sha)
    ensures RefsAreSeeded(planOf, SeedTables(t, plan, f))
  {
    PlanIdsArePhaseIds(plan);
  }

  // Over every such history an admissible run records a reference that was not there.
  lemma {:induction false} ReferencesAreNew(projects: set<string>, planOf: string -> seq<Id>, h: seq<Tables>, k: nat,
                                            plan: MacroPlan, f: PlanFile)
    requires IsDigestHistory(projects, planOf, h) && k < |h|
    requires Admissible(h[k], plan, projects) && plan.Ids() == planOf(f.sha)
    ensures FindRef(h[k].refs, f.path, f.sha) == |h[k].refs|
  {
    HistoryKeepsRefsSeeded(projects, planOf, h, k);
    assert plan.phases[0].id == plan.Ids()[0];
    assert plan.Ids()[0] in planOf(f.sha);
  }

  // The same for the command: the second run of a committed plan says so, or refuses it as divergent.
  lemma {:induction false} CommittedRunIsRepeatable(t: Tables, plan: MacroPlan, projects: set<string>, f: PlanFile,
                                                    around: Surroundings)
    requires Admissible(t, plan, projects) && around.orchestratorStopped
    ensures ReachesReplayCheck(SeedTables(t, plan, f), plan, projects, around)
  {
    PlanIdsArePhaseIds(plan);
    var t' := SeedTables(t, plan, f);
    assert plan.phases[0] in plan.phases;
    assert plan.phases[0].id in plan.Ids() && plan.phases[0].id in t'.phases;
    forall id | id in t'.phases
      ensures t'.phases[id].project == plan.project
    {
      if !(exists p :: p in plan.phases && p.id == id) {
        assert t'.phases[id] == t.phases[id];
      }
    }
  }

  // ---------------------------------------------------------------- any later repetition

  // What a committed run of `plan` leaves behind for good: its phases, its reference as number `n`, and
  // later references of the same project, none of them to the same file.
  ghost predicate LeftBy(t: Tables, plan: MacroPlan, f: PlanFile, n: nat) {
    && n < |t.refs| && t.refs[n] == MacroRef(plan.project, f.path, f.sha, f.head)
    && (forall i :: n < i < |t.refs| ==>
          t.refs[i].project == plan.project && !(t.refs[i].path == f.path && t.refs[i].sha == f.sha))
    && (forall id :: id in plan.Ids() ==> id in t.phases)
    && plan.phases != [] && (forall id :: id in t.phases ==> t.phases[id].project == plan.project)
  }

  lemma {:induction false} SeedingLeaves(t: Tables, plan: MacroPlan, projects: set<string>, f: PlanFile)
    requires Admissible(t, plan, projects) && FindRef(t.refs, f.path, f.sha) == |t.refs|
    ensures LeftBy(SeedTables(t, plan, f), plan, f, |t.refs|)
  {
    PlanIdsArePhaseIds(plan);
    var t' := SeedTables(t, plan, f);
    forall id | id in t'.phases
      ensures t'.phases[id].project == plan.project
    {
      if !(exists p :: p in plan.phases && p.id == id) {
        assert t'.phases[id] == t.phases[id];
      }
    }
  }

  lemma {:induction false} SeedingKeepsLeft(t: Tables, plan: MacroPlan, f: PlanFile, n: nat, next: MacroPlan,
                                            g: PlanFile, projects: set<string>)
    requires LeftBy(t, plan, f, n) && Admissible(t, next, projects) && FindRef(t.refs, g.path, g.sha) == |t.refs|
    ensures LeftBy(SeedTables(t, next, g), plan, f, n) && |SeedTables(t, next, g).refs| == |t.refs| + 1
  {
    PlanIdsArePhaseIds(next);
    var t' := SeedTables(t, next, g);
    assert plan.Ids()[0] in t.phases;
    assert next.project == plan.project;
    forall id | id in t'.phases
      ensures t'.phases[id].project == plan.project
    {
      if !(exists p :: p in next.phases && p.id == id) {
        assert t'.phases[id] == t.phases[id];
      }
    }
  }

  lemma {:induction false} OrchestratorKeepsLeft(t: Tables, t': Tables, plan: MacroPlan, f: PlanFile, n: nat)
    requires LeftBy(t, plan, f, n) && OrchestratorStep(t, t')
    ensures LeftBy(t', plan, f, n)
  {
  }

  lemma {:induction false} StepKeepsLeft(projects: set<string>, planOf: string -> seq<Id>, h: seq<Tables>, i: nat,
                                         plan: MacroPlan, f: PlanFile, n: nat)
    requires IsDigestHistory(projects, planOf, h) && i + 1 < |h| && LeftBy(h[i], plan, f, n)
    ensures LeftBy(h[i + 1], plan, f, n)
  {
    assert HistoryStep(projects, planOf, h, i);
    if DigestStep(projects, planOf, h[i], h[i + 1]) {
      var next: MacroPlan, g: PlanFile :|
        Admissible(h[i], next, projects) && next.Ids() == planOf(g.sha) && h[i + 1] == SeedTables(h[i], next, g);
      ReferencesAreNew(projects, planOf, h, i, next, g);
      SeedingKeepsLeft(h[i], plan, f, n, next, g, projects);
    } else if OrchestratorStep(h[i], h[i + 1]) {
      OrchestratorKeepsLeft(h[i], h[i + 1], plan, f, n);
    }
  }

  lemma {:induction false} HistoryKeepsLeft(projects: set<string>, planOf: string -> seq<Id>, h: seq<Tables>, i: nat,
                                            j: nat, plan: MacroPlan, f: PlanFile, n: nat)
    requires IsDigestHistory(projects, planOf, h) && i <= j < |h| && LeftBy(h[i], plan, f, n)
    ensures LeftBy(h[j], plan, f, n)
    decreases j
  {
    if i < j {
      HistoryKeepsLeft(projects, planOf, h, i, j - 1, plan, f, n);
      StepKeepsLeft(projects, planOf, h, j - 1, plan, f, n);
    }
  }

  lemma {:induction false} LatestOfOneProject(refs: seq<MacroRef>, project: string)
    requires refs != [] && refs[|refs| - 1].project == project
    ensures LatestRef(refs, project) == |refs| - 1
  {
  }

  // The k-th step of the history is a committed run of `plan`.
  ghost predicate CommittedAt(projects: set<string>, planOf: string -> seq<Id>, h: seq<Tables>, k: nat,
                              plan: MacroPlan, f: PlanFile)
  {
    && k + 1 < |h| && Admissible(h[k], plan, projects) && plan.Ids() == planOf(f.sha)
    && h[k + 1] == SeedTables(h[k], plan, f)
  }

  // A committed run, repeated with the same file at any later time, is a replay exactly when the
  // repository's head is still the one recorded and no other plan has been seeded since.
  lemma {:induction false} CommittedRunsReplay(projects: set<string>, planOf: string -> seq<Id>, h: seq<Tables>, k: nat,
                                               j: nat, plan: MacroPlan, f: PlanFile)
    requires IsDigestHistory(projects, planOf, h) && k < j < |h| && CommittedAt(projects, planOf, h, k, plan, f)
    ensures |h[k + 1].refs| <= |h[j].refs|
    ensures forall head :: IsReplay(h[j], plan, f.(head := head)) <==> head == f.head && |h[j].refs| == |h[k + 1].refs|
  {
    ReferencesAreNew(projects, planOf, h, k, plan, f);
    SeedingLeaves(h[k], plan, projects, f);
    HistoryKeepsLeft(projects, planOf, h, k + 1, j, plan, f, |h[k].refs|);
    LatestOfOneProject(h[j].refs, plan.project);
  }

  // References are added by seeding another plan, and by nothing else.
  lemma {:induction false} ReferencesCountSeedings(projects: set<string>, planOf: string -> seq<Id>,
                                                   h: seq<Tables>, i: nat)
    requires IsDigestHistory(projects, planOf, h) && i + 1 < |h|
    ensures |h[i + 1].refs| == |h[i].refs| + 1 <==> DigestStep(projects, planOf, h[i], h[i + 1])
    ensures |h[i + 1].refs| == |h[i].refs| <==> !DigestStep(projects, planOf, h[i], h[i + 1])
  {
    assert HistoryStep(projects, planOf, h, i);
    if DigestStep(projects, planOf, h[i], h[i + 1]) {
      var next: MacroPlan, g: PlanFile :|
        Admissible(h[i], next, projects) && next.Ids() == planOf(g.sha) && h[i + 1] == SeedTables(h[i], next, g);
      ReferencesAreNew(projects, planOf, h, i, next, g);
    }
  }

  // ---------------------------------------------------------------- another plan in between

  // Ready for a first phase `id` of project "p".
  ghost predicate Awaits(t: Tables, id: Id) {
    t.edges == [] && id !in t.phases && forall v :: v in t.phases ==> t.phases[v].project == "p"
  }

  ghost predicate IsPlanFor(plan: MacroPlan, f: PlanFile, id: Id) {
    plan == MacroPlan("p", [MacroPhase(id, id)], []) && f == PlanFile(id + ".json", id, "head")
  }

  lemma {:induction false} PlanFor(id: Id) returns (plan: MacroPlan, f: PlanFile)
    ensures IsPlanFor(plan, f, id) && f.head == "head"
  {
    plan, f := MacroPlan("p", [MacroPhase(id, id)], []), PlanFile(id + ".json", id, "head");
  }

  lemma {:induction false} PlanForIsAdmissible(t: Tables, plan: MacroPlan, f: PlanFile, id: Id)
    requires (id == "a" || id == "b") && IsPlanFor(plan, f, id) && Awaits(t, id)
    ensures Admissible(t, plan, {"p"}) && plan.Ids() == [f.sha]
  {
    assert plan.Ids() == [id];
    assert Induced(plan.Ids(), []) == [];
    NoEdgesNoCycle(EdgeSet(Induced(plan.Ids(), plan.edges)));
    NoEdgesNoCycle(EdgeSet(t.edges + plan.edges));
  }

  lemma {:induction false} OtherStillAwaited(t: Tables, plan: MacroPlan, f: PlanFile, id: Id, other: Id)
    requires IsPlanFor(plan, f, id) && Awaits(t, id) && Awaits(t, other) && other != id
    ensures Awaits(SeedTables(t, plan, f), other)
  {
    assert plan.phases[..0] == [];
  }

  // Whatever is seeded right after a committed run ends its replay.
  lemma {:induction false} NextPlanEndsTheReplay(projects: set<string>, planOf: string -> seq<Id>, h: seq<Tables>,
                                                 k: nat, plan: MacroPlan, f: PlanFile, next: MacroPlan, g: PlanFile)
    requires IsDigestHistory(projects, planOf, h) && k + 2 < |h|
    requires CommittedAt(projects, planOf, h, k, plan, f) && CommittedAt(projects, planOf, h, k + 1, next, g)
    ensures IsReplay(h[k + 1], plan, f) && !IsReplay(h[k + 2], plan, f)
  {
    CommittedRunsReplay(projects, planOf, h, k, k + 1, plan, f);
    CommittedRunsReplay(projects, planOf, h, k, k + 2, plan, f);
    ReferencesAreNew(projects, planOf, h, k + 1, next, g);
    assert f.(head := f.head) == f;
  }

  // Plan "a", then plan "b" at the same head, then plan "a" again: no replay, although the head has not
  // moved and nobody has touched the file.
  lemma {:induction false} AnotherPlanEndsTheReplay()
    returns (h: seq<Tables>, a: MacroPlan, fa: PlanFile, b: MacroPlan, fb: PlanFile)
    ensures IsPlanFor(a, fa, "a") && IsPlanFor(b, fb, "b") && fa.head == fb.head
    ensures IsDigestHistory({"p"}, (sha: string) => [sha], h) && |h| == 3
    ensures CommittedAt({"p"}, (sha: string) => [sha], h, 0, a, fa) && IsReplay(h[1], a, fa)
    ensures CommittedAt({"p"}, (sha: string) => [sha], h, 1, b, fb) && !IsReplay(h[2], a, fa)
  {
    a, fa := PlanFor("a");
    b, fb := PlanFor("b");
    BothAreAdmissible(a, fa, b, fb);
    h := TwoSeedings({"p"}, (sha: string) => [sha], EmptyTables, a, fa, b, fb);
    NextPlanEndsTheReplay({"p"}, (sha: string) => [sha], h, 0, a, fa, b, fb);
  }

  lemma {:induction false} BothAreAdmissible(a: MacroPlan, fa: PlanFile, b: MacroPlan, fb: PlanFile)
    requires IsPlanFor(a, fa, "a") && IsPlanFor(b, fb, "b")
    ensures Admissible(EmptyTables, a, {"p"}) && a.Ids() == [fa.sha]
    ensures Admissible(SeedTables(EmptyTables, a, fa), b, {"p"}) && b.Ids() == [fb.sha]
  {
    PlanForIsAdmissible(EmptyTables, a, fa, "a");
    OtherStillAwaited(EmptyTables, a, fa, "a", "b");
    PlanForIsAdmissible(SeedTables(EmptyTables, a, fa), b, fb, "b");
  }

  lemma {:induction false} TwoSeedings(projects: set<string>, planOf: string -> seq<Id>, t: Tables, a: MacroPlan,
                                       fa: PlanFile, b: MacroPlan, fb: PlanFile) returns (h: seq<Tables>)
    requires t == EmptyTables && Admissible(t, a, projects) && a.Ids() == planOf(fa.sha)
    requires Admissible(SeedTables(t, a, fa), b, projects) && b.Ids() == planOf(fb.sha)
    ensures IsDigestHistory(projects, planOf, h) && |h| == 3 && CommittedAt(projects, planOf, h, 0, a, fa)
    ensures CommittedAt(projects, planOf, h, 1, b, fb)
  {
    var t1 := SeedTables(t, a, fa);
    var t2 := SeedTables(t1, b, fb);
    assert DigestStep(projects, planOf, t, t1) && DigestStep(projects, planOf, t1, t2);
    HistoryGrows(projects, planOf, [t], t1);
    HistoryGrows(projects, planOf, [t] + [t1], t2);
    h := [t] + [t1] + [t2];
  }

  lemma {:induction false} HistoryGrows(projects: set<string>, planOf: string -> seq<Id>, h: seq<Tables>, t: Tables)
    requires IsDigestHistory(projects, planOf, h) && DigestStep(projects, planOf, h[|h| - 1], t)
    ensures IsDigestHistory(projects, planOf, h + [t])
  {
    var longer := h + [t];
    forall i: nat | i + 1 < |longer|
      ensures HistoryStep(projects, planOf, longer, i)
    {
      if i + 1 < |h| {
        assert HistoryStep(projects, planOf, h, i);
      }
    }
  }
}
