// Many stages rebase, test and merge into one target branch. The target's lock is held during a gate
// and during an integration, and is free between the two.
module MergeGate {
  import opened CommitGraph
  import opened Options

  type Unit = string

  // One run of the test suite: the branch was just rebased onto `onto`, and `tip` was tested.
  datatype SuiteRun = SuiteRun(unit: Unit, onto: CommitId, tip: CommitId, passed: bool)

  // One integration that moved the target: from `prev` to `head`, on the strength of suite run `gate`.
  datatype Merge = Merge(unit: Unit, gate: nat, prev: CommitId, head: CommitId)

  // Where a unit stands. All but Developing and Gated happen under the lock.
  datatype Work =
    | Developing
    | Gating
    | Rebased
    | Gated(gate: nat)
    | Integrating(gate: nat)
    | Merging(gate: nat)

  datatype State = State(
    commits: History,
    target: CommitId,
    branch: map<Unit, CommitId>,
    work: map<Unit, Work>,
    lock: Option<Unit>,
    suites: seq<SuiteRun>,
    merges: seq<Merge>)

  datatype RebaseResult = Conflict | UpToDate | Replayed(trees: seq<Tree>)

  datatype Event =
    | Create(unit: Unit)
    | Develop(unit: Unit, tree: Tree)
    | EnterGate(unit: Unit)
    | Rebase(unit: Unit, result: RebaseResult)
    | Suite(unit: Unit, passed: bool)
    | Rework(unit: Unit)
    | EnterIntegrate(unit: Unit)
    | TestAncestor(unit: Unit)
    | DoMerge(unit: Unit, ok: bool, mixed: Tree)
    | Abandon(unit: Unit)

  predicate At(s: State, u: Unit, w: Work) {
    u in s.work && u in s.branch && s.work[u] == w
  }

  // Neither the branch nor the work of `u` differs.
  predicate SamePlace(s: State, t: State, u: Unit) {
    && (u in s.branch <==> u in t.branch) && (u in s.branch ==> s.branch[u] == t.branch[u])
    && (u in s.work <==> u in t.work) && (u in s.work ==> s.work[u] == t.work[u])
  }

  predicate HoldsLock(s: State, u: Unit) {
    s.lock == Some(u)
  }

  // An event that is not possible in `s` leaves it alone. A unit whose integration has ended, with a
  // merge or without one, may try to integrate on the same gate again: only the ancestor test stops it.
  function Step(s: State, e: Event): State {
    match e
    case Create(u) =>
      if u in s.work || u in s.branch then s
      else s.(branch := s.branch[u := s.target], work := s.work[u := Developing])
    case Develop(u, tree) =>
      if !At(s, u, Developing) then s
      else s.(commits := s.commits + [Commit([s.branch[u]], tree)], branch := s.branch[u := |s.commits|])
    case EnterGate(u) =>
      if !At(s, u, Developing) || s.lock != None then s
      else s.(lock := Some(u), work := s.work[u := Gating])
    case Rebase(u, result) =>
      if !At(s, u, Gating) || !HoldsLock(s, u) then s
      else (match result
        case Conflict => s.(lock := None, work := s.work[u := Developing])
        case UpToDate =>
          if IsAncestor(s.commits, s.target, s.branch[u]) then s.(work := s.work[u := Rebased]) else s
        case Replayed(trees) =>
          s.(commits := Replay(s.commits, s.target, trees),
             branch := s.branch[u := Tip(s.commits, s.target, trees)],
             work := s.work[u := Rebased]))
    case Suite(u, passed) =>
      if !At(s, u, Rebased) || !HoldsLock(s, u) then s
      else s.(lock := None,
              suites := s.suites + [SuiteRun(u, s.target, s.branch[u], passed)],
              work := s.work[u := if passed then Gated(|s.suites|) else Developing])
    case Rework(u) =>
      if u !in s.work || u !in s.branch || !s.work[u].Gated? then s
      else s.(work := s.work[u := Developing])
    case EnterIntegrate(u) =>
      if u !in s.work || u !in s.branch || !s.work[u].Gated? || s.lock != None then s
      else s.(lock := Some(u), work := s.work[u := Integrating(s.work[u].gate)])
    case TestAncestor(u) =>
      if u !in s.work || u !in s.branch || !s.work[u].Integrating? || !HoldsLock(s, u) then s
      else if IsAncestor(s.commits, s.target, s.branch[u]) then
        s.(work := s.work[u := Merging(s.work[u].gate)])
      else s.(lock := None, work := s.work[u := Gated(s.work[u].gate)])
    case DoMerge(u, ok, mixed) =>
      if u !in s.work || u !in s.branch || !s.work[u].Merging? || !HoldsLock(s, u) then s
      else
        var released := s.(lock := None, work := s.work[u := Gated(s.work[u].gate)]);
        if !ok then released else MergeInto(released, u, s.work[u].gate, mixed)
    case Abandon(u) =>
      if u !in s.work || u !in s.branch || !UnderLock(s.work[u]) || !HoldsLock(s, u) then s
      else s.(lock := None, work := s.work[u := AfterAbandon(s.work[u])])
  }

  predicate UnderLock(w: Work) {
    w.Gating? || w.Rebased? || w.Integrating? || w.Merging?
  }

  // An exception or a cancelled task gives up the lock. A gate already passed is still on record.
  function AfterAbandon(w: Work): Work {
    match w
    case Integrating(gate) => Gated(gate)
    case Merging(gate) => Gated(gate)
    case _ => Developing
  }

  // `git merge --no-ff`: nothing to do when the branch is already contained in the target; the branch's
  // tree when the target is contained in the branch; some combination otherwise.
  function MergeInto(s: State, u: Unit, gate: nat, mixed: Tree): State
    requires u in s.branch
  {
    var tip := s.branch[u];
    if IsAncestor(s.commits, tip, s.target) || tip >= |s.commits| then s
    else
      var tree := if IsAncestor(s.commits, s.target, tip) then s.commits[tip].tree else mixed;
      s.(commits := s.commits + [Commit([s.target, tip], tree)],
         target := |s.commits|,
         merges := s.merges + [Merge(u, gate, s.target, |s.commits|)])
  }

  function Run(s: State, es: seq<Event>): State {
    if es == [] then s else Step(Run(s, es[..|es| - 1]), es[|es| - 1])
  }

  // ---------------------------------------------------------------- what every step keeps

  ghost predicate Shape(s: State) {
    && Grown(s.commits) && s.target < |s.commits|
    && (forall u :: u in s.branch ==> s.branch[u] < |s.commits|)
    && (forall u :: u in s.work && UnderLock(s.work[u]) ==> HoldsLock(s, u))
  }

  // A recorded gate still fits the target, or the target has moved past everything the gate saw.
  ghost predicate GateFits(s: State, g: SuiteRun) {
    && g.onto <= s.target && g.tip < |s.commits|
    && IsAncestor(s.commits, g.onto, g.tip)
    && (g.onto == s.target || g.tip < s.target)
  }

  ghost predicate WorkFits(s: State, u: Unit) {
    u in s.work && u in s.branch ==>
      && (s.work[u].Rebased? || s.work[u].Merging? ==> IsAncestor(s.commits, s.target, s.branch[u]))
      && (s.work[u].Gated? || s.work[u].Integrating? || s.work[u].Merging? ==>
            && s.work[u].gate < |s.suites|
            && s.suites[s.work[u].gate].passed
            && s.suites[s.work[u].gate].unit == u
            && s.suites[s.work[u].gate].tip == s.branch[u])
  }

  // What the target got was tested, on top of what the target had.
  ghost predicate MergeFits(s: State, m: Merge) {
    && m.gate < |s.suites| && m.head < |s.commits| && m.prev < m.head
    && var g := s.suites[m.gate];
       && g.passed && g.unit == m.unit && g.onto == m.prev && g.tip < |s.commits|
       && IsAncestor(s.commits, m.prev, g.tip)
       && s.commits[m.head] == Commit([m.prev, g.tip], s.commits[g.tip].tree)
  }

  ghost predicate MergesChain(s: State) {
    && (forall i :: 0 <= i < |s.merges| - 1 ==> s.merges[i + 1].prev == s.merges[i].head)
    && (s.merges != [] ==> s.merges[|s.merges| - 1].head == s.target)
  }

  ghost predicate Inv(s: State) {
    && Shape(s)
    && (forall i :: 0 <= i < |s.suites| ==> GateFits(s, s.suites[i]))
    && (forall u :: WorkFits(s, u))
    && (forall i :: 0 <= i < |s.merges| ==> MergeFits(s, s.merges[i]))
    && MergesChain(s)
  }

  // Growing the history, with the target where it was, keeps every recorded fact.
  lemma {:induction false} GrowthKeepsFacts(s: State, t: State)
    requires Inv(s) && Grown(t.commits)
    requires s.commits <= t.commits && t.target == s.target && t.suites == s.suites && t.merges == s.merges
    ensures forall i :: 0 <= i < |t.suites| ==> GateFits(t, t.suites[i])
    ensures forall i :: 0 <= i < |t.merges| ==> MergeFits(t, t.merges[i])
    ensures forall a: CommitId, b: CommitId :: b < |s.commits| ==>
            (IsAncestor(t.commits, a, b) <==> IsAncestor(s.commits, a, b))
  {
    var more := t.commits[|s.commits|..];
    assert t.commits == s.commits + more;
    forall a, b: CommitId | b < |s.commits|
      ensures IsAncestor(t.commits, a, b) <==> IsAncestor(s.commits, a, b)
    {
      AncestryIsStable(s.commits, more, a, b);
    }
    forall i | 0 <= i < |t.suites| ensures GateFits(t, t.suites[i]) {
      assert GateFits(s, s.suites[i]);
    }
    forall i | 0 <= i < |t.merges| ensures MergeFits(t, t.merges[i]) {
      assert MergeFits(s, s.merges[i]);
    }
  }

  // The heart of the gate. For a recorded gate, the target is still contained in the gated tip exactly
  // when the target has not moved since.
  lemma {:induction false} AncestorTestIsExact(s: State, i: nat)
    requires Inv(s) && i < |s.suites|
    ensures IsAncestor(s.commits, s.target, s.suites[i].tip) <==> s.target == s.suites[i].onto
  {
    assert GateFits(s, s.suites[i]);
    if IsAncestor(s.commits, s.target, s.suites[i].tip) {
      AncestorsAreOlder(s.commits, s.target, s.suites[i].tip);
    }
  }

  lemma {:induction false} RebaseKeepsInv(s: State, u: Unit, result: RebaseResult)
    requires Inv(s)
    ensures Inv(Step(s, Rebase(u, result)))
  {
    var t := Step(s, Rebase(u, result));
    if t == s {
      return;
    }
    if result.Replayed? {
      RebasedKeepsInv(s, u, Replay(s.commits, s.target, result.trees), Tip(s.commits, s.target, result.trees),
          result.trees);
    } else {
      RefsStayKeepsInv(s, t, u);
    }
  }

  // The replayed commits and the moved branch.
  lemma {:induction false} RebasedKeepsInv(s: State, u: Unit, commits: History, tip: CommitId, trees: seq<Tree>)
    requires Inv(s) && At(s, u, Gating) && HoldsLock(s, u)
    requires commits == Replay(s.commits, s.target, trees) && tip == Tip(s.commits, s.target, trees)
    ensures Inv(s.(commits := commits, branch := s.branch[u := tip], work := s.work[u := Rebased]))
  {
    var t := s.(commits := commits, branch := s.branch[u := tip], work := s.work[u := Rebased]);
    ReplayedOnBase(s.commits, s.target, trees);
    assert s.commits <= t.commits;
    GrowthKeepsFacts(s, t);
    OthersStayFit(s, t, u);
    assert WorkFits(t, u);
  }

  // Under the lock only the holder moves: nobody else is past the start of a gate or an integration.
  lemma {:induction false} OthersStayFit(s: State, t: State, u: Unit)
    requires Inv(s) && HoldsLock(s, u) && u in t.branch && u in t.work
    requires t.branch == s.branch[u := t.branch[u]] && t.work == s.work[u := t.work[u]]
    requires s.suites <= t.suites
    ensures forall v :: v != u ==> WorkFits(t, v)
  {
    forall v | v != u
      ensures WorkFits(t, v)
    {
      assert WorkFits(s, v);
    }
  }

  lemma {:induction false} RefsStayKeepsInv(s: State, t: State, u: Unit)
    requires Inv(s) && Shape(t) && t.commits == s.commits && t.target == s.target && t.branch == s.branch
    requires t.suites == s.suites && t.merges == s.merges && u in t.work && t.work == s.work[u := t.work[u]]
    requires t.work[u].Developing? || t.work[u] == Rebased
    requires t.work[u] == Rebased && u in s.branch ==> IsAncestor(s.commits, s.target, s.branch[u])
    ensures Inv(t)
  {
    GrowthKeepsFacts(s, t);
    forall v ensures WorkFits(t, v) {
      assert WorkFits(s, v);
    }
  }

  lemma {:induction false} SuiteKeepsInv(s: State, u: Unit, passed: bool)
    requires Inv(s)
    ensures Inv(Step(s, Suite(u, passed)))
  {
    var t := Step(s, Suite(u, passed));
    if t == s {
      return;
    }
    assert WorkFits(s, u);
    OthersStayFit(s, t, u);
    assert WorkFits(t, u);
    SuiteIsRecorded(s, t, SuiteRun(u, s.target, s.branch[u], passed));
  }

  lemma {:induction false} SuiteIsRecorded(s: State, t: State, g: SuiteRun)
    requires Inv(s) && t.commits == s.commits && t.target == s.target && t.merges == s.merges
            && t.suites == s.suites + [g]
    requires g.onto == s.target && IsAncestor(s.commits, s.target, g.tip) && g.tip < |s.commits|
    ensures forall i :: 0 <= i < |t.suites| ==> GateFits(t, t.suites[i])
    ensures forall i :: 0 <= i < |t.merges| ==> MergeFits(t, t.merges[i])
  {
    forall i | 0 <= i < |t.suites| ensures GateFits(t, t.suites[i]) {
      assert i < |s.suites| ==> GateFits(s, s.suites[i]);
    }
    forall i | 0 <= i < |t.merges| ensures MergeFits(t, t.merges[i]) {
      assert MergeFits(s, s.merges[i]);
    }
  }

  lemma {:induction false} MergeKeepsInv(s: State, u: Unit, ok: bool, mixed: Tree)
    requires Inv(s)
    ensures Inv(Step(s, DoMerge(u, ok, mixed)))
  {
    var t := Step(s, DoMerge(u, ok, mixed));
    if t == s {
      return;
    }
    assert WorkFits(s, u);
    var released := s.(lock := None, work := s.work[u := Gated(s.work[u].gate)]);
    OtherStepsKeepFacts(s, released);
    if t != released {
      MergedKeepsInv(released, u, s.work[u].gate, mixed);
    }
  }

  // The merge itself: the new head has the tested tree, and every recorded gate is now stale.
  lemma {:induction false} MergedKeepsInv(s: State, u: Unit, gate: nat, mixed: Tree)
    requires Inv(s) && s.lock == None && At(s, u, Gated(gate)) && IsAncestor(s.commits, s.target, s.branch[u])
    ensures Inv(MergeInto(s, u, gate, mixed))
  {
    var t := MergeInto(s, u, gate, mixed);
    if t == s {
      return;
    }
    assert WorkFits(s, u);
    var tip := s.branch[u];
    var more := [t.commits[|s.commits|]];
    assert t.commits == s.commits + more;
    AncestorTestIsExact(s, gate);
    OldFactsStay(s, t, more);
    AncestryIsStable(s.commits, more, s.target, tip);
    forall v ensures WorkFits(t, v) {
      assert WorkFits(s, v);
    }
  }

  // One commit on top of the target: earlier gates and merges keep what was recorded of them.
  lemma {:induction false} OldFactsStay(s: State, t: State, more: History)
    requires Inv(s) && |more| == 1 && t.commits == s.commits + more && t.target == |s.commits| && t.suites == s.suites
    ensures forall i :: 0 <= i < |s.suites| ==> GateFits(t, s.suites[i])
    ensures forall i :: 0 <= i < |s.merges| ==> MergeFits(t, s.merges[i])
  {
    forall i | 0 <= i < |s.suites| ensures GateFits(t, s.suites[i]) {
      assert GateFits(s, s.suites[i]);
      AncestryIsStable(s.commits, more, s.suites[i].onto, s.suites[i].tip);
    }
    forall i | 0 <= i < |s.merges| ensures MergeFits(t, s.merges[i]) {
      assert MergeFits(s, s.merges[i]);
      AncestryIsStable(s.commits, more, s.merges[i].prev, s.suites[s.merges[i].gate].tip);
    }
  }

  // Steps that move no ref of the target and extend the history at most: only the workers change.
  lemma {:induction false} OtherStepsKeepFacts(s: State, t: State)
    requires Inv(s) && Shape(t)
    requires s.commits <= t.commits && t.target == s.target && t.suites == s.suites && t.merges == s.merges
    requires forall v :: v in t.work && v in t.branch ==>
               || t.work[v].Developing? || t.work[v].Gating?
               || (v in s.work && v in s.branch && t.branch[v] == s.branch[v]
                   && (t.work[v] == s.work[v]
                       || (s.work[v].Gated? && t.work[v] == Integrating(s.work[v].gate))
                       || ((s.work[v].Integrating? || s.work[v].Merging?) && t.work[v] == Gated(s.work[v].gate))
                       || (s.work[v].Integrating? && t.work[v] == Merging(s.work[v].gate)
                           && IsAncestor(s.commits, s.target, s.branch[v]))))
    ensures Inv(t)
  {
    GrowthKeepsFacts(s, t);
    forall v ensures WorkFits(t, v) {
      assert WorkFits(s, v);
    }
  }

  lemma {:induction false} BranchStepKeepsInv(s: State, e: Event)
    requires Inv(s) && (e.Create? || e.Develop?)
    ensures Inv(Step(s, e))
  {
    OtherStepsKeepFacts(s, Step(s, e));
  }

  lemma {:induction false} LockStepKeepsInv(s: State, e: Event)
    requires Inv(s) && (e.EnterGate? || e.Rework? || e.EnterIntegrate?)
    ensures Inv(Step(s, e))
  {
    OtherStepsKeepFacts(s, Step(s, e));
  }

  lemma {:induction false} LeaveStepKeepsInv(s: State, e: Event)
    requires Inv(s) && (e.TestAncestor? || e.Abandon?)
    ensures Inv(Step(s, e))
  {
    OtherStepsKeepFacts(s, Step(s, e));
  }

  lemma {:induction false} StepKeepsInv(s: State, e: Event)
    requires Inv(s)
    ensures Inv(Step(s, e))
  {
    match e
    case Rebase(u, result) => RebaseKeepsInv(s, u, result);
    case Suite(u, passed) => SuiteKeepsInv(s, u, passed);
    case DoMerge(u, ok, mixed) => MergeKeepsInv(s, u, ok, mixed);
    case Create(_) => BranchStepKeepsInv(s, e);
    case Develop(_, _) => BranchStepKeepsInv(s, e);
    case TestAncestor(_) => LeaveStepKeepsInv(s, e);
    case Abandon(_) => LeaveStepKeepsInv(s, e);
    case _ => LockStepKeepsInv(s, e);
  }

  ghost predicate Initial(s: State) {
    && Grown(s.commits) && s.target < |s.commits|
    && s.branch == map[] && s.work == map[] && s.lock == None && s.suites == [] && s.merges == []
  }

  lemma {:induction false} RunKeepsInv(s: State, es: seq<Event>)
    requires Inv(s)
    ensures Inv(Run(s, es))
  {
    if es != [] {
      RunKeepsInv(s, es[..|es| - 1]);
      StepKeepsInv(Run(s, es[..|es| - 1]), es[|es| - 1]);
    }
  }

  // ---------------------------------------------------------------- the promises

  lemma {:induction false} StartsInv(s: State)
    requires Initial(s)
    ensures Inv(s)
  {
  }

  // Whatever the interleaving: every commit an integration put on the target carries a tree that
  // passed the suite, in a run right after a rebase onto the head it replaced.
  lemma {:induction false} MergedTreesWereTested(s: State, es: seq<Event>, i: nat)
    requires Initial(s) && i < |Run(s, es).merges|
    ensures var r := Run(s, es);
            var m := r.merges[i];
            && m.gate < |r.suites| && m.head < |r.commits|
            && var g := r.suites[m.gate];
               && g.passed && g.unit == m.unit && g.onto == m.prev && g.tip < |r.commits|
               && IsAncestor(r.commits, m.prev, g.tip)
               && r.commits[m.head] == Commit([m.prev, g.tip], r.commits[g.tip].tree)
  {
    StartsInv(s);
    RunKeepsInv(s, es);
    assert MergeFits(Run(s, es), Run(s, es).merges[i]);
  }

  lemma {:induction false} HeadsIncrease(s: State, i: nat, j: nat)
    requires Inv(s) && i < j < |s.merges|
    ensures s.merges[i].head <= s.merges[j].prev
    decreases j
  {
    assert s.merges[(j - 1) + 1].prev == s.merges[j - 1].head;
    if i < j - 1 {
      HeadsIncrease(s, i, j - 1);
      assert MergeFits(s, s.merges[j - 1]);
    }
  }

  // One gate yields at most one merge.
  lemma {:induction false} OneMergePerGate(s: State, es: seq<Event>, i: nat, j: nat)
    requires Initial(s) && i < j < |Run(s, es).merges|
    ensures Run(s, es).merges[i].gate != Run(s, es).merges[j].gate
  {
    StartsInv(s);
    RunKeepsInv(s, es);
    var r := Run(s, es);
    HeadsIncrease(r, i, j);
    assert MergeFits(r, r.merges[i]) && MergeFits(r, r.merges[j]);
  }

  lemma {:induction false} StepKeepsHead(s: State, e: Event)
    requires Inv(s)
    ensures IsAncestor(Step(s, e).commits, s.target, Step(s, e).target)
    ensures s.commits <= Step(s, e).commits
  {
    var t := Step(s, e);
    StepKeepsInv(s, e);
    if t.target != s.target {
      var more := [t.commits[|s.commits|]];
      assert t.commits == s.commits + more;
      AncestryIsStable(s.commits, more, s.target, s.target);
      assert t.commits[t.target].parents[0] == s.target;
    }
  }

  // Every head the target ever had stays an ancestor of the target.
  lemma {:induction false} EarlierHeadsStay(s: State, es: seq<Event>)
    requires Inv(s)
    ensures IsAncestor(Run(s, es).commits, s.target, Run(s, es).target)
    ensures s.commits <= Run(s, es).commits
  {
    if es != [] {
      var init, last := es[..|es| - 1], es[|es| - 1];
      var r := Run(s, init);
      EarlierHeadsStay(s, init);
      RunKeepsInv(s, init);
      StepKeepsHead(r, last);
      var t := Step(r, last);
      assert t.commits == r.commits + t.commits[|r.commits|..];
      AncestryIsStable(r.commits, t.commits[|r.commits|..], s.target, r.target);
      AncestryIsTransitive(t.commits, s.target, r.target, t.target);
    }
  }

  // ---------------------------------------------------------------- one caller's critical section

  lemma {:induction false} ThreeSteps(s: State, a: Event, b: Event, c: Event)
    ensures Run(s, [a, b]) == Step(Step(s, a), b)
    ensures Run(s, [a, b, c]) == Step(Step(Step(s, a), b), c)
  {
    assert [a, b, c][..2] == [a, b] && [a, b][..1] == [a] && [a][..0] == [];
    assert Run(s, [a]) == Step(s, a);
    assert Run(s, [a, b]) == Step(Run(s, [a]), b);
  }

  datatype GateResult = Passed | RebaseConflict | TestsFailed
  datatype IntegrateResult = Integrated(head: CommitId) | StaleGate | GitFailed

  // A whole gate, seen from outside.
  function AfterGate(s: State, u: Unit, rebase: RebaseResult, suitePasses: bool): State
    requires At(s, u, Developing)
  {
    if rebase.Conflict? then s
    else
      var commits := if rebase.UpToDate? then s.commits else Replay(s.commits, s.target, rebase.trees);
      var tip := if rebase.UpToDate? then s.branch[u] else Tip(s.commits, s.target, rebase.trees);
      s.(commits := commits,
         branch := s.branch[u := tip],
         suites := s.suites + [SuiteRun(u, s.target, tip, suitePasses)],
         work := s.work[u := if suitePasses then Gated(|s.suites|) else Developing])
  }

  lemma {:induction false} ConflictIsARun(s: State, u: Unit)
    requires At(s, u, Developing) && s.lock == None
    ensures Step(Step(s, EnterGate(u)), Rebase(u, Conflict)) == s
  {
    assert s.work[u := Gating][u := Developing] == s.work;
  }

  lemma {:induction false} RebaseUnderLock(s: State, u: Unit, rebase: RebaseResult)
    requires At(s, u, Developing) && s.lock == None && !rebase.Conflict?
    requires rebase.UpToDate? ==> IsAncestor(s.commits, s.target, s.branch[u])
    ensures Step(Step(s, EnterGate(u)), Rebase(u, rebase))
         == s.(commits := if rebase.UpToDate? then s.commits else Replay(s.commits, s.target, rebase.trees),
               branch := s.branch[u := if rebase.UpToDate? then s.branch[u]
                   else Tip(s.commits, s.target, rebase.trees)],
               lock := Some(u),
               work := s.work[u := Rebased])
  {
    assert s.branch[u := s.branch[u]] == s.branch;
    assert s.work[u := Gating][u := Rebased] == s.work[u := Rebased];
  }

  lemma {:induction false} GateIsARun(s: State, u: Unit, rebase: RebaseResult, suitePasses: bool)
    requires At(s, u, Developing) && s.lock == None
    requires rebase.UpToDate? ==> IsAncestor(s.commits, s.target, s.branch[u])
    ensures AfterGate(s, u, rebase, suitePasses) ==
            Run(s, if rebase.Conflict? then [EnterGate(u), Rebase(u, rebase)]
                   else [EnterGate(u), Rebase(u, rebase), Suite(u, suitePasses)])
  {
    ThreeSteps(s, EnterGate(u), Rebase(u, rebase), Suite(u, suitePasses));
    if rebase.Conflict? {
      ConflictIsARun(s, u);
    } else {
      RebaseUnderLock(s, u, rebase);
      SuiteAfterRebase(s, Step(Step(s, EnterGate(u)), Rebase(u, rebase)), u, rebase, suitePasses);
    }
  }

  lemma {:induction false} SuiteAfterRebase(s: State, rebased: State, u: Unit, rebase: RebaseResult,
                                            suitePasses: bool)
    requires At(s, u, Developing) && s.lock == None && !rebase.Conflict?
    requires rebased == s.(commits := if rebase.UpToDate? then s.commits else Replay(s.commits, s.target, rebase.trees),
                           branch := s.branch[u := if rebase.UpToDate? then s.branch[u]
                               else Tip(s.commits, s.target, rebase.trees)],
                           lock := Some(u),
                           work := s.work[u := Rebased])
    ensures Step(rebased, Suite(u, suitePasses)) == AfterGate(s, u, rebase, suitePasses)
  {
    var w := if suitePasses then Gated(|s.suites|) else Developing;
    assert s.work[u := Rebased][u := w] == s.work[u := w];
  }

  // A whole integration of a gated branch. It is not `ready` when healing, the checked-out branch or the
  // branch's existence stops it before the ancestor test.
  function AfterIntegrate(s: State, u: Unit, ready: bool, mergeOk: bool, mixed: Tree): State
    requires u in s.work && u in s.branch && s.work[u].Gated?
  {
    if !ready || !IsAncestor(s.commits, s.target, s.branch[u]) || !mergeOk then s
    else MergeInto(s, u, s.work[u].gate, mixed)
  }

  function IntegrationSteps(u: Unit, ready: bool, mergeOk: bool, mixed: Tree): seq<Event> {
    if ready then [EnterIntegrate(u), TestAncestor(u), DoMerge(u, mergeOk, mixed)] else [EnterIntegrate(u), Abandon(u)]
  }

  lemma {:induction false} IntegrationIsARun(s: State, u: Unit, ready: bool, mergeOk: bool, mixed: Tree)
    requires u in s.work && u in s.branch && s.work[u].Gated? && s.lock == None
    ensures AfterIntegrate(s, u, ready, mergeOk, mixed) == Run(s, IntegrationSteps(u, ready, mergeOk, mixed))
  {
    var gate := s.work[u].gate;
    assert s.work[u := Integrating(gate)][u := Gated(gate)] == s.work;
    if ready {
      ReadyIsThreeSteps(s, u, mergeOk, mixed);
    } else {
      ThreeSteps(s, EnterIntegrate(u), Abandon(u), Abandon(u));
    }
  }

  lemma {:induction false} ReadyIsThreeSteps(s: State, u: Unit, mergeOk: bool, mixed: Tree)
    requires u in s.work && u in s.branch && s.work[u].Gated? && s.lock == None
    ensures AfterIntegrate(s, u, true, mergeOk, mixed)
         == Run(s, [EnterIntegrate(u), TestAncestor(u), DoMerge(u, mergeOk, mixed)])
  {
    ThreeSteps(s, EnterIntegrate(u), TestAncestor(u), DoMerge(u, mergeOk, mixed));
    var gate := s.work[u].gate;
    var entered := Step(s, EnterIntegrate(u));
    assert entered == s.(lock := Some(u), work := s.work[u := Integrating(gate)]);
    assert s.work[u := Integrating(gate)][u := Gated(gate)] == s.work;
    assert s.work[u := Integrating(gate)][u := Merging(gate)][u := Gated(gate)] == s.work;
  }

  lemma {:induction false} GateKeepsInv(s: State, u: Unit, rebase: RebaseResult, suitePasses: bool)
    requires At(s, u, Developing) && s.lock == None
    requires rebase.UpToDate? ==> IsAncestor(s.commits, s.target, s.branch[u])
    ensures Inv(s) ==> Inv(AfterGate(s, u, rebase, suitePasses))
  {
    GateIsARun(s, u, rebase, suitePasses);
    if Inv(s) {
      RunKeepsInv(s, if rebase.Conflict? then [EnterGate(u), Rebase(u, rebase)]
                     else [EnterGate(u), Rebase(u, rebase), Suite(u, suitePasses)]);
    }
  }

  lemma {:induction false} IntegrationKeepsInv(s: State, u: Unit, ready: bool, mergeOk: bool,
                                               mixed: Tree)
    requires u in s.work && u in s.branch && s.work[u].Gated? && s.lock == None && Inv(s)
    ensures Inv(AfterIntegrate(s, u, ready, mergeOk, mixed))
  {
    IntegrationIsARun(s, u, ready, mergeOk, mixed);
    RunKeepsInv(s, IntegrationSteps(u, ready, mergeOk, mixed));
  }

  // The target branch with its lock. Each method is one whole critical section; as a run of the
  // protocol's steps, it is covered by the promises above.
  class TargetBranch {
    var commits: History
    var target: CommitId
    var branch: map<Unit, CommitId>
    var work: map<Unit, Work>
    var lock: Option<Unit>
    var suites: seq<SuiteRun>
    var merges: seq<Merge>

    constructor (root: Tree)
      ensures Initial(Now())
    {
      commits, target := [Commit([], root)], 0;
      branch, work, lock, suites, merges := map[], map[], None, [], [];
    }

    function Now(): State
      reads this
    {
      State(commits, target, branch, work, lock, suites, merges)
    }

    // Rebase onto the target; on success run the suite; remember a passing run.
    method Tier1Gate(u: Unit, rebase: RebaseResult, suitePasses: bool) returns (r: GateResult)
      requires At(Now(), u, Developing) && lock == None
      requires rebase.UpToDate? ==> IsAncestor(commits, target, branch[u])
      modifies this
      ensures r.RebaseConflict? <==> rebase.Conflict?
      ensures r.Passed? <==> !rebase.Conflict? && suitePasses
      ensures target == old(target) && merges == old(merges) && lock == None
      ensures rebase.Conflict? ==> Now() == old(Now())
      ensures rebase.UpToDate? ==> branch == old(branch) && commits == old(commits)
      ensures rebase.Replayed? ==> Stacked(old(commits), commits, target, rebase.trees)
      ensures rebase.Replayed? && rebase.trees == [] ==> branch == old(branch)[u := target]
      ensures rebase.Replayed? && rebase.trees != [] ==> branch == old(branch)[u := |commits| - 1]
      ensures u in branch && (rebase.Replayed? && rebase.trees != [] ==>
                branch[u] < |commits| && commits[branch[u]].tree == rebase.trees[|rebase.trees| - 1])
      ensures !rebase.Conflict? ==> suites == old(suites) + [SuiteRun(u, old(target), branch[u], suitePasses)]
      ensures work == if r.Passed? then old(work)[u := Gated(|old(suites)|)] else old(work)
      ensures forall v :: v != u ==> SamePlace(old(Now()), Now(), v)
      ensures Now() == AfterGate(old(Now()), u, rebase, suitePasses)
      ensures old(Inv(Now())) ==> Inv(Now())
    {
      GateKeepsInv(Now(), u, rebase, suitePasses);
      lock := Some(u);
      match rebase {
        case Conflict =>
          lock := None;
          return RebaseConflict;
        case UpToDate =>
        case Replayed(trees) =>
          ReplayStacks(commits, target, trees);
          branch := branch[u := Tip(commits, target, trees)];
          commits := Replay(commits, target, trees);
      }
      assert rebase.UpToDate? ==> branch[u := branch[u]] == branch;
      suites := suites + [SuiteRun(u, target, branch[u], suitePasses)];
      if suitePasses {
        work := work[u := Gated(|suites| - 1)];
        r := Passed;
      } else {
        assert work[u := Developing] == work;
        r := TestsFailed;
      }
      lock := None;
    }

    // Merge a gated branch unless the target has moved since its gate.
    method Integrate(u: Unit, ready: bool, mergeOk: bool, mixed: Tree) returns (r: IntegrateResult)
      requires u in work && u in branch && work[u].Gated? && lock == None
      requires work[u].gate < |suites| && Inv(Now())
      modifies this
      ensures Now() == AfterIntegrate(old(Now()), u, ready, mergeOk, mixed) && Inv(Now())
      ensures r.StaleGate? <==> ready && old(target) != old(suites[work[u].gate].onto)
      ensures r.Integrated? <==> ready && mergeOk && old(target) == old(suites[work[u].gate].onto)
      ensures r.Integrated? ==> r.head == target && IsAncestor(commits, branch[u], target)
      ensures !r.Integrated? ==> Now() == old(Now())
      ensures branch == old(branch) && work == old(work) && suites == old(suites) && lock == None
      ensures r.Integrated? && !IsAncestor(old(commits), branch[u], old(target)) ==>
                && branch[u] < |old(commits)| && target == |old(commits)|
                && commits == old(commits) + [Commit([old(target), branch[u]], old(commits)[branch[u]].tree)]
                && merges == old(merges) + [Merge(u, work[u].gate, old(target), target)]
      ensures IsAncestor(old(commits), branch[u], old(target)) ==> Now() == old(Now())
    {
      IntegrationKeepsInv(Now(), u, ready, mergeOk, mixed);
      assert WorkFits(Now(), u);
      AncestorTestIsExact(Now(), work[u].gate);
      var gate := work[u].gate;
      lock := Some(u);
      if !ready {
        lock := None;
        return GitFailed;
      }
      if !IsAncestor(commits, target, branch[u]) {
        lock := None;
        return StaleGate;
      }
      if !mergeOk {
        lock := None;
        return GitFailed;
      }
      if !IsAncestor(commits, branch[u], target) {
        merges := merges + [Merge(u, gate, target, |commits|)];
        commits := commits + [Commit([target, branch[u]], commits[branch[u]].tree)];
        target := |commits| - 1;
        AncestorsAreLines(commits, branch[u], target);
        assert IsLine(commits, [branch[u], target], branch[u], target);
      }
      lock := None;
      return Integrated(target);
    }
  }
}
