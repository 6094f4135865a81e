// What the ancestor test can and cannot see of commits that land on a gated branch outside the protocol.
module LateCommits {
  import opened CommitGraph
  import opened Options
  import opened MergeGate

  // Any number of commits, with any parents that exist by then; the gated branch ends at one of them, or
  // anywhere else.
  ghost predicate CanBeLate(s: State, u: Unit, more: History, tip: CommitId) {
    u in s.branch && u in s.work && s.work[u].Gated? && Grown(s.commits + more) && tip < |s.commits + more|
  }

  function Late(s: State, u: Unit, more: History, tip: CommitId): State {
    s.(commits := s.commits + more, branch := s.branch[u := tip])
  }

  // Runs of the protocol in which gated branches also change from outside, any number of times.
  datatype OpenEvent = Inside(event: Event) | Outside(unit: Unit, more: History, tip: CommitId)

  ghost function OpenStep(s: State, e: OpenEvent): State {
    match e
    case Inside(event) => Step(s, event)
    case Outside(u, more, tip) => if CanBeLate(s, u, more, tip) then Late(s, u, more, tip) else s
  }

  ghost function OpenRun(s: State, es: seq<OpenEvent>): State {
    if es == [] then s else OpenStep(OpenRun(s, es[..|es| - 1]), es[|es| - 1])
  }

  // What such runs still keep: refs point at commits, and a gated unit's suite run is on record.
  ghost predicate Recorded(s: State) {
    && Shape(s)
    && (forall i :: 0 <= i < |s.suites| ==> s.suites[i].tip < |s.commits|)
    && (forall u ::
       u in s.work && u in s.branch && (s.work[u].Gated? || s.work[u].Integrating? || s.work[u].Merging?) ==>
          s.work[u].gate < |s.suites| && s.suites[s.work[u].gate].passed && s.suites[s.work[u].gate].unit == u)
  }

  lemma {:induction false} RebaseKeepsRecorded(s: State, u: Unit, result: RebaseResult)
    requires Recorded(s)
    ensures Recorded(Step(s, Rebase(u, result)))
  {
    if result.Replayed? && s.target < |s.commits| {
      ReplayedOnBase(s.commits, s.target, result.trees);
    }
  }

  lemma {:induction false} MergeKeepsRecorded(s: State, u: Unit, ok: bool, mixed: Tree)
    requires Recorded(s)
    ensures Recorded(Step(s, DoMerge(u, ok, mixed)))
  {
  }

  lemma {:induction false} StepKeepsRecorded(s: State, e: Event)
    requires Recorded(s)
    ensures Recorded(Step(s, e))
  {
    if e.Rebase? {
      RebaseKeepsRecorded(s, e.unit, e.result);
    } else if e.DoMerge? {
      MergeKeepsRecorded(s, e.unit, e.ok, e.mixed);
    } else if e.Suite? {
      SuiteKeepsRecorded(s, e.unit, e.passed);
    } else if e.Create? || e.Develop? {
      BranchStepKeepsRecorded(s, e);
    } else {
      LockStepKeepsRecorded(s, e);
    }
  }

  lemma {:induction false} BranchStepKeepsRecorded(s: State, e: Event)
    requires Recorded(s) && (e.Create? || e.Develop?)
    ensures Recorded(Step(s, e))
  {
  }

  lemma {:induction false} LockStepKeepsRecorded(s: State, e: Event)
    requires Recorded(s)
    requires e.EnterGate? || e.Rework? || e.EnterIntegrate? || e.TestAncestor? || e.Abandon?
    ensures Recorded(Step(s, e))
  {
  }

  lemma {:induction false} SuiteKeepsRecorded(s: State, u: Unit, passed: bool)
    requires Recorded(s)
    ensures Recorded(Step(s, Suite(u, passed)))
  {
  }

  lemma {:induction false} OpenRunKeepsRecorded(s: State, es: seq<OpenEvent>)
    requires Initial(s)
    ensures Recorded(OpenRun(s, es))
  {
    if es != [] {
      OpenRunKeepsRecorded(s, es[..|es| - 1]);
      if es[|es| - 1].Inside? {
        StepKeepsRecorded(OpenRun(s, es[..|es| - 1]), es[|es| - 1].event);
      }
    }
  }

  // ---------------------------------------------------------------- when an untested tree gets through

  // A gated branch that is to be integrated now, and the commit its gate tested.
  predicate CanIntegrate(s: State, u: Unit) {
    u in s.work && u in s.branch && s.work[u].Gated? && s.lock == None && s.work[u].gate < |s.suites|
  }

  function TestedTip(s: State, u: Unit): CommitId
    requires CanIntegrate(s, u)
  {
    s.suites[s.work[u].gate].tip
  }

  function Integrated(s: State, u: Unit, mixed: Tree): State {
    Run(s, IntegrationSteps(u, true, true, mixed))
  }

  // What a merge is to be worth: its gate passed, for its unit, the very tree it put on the target, and
  // on top of the head it replaced.
  ghost predicate TestedOnTop(s: State, m: Merge) {
    && m.gate < |s.suites| && m.head < |s.commits|
    && var g := s.suites[m.gate];
       && g.passed && g.unit == m.unit && g.onto == m.prev && g.tip < |s.commits|
       && s.commits[m.head].tree == s.commits[g.tip].tree
  }

  // In every run with any outside history: an integration moves the target exactly when the target is
  // an ancestor of the branch's tip and not the tip itself. Then the new head has the tip's tree, so it
  // is the tested tree exactly when the tip's tree is; and it was tested on top of the head it replaced
  // exactly when, besides, the target still stands where the gate saw it.
  ghost predicate FollowsTip(s: State, u: Unit, mixed: Tree)
    requires CanIntegrate(s, u) && Recorded(s)
  {
    var r, tip := Integrated(s, u, mixed), s.branch[u];
    && (r.target != s.target <==> IsAncestor(s.commits, s.target, tip) && tip != s.target)
    && (r.target == s.target ==> r == s)
    && (r.target != s.target ==>
          && r.target == |s.commits| && r.commits == s.commits + [Commit([s.target, tip], s.commits[tip].tree)]
          && (r.commits[r.target].tree == s.commits[TestedTip(s, u)].tree <==>
                s.commits[tip].tree == s.commits[TestedTip(s, u)].tree)
          && r.suites == s.suites && r.merges == s.merges + [Merge(u, s.work[u].gate, s.target, r.target)]
          && (TestedOnTop(r, r.merges[|s.merges|]) <==>
                && s.commits[tip].tree == s.commits[TestedTip(s, u)].tree
                && s.suites[s.work[u].gate].onto == s.target))
  }

  lemma {:induction false} IntegrationFollowsTip(s: State, u: Unit, mixed: Tree)
    requires Recorded(s) && CanIntegrate(s, u)
    ensures FollowsTip(s, u, mixed)
  {
    IntegrationIsARun(s, u, true, true, mixed);
    var tip := s.branch[u];
    if IsAncestor(s.commits, s.target, tip) && IsAncestor(s.commits, tip, s.target) {
      AncestorsAreOlder(s.commits, s.target, tip);
      AncestorsAreOlder(s.commits, tip, s.target);
    }
  }

  lemma {:induction false} OutsideHistorySlipsThrough(s: State, es: seq<OpenEvent>, u: Unit, mixed: Tree)
    requires Initial(s) && CanIntegrate(OpenRun(s, es), u)
    ensures Recorded(OpenRun(s, es)) && FollowsTip(OpenRun(s, es), u, mixed)
  {
    OpenRunKeepsRecorded(s, es);
    IntegrationFollowsTip(OpenRun(s, es), u, mixed);
  }

  // ---------------------------------------------------------------- the two shapes of late history

  lemma {:induction false} LateIsRecorded(s: State, u: Unit, more: History, tip: CommitId)
    requires Inv(s) && CanIntegrate(s, u) && CanBeLate(s, u, more, tip)
    ensures Recorded(Late(s, u, more, tip)) && CanIntegrate(Late(s, u, more, tip), u)
  {
    forall i | 0 <= i < |s.suites|
      ensures s.suites[i].tip < |s.commits|
    {
      assert GateFits(s, s.suites[i]);
    }
    forall v | v in s.work && v in s.branch && (s.work[v].Gated? || s.work[v].Integrating? || s.work[v].Merging?)
      ensures s.work[v].gate < |s.suites| && s.suites[s.work[v].gate].passed && s.suites[s.work[v].gate].unit == v
    {
      assert WorkFits(s, v);
    }
  }

  // One chain of late commits, each on top of the one before, the first on the tested tip.
  function Chain(s: State, u: Unit, trees: seq<Tree>): History
    requires u in s.branch
  {
    Replay(s.commits, s.branch[u], trees)[|s.commits|..]
  }

  lemma {:induction false} ChainAncestors(h: History, base: CommitId, trees: seq<Tree>, a: CommitId)
    requires Grown(h) && base < |h| && a < |h|
    ensures IsAncestor(Replay(h, base, trees), a, Tip(h, base, trees)) <==> IsAncestor(h, a, base)
  {
    if trees != [] {
      var init := trees[..|trees| - 1];
      ChainAncestors(h, base, init, a);
      var r := Replay(h, base, init);
      var last := Commit([if |trees| == 1 then base else |r| - 1], trees[|trees| - 1]);
      assert Replay(h, base, trees) == r + [last];
      AncestryIsStable(r, [last], a, Tip(h, base, init));
      assert (r + [last])[|r|] == last && last.parents == [Tip(h, base, init)];
    }
  }

  lemma {:induction false} ChainCanBeLate(s: State, u: Unit, trees: seq<Tree>)
    requires Inv(s) && CanIntegrate(s, u)
    ensures s.commits + Chain(s, u, trees) == Replay(s.commits, s.branch[u], trees)
    ensures CanBeLate(s, u, Chain(s, u, trees), Tip(s.commits, s.branch[u], trees))
  {
    ReplayedOnBase(s.commits, s.branch[u], trees);
  }

  // Late commits in a chain get through exactly when the target has not moved since the gate. The new
  // head then has the last late tree.
  lemma {:induction false} LateChainSlipsThrough(s: State, u: Unit, trees: seq<Tree>, mixed: Tree)
    requires Inv(s) && CanIntegrate(s, u) && trees != []
    ensures CanBeLate(s, u, Chain(s, u, trees), Tip(s.commits, s.branch[u], trees))
    ensures var late := Late(s, u, Chain(s, u, trees), Tip(s.commits, s.branch[u], trees));
            var r := Integrated(late, u, mixed);
            && (r.target != s.target <==> s.target == s.suites[s.work[u].gate].onto)
            && (r.target != s.target ==>
                  r.target < |r.commits| && r.commits[r.target].tree == trees[|trees| - 1])
  {
    var tip := Tip(s.commits, s.branch[u], trees);
    var late := Late(s, u, Chain(s, u, trees), tip);
    ChainCanBeLate(s, u, trees);
    LateIsRecorded(s, u, Chain(s, u, trees), tip);
    IntegrationFollowsTip(late, u, mixed);
    ChainAncestors(s.commits, s.branch[u], trees, s.target);
    assert WorkFits(s, u);
    AncestorTestIsExact(s, s.work[u].gate);
    var init := Replay(s.commits, s.branch[u], trees[..|trees| - 1]);
    assert late.commits[tip] == Replay(s.commits, s.branch[u], trees)[|init|];
  }

  // A late merge of the moved target into the gated branch gets through whatever the gate saw: the
  // ancestor test then compares the target with itself.
  lemma {:induction false} LateMergeSlipsThrough(s: State, u: Unit, tree: Tree, mixed: Tree)
    requires Inv(s) && CanIntegrate(s, u)
    ensures CanBeLate(s, u, [Commit([s.branch[u], s.target], tree)], |s.commits|)
    ensures var r := Integrated(Late(s, u, [Commit([s.branch[u], s.target], tree)], |s.commits|), u, mixed);
            r.target != s.target && r.target < |r.commits| && r.commits[r.target].tree == tree
  {
    var more := [Commit([s.branch[u], s.target], tree)];
    assert Grown(s.commits + more);
    LateIsRecorded(s, u, more, |s.commits|);
    var late := Late(s, u, more, |s.commits|);
    IntegrationFollowsTip(late, u, mixed);
    assert late.commits[|s.commits|].parents[1] == s.target;
    AncestryIsStable(s.commits, more, s.target, s.target);
  }

  // ---------------------------------------------------------------- both happen

  const Root := State([Commit([], "root")], 0, map[], map[], None, [], [])

  // One unit passes its gate at the root.
  function GateSteps(u: Unit): seq<Event> {
    [EnterGate(u), Rebase(u, UpToDate), Suite(u, true)]
  }

  lemma {:induction false} RunConcat(s: State, a: seq<Event>, b: seq<Event>)
    ensures Run(s, a + b) == Run(Run(s, a), b)
  {
    if b == [] {
      assert a + b == a;
    } else {
      assert (a + b)[..|a + b| - 1] == a + b[..|b| - 1];
      RunConcat(s, a, b[..|b| - 1]);
    }
  }

  lemma {:induction false} OneStep(s: State, e: Event)
    ensures Run(s, [e]) == Step(s, e)
  {
    assert [e][..0] == [];
  }

  // The unit "a" gated on the root.
  lemma {:induction false} FreshGate() returns (es: seq<Event>)
    ensures Initial(Root) && Run(Root, es).commits == Root.commits && Run(Root, es).target == 0
    ensures Run(Root, es).lock == None && Run(Root, es).merges == []
    ensures Run(Root, es).branch == map["a" := 0] && Run(Root, es).work == map["a" := Gated(0)]
    ensures Run(Root, es).suites == [SuiteRun("a", 0, 0, true)]
  {
    var created := Step(Root, Create("a"));
    OneStep(Root, Create("a"));
    assert created == Root.(branch := map["a" := 0], work := map["a" := Developing]);
    GateIsARun(created, "a", UpToDate, true);
    RunConcat(Root, [Create("a")], GateSteps("a"));
    es := [Create("a")] + GateSteps("a");
  }

  // Then "b" develops, passes its gate and is merged: the gate of "a" is stale.
  lemma {:induction false} StaleGate() returns (es: seq<Event>)
    ensures Initial(Root) && CanIntegrate(Run(Root, es), "a")
    ensures Run(Root, es).suites[Run(Root, es).work["a"].gate].onto != Run(Root, es).target
  {
    var first := FreshGate();
    var developed := BDevelops(first);
    var s := Run(Root, developed);
    RunConcat(Root, developed, GateSteps("b") + IntegrationSteps("b", true, true, ""));
    RunConcat(s, GateSteps("b"), IntegrationSteps("b", true, true, ""));
    GateIsARun(s, "b", UpToDate, true);
    IntegrationIsARun(AfterGate(s, "b", UpToDate, true), "b", true, true, "");
    if IsAncestor(s.commits, 1, 0) {
      AncestorsAreOlder(s.commits, 1, 0);
    }
    es := developed + (GateSteps("b") + IntegrationSteps("b", true, true, ""));
  }

  lemma {:induction false} BDevelops(first: seq<Event>) returns (es: seq<Event>)
    requires var r := Run(Root, first);
             && r.commits == Root.commits && r.target == 0 && r.lock == None && r.branch == map["a" := 0]
             && r.work == map["a" := Gated(0)] && r.suites == [SuiteRun("a", 0, 0, true)]
    ensures var r := Run(Root, es);
            && r.commits == [Commit([], "root"), Commit([0], "b")] && r.target == 0 && r.lock == None
            && r.branch == map["a" := 0, "b" := 1] && r.work == map["a" := Gated(0), "b" := Developing]
            && r.suites == [SuiteRun("a", 0, 0, true)] && IsAncestor(r.commits, 0, 1)
  {
    var r0 := Run(Root, first);
    var r1 := Step(r0, Create("b"));
    OneStep(r0, Create("b"));
    OneStep(r1, Develop("b", "b"));
    RunConcat(Root, first, [Create("b")]);
    RunConcat(Root, first + [Create("b")], [Develop("b", "b")]);
    es := first + [Create("b")] + [Develop("b", "b")];
    var r := Run(Root, es);
    assert IsAncestor(r.commits, 0, 0) && 0 in r.commits[1].parents;
  }

  // After this outside history the integration puts a tree on the target that is not the tested one.
  ghost predicate PutsUntested(s: State, u: Unit, more: History, tip: CommitId) {
    && CanIntegrate(s, u) && TestedTip(s, u) < |s.commits| && CanBeLate(s, u, more, tip)
    && var r := Integrated(Late(s, u, more, tip), u, "");
       r.target != s.target && r.target < |r.commits| && r.commits[r.target].tree != s.commits[TestedTip(s, u)].tree
  }

  // Runs from the start that end in such a history, with a gate that still holds and with a stale one.
  lemma {:induction false} UntestedTreesReachTheTarget()
    returns (held: seq<Event>, chain: History, stale: seq<Event>, merge: History)
    ensures Initial(Root)
    ensures CanIntegrate(Run(Root, held), "a") && CanIntegrate(Run(Root, stale), "a")
    ensures Run(Root, held).target == Run(Root, held).suites[Run(Root, held).work["a"].gate].onto
    ensures Run(Root, stale).target != Run(Root, stale).suites[Run(Root, stale).work["a"].gate].onto
    ensures PutsUntested(Run(Root, held), "a", chain, |Run(Root, held).commits|)
    ensures PutsUntested(Run(Root, stale), "a", merge, |Run(Root, stale).commits|)
  {
    StartsInv(Root);
    held := FreshGate();
    RunKeepsInv(Root, held);
    chain := UntestedChain(Run(Root, held), "a");
    stale := StaleGate();
    RunKeepsInv(Root, stale);
    merge := UntestedMerge(Run(Root, stale), "a");
  }

  // A late merge that keeps the gated tree and drops the target's own changes: the tree is the tested one,
  // and nobody tested it on top of the head it replaces.
  lemma {:induction false} TestedTreeOnAnotherHead() returns (stale: seq<Event>, merge: History)
    ensures Initial(Root) && CanIntegrate(Run(Root, stale), "a")
    ensures var s := Run(Root, stale);
            && TestedTip(s, "a") < |s.commits| && CanBeLate(s, "a", merge, |s.commits|)
            && var r := Integrated(Late(s, "a", merge, |s.commits|), "a", "");
               && r.target != s.target && r.target < |r.commits| && |r.merges| == |s.merges| + 1
               && r.commits[r.target].tree == s.commits[TestedTip(s, "a")].tree
               && !TestedOnTop(r, r.merges[|s.merges|])
  {
    StartsInv(Root);
    stale := StaleGate();
    RunKeepsInv(Root, stale);
    merge := MergeKeepingTheGatedTree(Run(Root, stale), "a");
  }

  lemma {:induction false} MergeKeepingTheGatedTree(s: State, u: Unit) returns (more: History)
    requires Inv(s) && CanIntegrate(s, u) && s.suites[s.work[u].gate].onto != s.target
    ensures TestedTip(s, u) < |s.commits| && CanBeLate(s, u, more, |s.commits|)
    ensures var r := Integrated(Late(s, u, more, |s.commits|), u, "");
            && r.target != s.target && r.target < |r.commits| && |r.merges| == |s.merges| + 1
            && r.commits[r.target].tree == s.commits[TestedTip(s, u)].tree
            && !TestedOnTop(r, r.merges[|s.merges|])
  {
    assert GateFits(s, s.suites[s.work[u].gate]);
    var tree := s.commits[TestedTip(s, u)].tree;
    more := [Commit([s.branch[u], s.target], tree)];
    LateMergeSlipsThrough(s, u, tree, "");
    LateIsRecorded(s, u, more, |s.commits|);
    IntegrationFollowsTip(Late(s, u, more, |s.commits|), u, "");
  }

  lemma {:induction false} UntestedChain(s: State, u: Unit) returns (more: History)
    requires Inv(s) && CanIntegrate(s, u) && s.target == s.suites[s.work[u].gate].onto
    ensures PutsUntested(s, u, more, |s.commits|)
  {
    assert GateFits(s, s.suites[s.work[u].gate]);
    var tree := s.commits[TestedTip(s, u)].tree + "+";
    more := Chain(s, u, [tree]);
    LateChainSlipsThrough(s, u, [tree], "");
  }

  lemma {:induction false} UntestedMerge(s: State, u: Unit) returns (more: History)
    requires Inv(s) && CanIntegrate(s, u)
    ensures PutsUntested(s, u, more, |s.commits|)
  {
    assert GateFits(s, s.suites[s.work[u].gate]);
    var tree := s.commits[TestedTip(s, u)].tree + "+";
    more := [Commit([s.branch[u], s.target], tree)];
    LateMergeSlipsThrough(s, u, tree, "");
  }
}
