// What single steps of the gate protocol do and leave alone, and who holds the lock.
module GateSteps {
  import opened CommitGraph
  import opened MergeGate
  import opened Options

  // A unit's steps never touch another unit's branch or work.
  lemma {:induction false} OthersAreLeftAlone(s: State, e: Event, v: Unit)
    requires v != e.unit
    ensures SamePlace(s, Step(s, e), v)
  {
  }

  // Commits, suite runs and merges are never dropped or rewritten.
  lemma {:induction false} RecordsOnlyGrow(s: State, e: Event)
    ensures s.commits <= Step(s, e).commits && s.suites <= Step(s, e).suites && s.merges <= Step(s, e).merges
  {
  }

  // Over any stretch of a run.
  lemma {:induction false} RunsOnlyGrow(s: State, es: seq<Event>)
    ensures s.commits <= Run(s, es).commits && s.suites <= Run(s, es).suites && s.merges <= Run(s, es).merges
  {
    if es != [] {
      RunsOnlyGrow(s, es[..|es| - 1]);
      RecordsOnlyGrow(Run(s, es[..|es| - 1]), es[|es| - 1]);
    }
  }

  predicate Replays(e: Event) {
    e.Rebase? && e.result.Replayed?
  }

  // Only writing and a replaying rebase move a branch, and only a merge that works moves the target.
  lemma {:induction false} WhatMovesBranches(s: State, e: Event, u: Unit)
    requires u in s.branch
    ensures u in Step(s, e).branch
    ensures Step(s, e).branch[u] != s.branch[u] ==> e.unit == u && (e.Develop? || Replays(e))
    ensures Step(s, e).target != s.target ==> e.DoMerge? && e.ok
  {
  }

  // Without a replaying rebase of its own, a stage's work stays on its branch: neither a failed suite,
  // a refused or failed integration nor an abandoned gate takes a commit from it.
  lemma {:induction false} WorkIsKept(s: State, es: seq<Event>, u: Unit)
    requires Inv(s) && u in s.branch
    requires forall e :: e in es && e.unit == u ==> !Replays(e)
    ensures u in Run(s, es).branch && IsAncestor(Run(s, es).commits, s.branch[u], Run(s, es).branch[u])
  {
    if es != [] {
      var init, last := es[..|es| - 1], es[|es| - 1];
      var r := Run(s, init);
      assert es == init + [last];
      WorkIsKept(s, init, u);
      RunKeepsInv(s, init);
      StepKeepsWork(r, last, u);
      var t := Step(r, last);
      RecordsOnlyGrow(r, last);
      assert t.commits == r.commits + t.commits[|r.commits|..];
      AncestryIsStable(r.commits, t.commits[|r.commits|..], s.branch[u], r.branch[u]);
      AncestryIsTransitive(t.commits, s.branch[u], r.branch[u], t.branch[u]);
    }
  }

  lemma {:induction false} StepKeepsWork(s: State, e: Event, u: Unit)
    requires Inv(s) && u in s.branch && (e.unit == u ==> !Replays(e))
    ensures u in Step(s, e).branch && IsAncestor(Step(s, e).commits, s.branch[u], Step(s, e).branch[u])
  {
    var t := Step(s, e);
    WhatMovesBranches(s, e, u);
    RecordsOnlyGrow(s, e);
    if t.branch[u] != s.branch[u] {
      assert t.commits[t.branch[u]].parents[0] == s.branch[u];
      assert IsAncestor(t.commits, s.branch[u], s.branch[u]);
    }
  }

  // A replaying rebase leaves one commit for each replayed tree on top of the target, and the branch at
  // the last of them.
  lemma {:induction false} RebasePutsTheWorkOnTheTarget(s: State, u: Unit, trees: seq<Tree>)
    requires At(s, u, Gating) && HoldsLock(s, u)
    ensures var t := Step(s, Rebase(u, Replayed(trees)));
            && Stacked(s.commits, t.commits, s.target, trees) && u in t.branch
            && t.branch[u] == (if trees == [] then s.target else |t.commits| - 1)
            && (trees != [] ==> t.commits[t.branch[u]].tree == trees[|trees| - 1])
  {
    ReplayStacks(s.commits, s.target, trees);
  }

  // ---------------------------------------------------------------- from stage to target

  // The life of one stage whose gate is not disturbed: its last tree is what the target gets.
  lemma {:induction false} UndisturbedStageLands(s: State, u: Unit, tree: Tree, trees: seq<Tree>, mixed: Tree)
    requires Inv(s) && s.lock == None && u !in s.work && u !in s.branch && trees != []
    ensures var t := Run(s, StageLife(u, tree, trees, mixed));
            && t.target < |t.commits| && t.commits[t.target].tree == trees[|trees| - 1]
            && |t.merges| == |s.merges| + 1 && t.merges[|s.merges|].prev == s.target
            && t.merges[|s.merges|].head == t.target
  {
    var begun := Run(s, [Create(u), Develop(u, tree)]);
    assert [Create(u), Develop(u, tree)][..1] == [Create(u)] && [Create(u)][..0] == [];
    assert Run(s, [Create(u)]) == Step(s, Create(u));
    assert begun == Step(Step(s, Create(u)), Develop(u, tree));
    RunKeepsInv(s, [Create(u), Develop(u, tree)]);
    var gated := AfterGate(begun, u, Replayed(trees), true);
    GateIsARun(begun, u, Replayed(trees), true);
    RunKeepsInv(begun, GateEvents(u, trees));
    ReplayStacks(begun.commits, begun.target, trees);
    assert WorkFits(gated, u);
    AncestorTestIsExact(gated, |s.suites|);
    IntegrationIsARun(gated, u, true, true, mixed);
    RunsJoin(begun, GateEvents(u, trees), IntegrationSteps(u, true, true, mixed));
    RunsJoin(s, [Create(u), Develop(u, tree)], GateEvents(u, trees) + IntegrationSteps(u, true, true, mixed));
    TipIsNew(gated, u);
  }

  function GateEvents(u: Unit, trees: seq<Tree>): seq<Event> {
    [EnterGate(u), Rebase(u, Replayed(trees)), Suite(u, true)]
  }

  function StageLife(u: Unit, tree: Tree, trees: seq<Tree>, mixed: Tree): seq<Event> {
    [Create(u), Develop(u, tree)] + (GateEvents(u, trees) + IntegrationSteps(u, true, true, mixed))
  }

  lemma {:induction false} TipIsNew(s: State, u: Unit)
    requires u in s.branch && s.target < s.branch[u]
    ensures !IsAncestor(s.commits, s.branch[u], s.target)
  {
    if IsAncestor(s.commits, s.branch[u], s.target) {
      AncestorsAreOlder(s.commits, s.branch[u], s.target);
    }
  }

  lemma {:induction false} RunsJoin(s: State, es: seq<Event>, more: seq<Event>)
    ensures Run(s, es + more) == Run(Run(s, es), more)
  {
    if more == [] {
      assert es + more == es;
    } else {
      RunsJoin(s, es, more[..|more| - 1]);
      assert (es + more)[..|es + more| - 1] == es + more[..|more| - 1];
    }
  }

  // ---------------------------------------------------------------- the lock

  // In every run the lock is held exactly while its holder is at work under it: it is never left behind.
  lemma {:induction false} LockIsNeverLeftBehind(s: State, es: seq<Event>, u: Unit)
    requires Initial(s)
    ensures var r := Run(s, es); r.lock == Some(u) <==> u in r.work && UnderLock(r.work[u])
  {
    if es != [] {
      var r := Run(s, es[..|es| - 1]);
      forall v ensures r.lock == Some(v) <==> v in r.work && UnderLock(r.work[v]) {
        LockIsNeverLeftBehind(s, es[..|es| - 1], v);
      }
      StepKeepsLockExact(r, es[|es| - 1], u);
    }
  }

  lemma {:induction false} StepKeepsLockExact(s: State, e: Event, u: Unit)
    requires forall v :: s.lock == Some(v) <==> v in s.work && UnderLock(s.work[v])
    ensures Step(s, e).lock == Some(u) <==> u in Step(s, e).work && UnderLock(Step(s, e).work[u])
  {
    assert s.lock == Some(e.unit) <==> e.unit in s.work && UnderLock(s.work[e.unit]);
  }
}
