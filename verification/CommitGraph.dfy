// Commits as a growing history: a commit's parents were there before it.
module CommitGraph {

  type CommitId = nat
  type Tree = string
  datatype Commit = Commit(parents: seq<CommitId>, tree: Tree)
  type History = seq<Commit>

  ghost predicate Grown(h: History) {
    forall i, p :: 0 <= i < |h| && p in h[i].parents ==> p < i
  }

  // `git merge-base --is-ancestor a b`
  predicate IsAncestor(h: History, a: CommitId, b: CommitId)
    decreases b
  {
    b < |h| && (a == b || exists p :: p in h[b].parents && p < b && IsAncestor(h, a, p))
  }

  lemma {:induction false} AncestorsAreOlder(h: History, a: CommitId, b: CommitId)
    requires IsAncestor(h, a, b)
    ensures a <= b
    decreases b
  {
    if a != b {
      var p :| p in h[b].parents && p < b && IsAncestor(h, a, p);
      AncestorsAreOlder(h, a, p);
    }
  }

  lemma {:induction false} AncestryIsTransitive(h: History, a: CommitId, b: CommitId, c: CommitId)
    requires IsAncestor(h, a, b) && IsAncestor(h, b, c)
    ensures IsAncestor(h, a, c)
    decreases c
  {
    if b != c {
      var p :| p in h[c].parents && p < c && IsAncestor(h, b, p);
      AncestryIsTransitive(h, a, b, p);
    }
  }

  // New commits never change the ancestry of old ones.
  lemma {:induction false} AncestryIsStable(h: History, more: History, a: CommitId, b: CommitId)
    requires b < |h|
    ensures IsAncestor(h + more, a, b) <==> IsAncestor(h, a, b)
    decreases b
  {
    forall p: CommitId | p in h[b].parents && p < b
      ensures IsAncestor(h + more, a, p) <==> IsAncestor(h, a, p)
    {
      AncestryIsStable(h, more, a, p);
    }
  }

  // The commits of `trees` replayed in order on top of `base`.
  function Replay(h: History, base: CommitId, trees: seq<Tree>): (r: History)
    ensures |r| == |h| + |trees| && r[..|h|] == h
  {
    if trees == [] then h
    else
      var init := Replay(h, base, trees[..|trees| - 1]);
      init + [Commit([if |trees| == 1 then base else |init| - 1], trees[|trees| - 1])]
  }

  function Tip(h: History, base: CommitId, trees: seq<Tree>): CommitId {
    if trees == [] then base else |h| + |trees| - 1
  }

  lemma {:induction false} ReplayedOnBase(h: History, base: CommitId, trees: seq<Tree>)
    requires Grown(h) && base < |h|
    ensures Grown(Replay(h, base, trees))
    ensures IsAncestor(Replay(h, base, trees), base, Tip(h, base, trees))
  {
    if trees != [] {
      var init := trees[..|trees| - 1];
      ReplayedOnBase(h, base, init);
      var r := Replay(h, base, init);
      var last := Commit([if |trees| == 1 then base else |r| - 1], trees[|trees| - 1]);
      assert Replay(h, base, trees) == r + [last];
      AncestryIsStable(r, [last], base, Tip(h, base, init));
      assert (r + [last])[|r|] == last && last.parents[0] == Tip(h, base, init);
    }
  }

  // `r` is `h` with one new commit for each tree, in order, the first on top of `base`.
  ghost predicate Stacked(h: History, r: History, base: CommitId, trees: seq<Tree>) {
    && |r| == |h| + |trees| && h <= r
    && forall k :: 0 <= k < |trees| ==> r[|h| + k] == Commit([if k == 0 then base else |h| + k - 1], trees[k])
  }

  lemma {:induction false} ReplayStacks(h: History, base: CommitId, trees: seq<Tree>)
    ensures Stacked(h, Replay(h, base, trees), base, trees)
  {
    if trees != [] {
      ReplayStacks(h, base, trees[..|trees| - 1]);
    }
  }

  // A walk from `a` to `b` along parent links.
  ghost predicate IsLine(h: History, line: seq<CommitId>, a: CommitId, b: CommitId) {
    && line != [] && line[0] == a && line[|line| - 1] == b && b < |h|
    && forall i :: 0 < i < |line| ==> line[i] < |h| && line[i - 1] in h[line[i]].parents
  }

  // The ancestor test answers exactly whether some line of parents leads from the one to the other.
  lemma {:induction false} AncestorsAreLines(h: History, a: CommitId, b: CommitId)
    requires Grown(h)
    ensures IsAncestor(h, a, b) <==> exists line :: IsLine(h, line, a, b)
    decreases b
  {
    if IsAncestor(h, a, b) {
      if a == b {
        assert IsLine(h, [a], a, b);
      } else {
        var p :| p in h[b].parents && p < b && IsAncestor(h, a, p);
        AncestorsAreLines(h, a, p);
        var line :| IsLine(h, line, a, p);
        assert IsLine(h, line + [b], a, b);
      }
    }
    if line :| IsLine(h, line, a, b) {
      LinesAreAncestry(h, line, a, b);
    }
  }

  lemma {:induction false} LinesAreAncestry(h: History, line: seq<CommitId>, a: CommitId, b: CommitId)
    requires Grown(h) && IsLine(h, line, a, b)
    ensures IsAncestor(h, a, b)
    decreases |line|
  {
    if |line| > 1 {
      var p := line[|line| - 2];
      assert p in h[line[|line| - 1]].parents;
      LinesAreAncestry(h, line[..|line| - 1], a, p);
    }
  }
}
