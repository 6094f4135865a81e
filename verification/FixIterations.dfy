// The `max_fix_iterations` trigger: the last n validations since the last resolved escalation show no
// decrease in failing tests, and tests still fail.
module FixIterations {
  import opened Options
  import opened Escalations

  datatype FixRow = FixRow(stage: Stage, iteration: nat, failing: nat, createdAt: int)

  // ---------------------------------------------------------------- the query

  // MAX(resolved_at) over the stage's resolved max_fix_iterations escalations.
  function LastResolved(rows: seq<Escalation>, st: Stage): Option<int> {
    if rows == [] then None
    else
      var last := rows[|rows| - 1];
      var rest := LastResolved(rows[..|rows| - 1], st);
      if last.stage == st && last.trigger == MaxFixIterations && last.resolvedAt.Some?
         && (rest.None? || rest.value < last.resolvedAt.value)
      then last.resolvedAt else rest
  }

  // WHERE stage_id = :s AND created_at > COALESCE(..., '')
  function InWindow(table: seq<FixRow>, st: Stage, cutoff: Option<int>): seq<FixRow> {
    if table == [] then []
    else
      var last := table[|table| - 1];
      InWindow(table[..|table| - 1], st, cutoff)
      + if last.stage == st && (cutoff.None? || last.createdAt > cutoff.value) then [last] else []
  }

  function InsertByIteration(x: FixRow, s: seq<FixRow>): seq<FixRow> {
    if s == [] || s[|s| - 1].iteration <= x.iteration then s + [x]
    else InsertByIteration(x, s[..|s| - 1]) + [s[|s| - 1]]
  }

  function OrderByIteration(s: seq<FixRow>): seq<FixRow> {
    if s == [] then [] else InsertByIteration(s[|s| - 1], OrderByIteration(s[..|s| - 1]))
  }

  // ORDER BY iteration DESC LIMIT n, read back in ascending order.
  function Newest(s: seq<FixRow>, n: nat): seq<FixRow> {
    var sorted := OrderByIteration(s);
    if |sorted| <= n then sorted else sorted[|sorted| - n..]
  }

  function Window(table: seq<FixRow>, rows: seq<Escalation>, st: Stage, n: nat): seq<FixRow> {
    Newest(InWindow(table, st, LastResolved(rows, st)), n)
  }

  // Rows with a predecessor in the same list (LAG) that is not above them.
  function NonDecreasingPairs(s: seq<FixRow>): nat {
    if |s| < 2 then 0
    else
      NonDecreasingPairs(s[..|s| - 1])
      + if s[|s| - 1].failing >= s[|s| - 2].failing then 1 else 0
  }

  // The check with LAG over the limited window: n rows give n - 1 comparisons.
  predicate FiresOn(win: seq<FixRow>, n: nat) {
    && |win| >= n
    && NonDecreasingPairs(win) == n - 1
    && win != [] && win[|win| - 1].failing > 0
  }

  predicate Fires(table: seq<FixRow>, rows: seq<Escalation>, st: Stage, n: nat) {
    FiresOn(Window(table, rows, st, n), n)
  }

  // Nothing fires while an escalation of the trigger is open.
  function Evidence(table: seq<FixRow>, rows: seq<Escalation>, st: Stage, n: nat): Option<seq<FixRow>> {
    if HasOpen(rows, st, MaxFixIterations) || !Fires(table, rows, st, n) then None
    else Some(Window(table, rows, st, n))
  }

  // ---------------------------------------------------------------- the table

  // COALESCE(MAX(iteration), 0) for one stage.
  function MaxIteration(table: seq<FixRow>, st: Stage): nat {
    if table == [] then 0
    else
      var last := table[|table| - 1];
      var rest := MaxIteration(table[..|table| - 1], st);
      if last.stage == st then Max(last.iteration, rest) else rest
  }

  ghost predicate Numbered(table: seq<FixRow>) {
    forall i, j :: 0 <= i < j < |table| && table[i].stage == table[j].stage ==> table[i].iteration < table[j].iteration
  }

  lemma {:induction false} MaxIterationBounds(table: seq<FixRow>, st: Stage)
    ensures forall x :: x in table && x.stage == st ==> x.iteration <= MaxIteration(table, st)
  {
    if table != [] {
      MaxIterationBounds(table[..|table| - 1], st);
      assert table == table[..|table| - 1] + [table[|table| - 1]];
    }
  }

  // Recording a validation numbers it one past the stage's last.
  function Record(table: seq<FixRow>, st: Stage, failing: nat, now: int): seq<FixRow> {
    table + [FixRow(st, MaxIteration(table, st) + 1, failing, now)]
  }

  function RowsOf(table: seq<FixRow>, st: Stage): (r: seq<FixRow>)
    ensures forall x :: x in r <==> x in table && x.stage == st
  {
    if table == [] then []
    else
      var init, last := table[..|table| - 1], table[|table| - 1];
      assert table == init + [last];
      RowsOf(init, st) + if last.stage == st then [last] else []
  }

  // A stage's validations are numbered 1, 2, 3 and so on.
  ghost predicate Counted(table: seq<FixRow>, st: Stage) {
    forall k :: 0 <= k < |RowsOf(table, st)| ==> RowsOf(table, st)[k].iteration == k + 1
  }

  lemma {:induction false} CountIsMax(table: seq<FixRow>, st: Stage)
    requires Counted(table, st)
    ensures MaxIteration(table, st) == |RowsOf(table, st)|
  {
    if table != [] {
      var init, rows := table[..|table| - 1], RowsOf(table, st);
      assert RowsOf(init, st) == if table[|table| - 1].stage == st then rows[..|rows| - 1] else rows;
      CountIsMax(init, st);
    }
  }

  lemma {:induction false} RecordCounts(table: seq<FixRow>, st: Stage, failing: nat, now: int, other: Stage)
    requires Counted(table, st) && Counted(table, other)
    ensures Counted(Record(table, st, failing, now), other)
    ensures RowsOf(Record(table, st, failing, now), st)
         == RowsOf(table, st) + [FixRow(st, |RowsOf(table, st)| + 1, failing, now)]
  {
    CountIsMax(table, st);
    assert Record(table, st, failing, now)[..|table|] == table;
  }

  lemma {:induction false} RecordKeepsNumbering(table: seq<FixRow>, st: Stage, failing: nat, now: int)
    requires Numbered(table)
    ensures Numbered(Record(table, st, failing, now))
  {
    MaxIterationBounds(table, st);
  }

  // ---------------------------------------------------------------- ordering is the insertion order

  ghost predicate Ordered(s: seq<FixRow>) {
    forall i, j :: 0 <= i < j < |s| ==> s[i].iteration < s[j].iteration
  }

  lemma {:induction false} OrderedIsFixed(s: seq<FixRow>)
    requires Ordered(s)
    ensures OrderByIteration(s) == s
  {
    if s != [] {
      OrderedIsFixed(s[..|s| - 1]);
      assert s == s[..|s| - 1] + [s[|s| - 1]];
    }
  }

  lemma {:induction false} InWindowSelects(table: seq<FixRow>, st: Stage, cutoff: Option<int>)
    ensures forall x :: x in InWindow(table, st, cutoff) <==>
              x in table && x.stage == st && (cutoff.None? || x.createdAt > cutoff.value)
  {
    if table != [] {
      InWindowSelects(table[..|table| - 1], st, cutoff);
      assert table == table[..|table| - 1] + [table[|table| - 1]];
    }
  }

  lemma {:induction false} WindowIsOrdered(table: seq<FixRow>, st: Stage, cutoff: Option<int>)
    requires Numbered(table)
    ensures Ordered(InWindow(table, st, cutoff))
  {
    if table != [] {
      var init, last := table[..|table| - 1], table[|table| - 1];
      WindowIsOrdered(init, st, cutoff);
      InWindowSelects(init, st, cutoff);
      forall x | x in InWindow(init, st, cutoff) && last.stage == st ensures x.iteration < last.iteration {
        var i :| 0 <= i < |init| && init[i] == x;
        assert table[i] == x;
      }
    }
  }

  // ---------------------------------------------------------------- when it fires

  // Rows `from` and later never fall below their predecessors.
  ghost predicate NeverDecreases(s: seq<FixRow>, from: int) {
    forall i, j :: 0 <= i < j < |s| && j == i + 1 && from <= j ==> s[i].failing <= s[j].failing
  }

  lemma {:induction false} PairsCount(s: seq<FixRow>)
    ensures NonDecreasingPairs(s) <= if s == [] then 0 else |s| - 1
    ensures s != [] ==> (NonDecreasingPairs(s) == |s| - 1 <==> NeverDecreases(s, 1))
  {
    if |s| >= 2 {
      var init := s[..|s| - 1];
      PairsCount(init);
      if NeverDecreases(init, 1) && s[|s| - 1].failing >= s[|s| - 2].failing {
        forall i, j | 0 <= i < j < |s| && j == i + 1 ensures s[i].failing <= s[j].failing {
          assert j < |s| - 1 ==> init[i].failing <= init[j].failing;
        }
      }
      if NeverDecreases(s, 1) {
        forall i, j | 0 <= i < j < |init| && j == i + 1 ensures init[i].failing <= init[j].failing {
          assert s[i].failing <= s[j].failing;
        }
      }
    }
  }

  lemma {:induction false} NewestOfOrdered(w: seq<FixRow>, n: nat)
    requires Ordered(w)
    ensures Newest(w, n) == Suffix(w, n)
  {
    OrderedIsFixed(w);
  }

  lemma {:induction false} WindowIsSuffix(table: seq<FixRow>, rows: seq<Escalation>, st: Stage, n: nat)
    returns (w: seq<FixRow>)
    requires Numbered(table)
    ensures w == InWindow(table, st, LastResolved(rows, st)) && OrderByIteration(w) == w
    ensures Window(table, rows, st, n) == Suffix(w, n)
  {
    var cutoff := LastResolved(rows, st);
    w := InWindow(table, st, cutoff);
    WindowIsOrdered(table, st, cutoff);
    NewestOfOrdered(w, n);
    OrderedIsFixed(w);
  }

  lemma {:induction false} SuffixNeverDecreases(w: seq<FixRow>, n: nat)
    requires 1 <= n <= |w|
    ensures NeverDecreases(w[|w| - n..], 1) <==> NeverDecreases(w, |w| - n + 1)
  {
    var win := w[|w| - n..];
    if NeverDecreases(win, 1) {
      forall i, j | 0 <= i < j < |w| && j == i + 1 && |w| - n + 1 <= j ensures w[i].failing <= w[j].failing {
        assert win[i - (|w| - n)].failing <= win[j - (|w| - n)].failing;
      }
    }
    if NeverDecreases(w, |w| - n + 1) {
      forall i, j | 0 <= i < j < n && j == i + 1 ensures win[i].failing <= win[j].failing {
        assert w[|w| - n + i].failing <= w[|w| - n + j].failing;
      }
    }
  }

  // At least n iterations, the last n never decrease, and the newest still has failing tests.
  ghost predicate Stagnates(w: seq<FixRow>, n: nat) {
    n >= 1 && |w| >= n && NeverDecreases(w, |w| - n + 1) && w[|w| - 1].failing > 0
  }

  function Suffix(w: seq<FixRow>, n: nat): seq<FixRow> {
    if |w| <= n then w else w[|w| - n..]
  }

  lemma {:induction false} FiresOnSuffix(w: seq<FixRow>, n: nat)
    requires n >= 1
    ensures FiresOn(Suffix(w, n), n) <==> Stagnates(w, n)
  {
    if |w| >= n {
      assert w[|w| - |w|..] == w;
      PairsCount(w[|w| - n..]);
      SuffixNeverDecreases(w, n);
    }
  }

  // The trigger fires iff at least n iterations lie strictly after the last resolved escalation, the
  // last n of them never decrease, and the newest still has failing tests.
  lemma {:induction false} FiresExactly(table: seq<FixRow>, rows: seq<Escalation>, st: Stage, n: nat)
    requires Numbered(table) && n >= 1
    ensures Fires(table, rows, st, n) <==> Stagnates(InWindow(table, st, LastResolved(rows, st)), n)
  {
    var w := WindowIsSuffix(table, rows, st, n);
    FiresOnSuffix(w, n);
  }

  // The evidence of a check that fires: the stage's last n iterations after the last resolution, in order.
  lemma {:induction false} EvidenceExactly(table: seq<FixRow>, rows: seq<Escalation>, st: Stage, n: nat)
    requires Numbered(table) && n >= 1
    ensures var w := InWindow(table, st, LastResolved(rows, st));
            && (Evidence(table, rows, st, n).Some? <==> !HasOpen(rows, st, MaxFixIterations) && Stagnates(w, n))
            && (Evidence(table, rows, st, n).Some? ==>
                  && |w| >= n && Evidence(table, rows, st, n).value == w[|w| - n..] && Ordered(w)
                  && forall x :: x in w <==> x in table && x.stage == st
                                             && (LastResolved(rows, st).Some? ==>
                                                   x.createdAt > LastResolved(rows, st).value))
  {
    var w := WindowIsSuffix(table, rows, st, n);
    FiresExactly(table, rows, st, n);
    InWindowSelects(table, st, LastResolved(rows, st));
    WindowIsOrdered(table, st, LastResolved(rows, st));
    assert |w| == n ==> w[|w| - n..] == w;
  }

  // ---------------------------------------------------------------- why LAG comes after LIMIT

  // The comparisons of rows `from` and later with their predecessors in the whole list.
  function PairsFrom(s: seq<FixRow>, from: nat): nat {
    if |s| <= from || |s| < 2 then 0
    else
      PairsFrom(s[..|s| - 1], from)
      + if s[|s| - 1].failing >= s[|s| - 2].failing then 1 else 0
  }

  // The same check with LAG over the unlimited window.
  predicate VariantFiresOn(w: seq<FixRow>, n: nat) {
    |w| >= n && PairsFrom(w, |w| - n) == n - 1 && w != [] && w[|w| - 1].failing > 0
  }

  predicate VariantFires(table: seq<FixRow>, rows: seq<Escalation>, st: Stage, n: nat) {
    VariantFiresOn(OrderByIteration(InWindow(table, st, LastResolved(rows, st))), n)
  }

  // Once there is a row before the last n, its comparison is counted as well.
  lemma {:induction false} BoundaryPairCounts(s: seq<FixRow>, from: nat)
    requires 1 <= from < |s|
    ensures PairsFrom(s, from)
         == NonDecreasingPairs(s[from..]) + if s[from].failing >= s[from - 1].failing then 1 else 0
  {
    var init := s[..|s| - 1];
    if from < |init| {
      BoundaryPairCounts(init, from);
      assert s[from..][..|s| - from - 1] == init[from..];
    } else {
      assert PairsFrom(init, from) == 0;
    }
  }

  // More than n iterations, and the first of the last n fell below the one before it.
  predicate DropsIn(w: seq<FixRow>, n: nat) {
    n >= 1 && |w| > n && w[|w| - n].failing < w[|w| - n - 1].failing
  }

  lemma {:induction false} AllPairs(s: seq<FixRow>)
    ensures PairsFrom(s, 0) == NonDecreasingPairs(s)
  {
    if |s| >= 2 {
      AllPairs(s[..|s| - 1]);
    }
  }

  // How many comparisons the variant needs among the last n: one fewer when there is earlier history and
  // no drop into the last n, because the boundary comparison then counts too.
  function Needed(w: seq<FixRow>, n: nat): int {
    if |w| > n && !DropsIn(w, n) then n - 2 else n - 1
  }

  lemma {:induction false} VariantOnSuffix(w: seq<FixRow>, n: nat)
    requires n >= 1
    ensures VariantFiresOn(w, n)
            <==> |w| >= n && NonDecreasingPairs(Suffix(w, n)) == Needed(w, n) && w[|w| - 1].failing > 0
  {
    if |w| > n {
      BoundaryPairCounts(w, |w| - n);
    } else {
      AllPairs(w);
    }
  }

  // When the variant fires, for every table: with no earlier history, or after a drop into the last n,
  // exactly like the query; otherwise exactly when one of the last n iterations made progress.
  lemma {:induction false} VariantFiresExactly(table: seq<FixRow>, rows: seq<Escalation>, st: Stage, n: nat)
    requires Numbered(table) && n >= 1
    ensures var w := InWindow(table, st, LastResolved(rows, st));
            VariantFires(table, rows, st, n) <==>
              |w| >= n && NonDecreasingPairs(Window(table, rows, st, n)) == Needed(w, n) && w[|w| - 1].failing > 0
  {
    var w := WindowIsSuffix(table, rows, st, n);
    VariantOnSuffix(w, n);
  }

  // A stagnation the query reports is missed by the variant exactly when there is earlier history and
  // the last n iterations did not begin with a drop.
  lemma {:induction false} VariantMissesStagnation(table: seq<FixRow>, rows: seq<Escalation>, st: Stage, n: nat)
    requires n >= 1 && Numbered(table) && Fires(table, rows, st, n)
    ensures var w := InWindow(table, st, LastResolved(rows, st));
            !VariantFires(table, rows, st, n) <==> |w| > n && !DropsIn(w, n)
  {
    var w := WindowIsSuffix(table, rows, st, n);
    FiresOnSuffix(w, n);
    VariantOnSuffix(w, n);
  }

  // The two checks give different answers exactly when, besides, tests still fail and at most one of the
  // last n iterations made progress.
  lemma {:induction false} VariantDiffersExactly(table: seq<FixRow>, rows: seq<Escalation>, st: Stage, n: nat)
    requires n >= 1 && Numbered(table)
    ensures var w := InWindow(table, st, LastResolved(rows, st));
            (Fires(table, rows, st, n) != VariantFires(table, rows, st, n)) <==>
              && |w| > n && !DropsIn(w, n) && w[|w| - 1].failing > 0
              && NonDecreasingPairs(Window(table, rows, st, n)) >= n - 2
  {
    var w := WindowIsSuffix(table, rows, st, n);
    VariantOnSuffix(w, n);
    PairsCount(Suffix(w, n));
  }

  // One stage's first three validations, with their failing counts.
  function ThreeRows(a: nat, b: nat, c: nat): seq<FixRow> {
    [FixRow("s", 1, a, 1), FixRow("s", 2, b, 2), FixRow("s", 3, c, 3)]
  }

  lemma {:induction false} ThreeRowsInWindow(a: nat, b: nat, c: nat)
    ensures Numbered(ThreeRows(a, b, c))
    ensures InWindow(ThreeRows(a, b, c), "s", LastResolved([], "s")) == ThreeRows(a, b, c)
  {
    var t := ThreeRows(a, b, c);
    assert t[..2] == [t[0], t[1]] && [t[0], t[1]][..1] == [t[0]] && [t[0]][..0] == [];
    assert InWindow([t[0]], "s", None) == [t[0]];
    assert InWindow([t[0], t[1]], "s", None) == [t[0], t[1]];
  }

  lemma {:induction false} OnThreeRows(a: nat, b: nat, c: nat)
    ensures Fires(ThreeRows(a, b, c), [], "s", 2) <==> c >= b && c > 0
    ensures VariantFires(ThreeRows(a, b, c), [], "s", 2) <==> (b >= a) != (c >= b) && c > 0
  {
    ThreeRowsInWindow(a, b, c);
    var w := WindowIsSuffix(ThreeRows(a, b, c), [], "s", 2);
    VariantOnSuffix(w, 2);
    assert Suffix(w, 2) == [w[1], w[2]] && [w[1], w[2]][..1] == [w[1]];
    assert NonDecreasingPairs([w[1]]) == 0;
  }

  // Failing counts 5, 3, 3 stagnate over the last two, and the variant fires too: there was a drop into
  // them. Counts 3, 3, 3 stagnate as well, and the variant is silent. Counts 3, 3, 2 made progress, and
  // only the variant fires.
  lemma {:induction false} VariantOnThreeTables()
    ensures Fires(ThreeRows(5, 3, 3), [], "s", 2) && VariantFires(ThreeRows(5, 3, 3), [], "s", 2)
    ensures Fires(ThreeRows(3, 3, 3), [], "s", 2) && !VariantFires(ThreeRows(3, 3, 3), [], "s", 2)
    ensures !Fires(ThreeRows(3, 3, 2), [], "s", 2) && VariantFires(ThreeRows(3, 3, 2), [], "s", 2)
  {
    OnThreeRows(5, 3, 3);
    OnThreeRows(3, 3, 3);
    OnThreeRows(3, 3, 2);
  }

  // ---------------------------------------------------------------- re-arming

  datatype State = State(now: int, table: seq<FixRow>, rows: seq<Escalation>)

  datatype Operation =
    | Tick(seconds: nat)
    | Validate(stage: Stage, failing: nat)
    | File(stage: Stage)
    | Resolve(row: nat)

  function Step(s: State, op: Operation): State {
    match op
    case Tick(d) => s.(now := s.now + d)
    case Validate(st, failing) => s.(table := Record(s.table, st, failing, s.now))
    case File(st) =>
      if HasOpen(s.rows, st, MaxFixIterations) then s
      else s.(rows := s.rows + [Escalation(st, MaxFixIterations, None, None, [])])
    case Resolve(i) =>
      if i >= |s.rows| || s.rows[i].resolvedAt.Some? then s
      else s.(rows := s.rows[i := s.rows[i].(resolvedAt := Some(s.now))])
  }

  function Run(s: State, ops: seq<Operation>): State {
    if ops == [] then s else Step(Run(s, ops[..|ops| - 1]), ops[|ops| - 1])
  }

  function Validations(ops: seq<Operation>, st: Stage): nat {
    if ops == [] then 0
    else
      var last := ops[|ops| - 1];
      Validations(ops[..|ops| - 1], st) + if last.Validate? && last.stage == st then 1 else 0
  }

  predicate ResolvedRow(rows: seq<Escalation>, i: nat, st: Stage, at: int) {
    i < |rows| && rows[i].stage == st && rows[i].trigger == MaxFixIterations && rows[i].resolvedAt == Some(at)
  }

  lemma {:induction false} LastResolvedIsLatest(rows: seq<Escalation>, i: nat, st: Stage, at: int)
    requires ResolvedRow(rows, i, st, at)
    ensures LastResolved(rows, st).Some? && LastResolved(rows, st).value >= at
  {
    if i < |rows| - 1 {
      LastResolvedIsLatest(rows[..|rows| - 1], i, st, at);
    }
  }

  lemma {:induction false} LaterCutoff(table: seq<FixRow>, st: Stage, a: int, b: int)
    requires a <= b
    ensures |InWindow(table, st, Some(b))| <= |InWindow(table, st, Some(a))|
  {
    if table != [] {
      LaterCutoff(table[..|table| - 1], st, a, b);
    }
  }

  lemma {:induction false} NothingInWindow(table: seq<FixRow>, st: Stage, at: int)
    requires forall x :: x in table ==> x.createdAt <= at
    ensures InWindow(table, st, Some(at)) == []
  {
    if table != [] {
      assert table[|table| - 1] in table;
      NothingInWindow(table[..|table| - 1], st, at);
    }
  }

  lemma {:induction false} ResolutionsStay(s: State, ops: seq<Operation>, i: nat, st: Stage, at: int)
    requires ResolvedRow(s.rows, i, st, at)
    ensures ResolvedRow(Run(s, ops).rows, i, st, at)
  {
    if ops != [] {
      ResolutionsStay(s, ops[..|ops| - 1], i, st, at);
    }
  }

  lemma {:induction false} OnlyFreshIterationsCount(s: State, ops: seq<Operation>, st: Stage, at: int)
    requires forall x :: x in s.table ==> x.createdAt <= at
    ensures |InWindow(Run(s, ops).table, st, Some(at))| <= Validations(ops, st)
  {
    if ops == [] {
      NothingInWindow(s.table, st, at);
    } else {
      OnlyFreshIterationsCount(s, ops[..|ops| - 1], st, at);
      var r, op := Run(s, ops[..|ops| - 1]), ops[|ops| - 1];
      if op.Validate? {
        assert Record(r.table, op.stage, op.failing, r.now)[..|r.table|] == r.table;
      }
    }
  }

  lemma {:induction false} RunKeepsNumbering(s: State, ops: seq<Operation>)
    requires Numbered(s.table)
    ensures Numbered(Run(s, ops).table)
  {
    if ops != [] {
      RunKeepsNumbering(s, ops[..|ops| - 1]);
      var r, op := Run(s, ops[..|ops| - 1]), ops[|ops| - 1];
      if op.Validate? {
        RecordKeepsNumbering(r.table, op.stage, op.failing, r.now);
      }
    }
  }

  // Over every run from an empty table the k-th validation of a stage is its iteration k.
  lemma {:induction false} IterationsAreCounted(s: State, ops: seq<Operation>, st: Stage)
    requires s.table == []
    ensures Counted(Run(s, ops).table, st) && |RowsOf(Run(s, ops).table, st)| == Validations(ops, st)
  {
    if ops != [] {
      var init, op := ops[..|ops| - 1], ops[|ops| - 1];
      IterationsAreCounted(s, init, st);
      if op.Validate? {
        IterationsAreCounted(s, init, op.stage);
        RecordCounts(Run(s, init).table, op.stage, op.failing, Run(s, init).now, st);
        assert Run(s, ops).table[..|Run(s, init).table|] == Run(s, init).table;
      }
    }
  }

  // After a resolution the trigger is re-armed: whatever happens, it needs n more validations.
  lemma {:induction false} NeedsFreshIterations(s: State, ops: seq<Operation>, i: nat, st: Stage, n: nat)
    requires Numbered(s.table) && (forall x :: x in s.table ==> x.createdAt <= s.now)
    requires ResolvedRow(s.rows, i, st, s.now)
    requires n >= 1 && Validations(ops, st) < n
    ensures !Fires(Run(s, ops).table, Run(s, ops).rows, st, n)
  {
    var r := Run(s, ops);
    RunKeepsNumbering(s, ops);
    ResolutionsStay(s, ops, i, st, s.now);
    OnlyFreshIterationsCount(s, ops, st, s.now);
    LastResolvedIsLatest(r.rows, i, st, s.now);
    LaterCutoff(r.table, st, s.now, LastResolved(r.rows, st).value);
    FiresExactly(r.table, r.rows, st, n);
  }
}
