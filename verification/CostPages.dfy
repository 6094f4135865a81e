// The two pages that show costs: the plan (from grouped totals) and the cost tables (from rows).
module CostPages {
  import opened Options
  import opened UnitStates
  import opened Costs

  datatype Stage = Stage(id: string, phase: string)

  predicate UniqueIds(stages: seq<Stage>) {
    forall i, j :: 0 <= i < j < |stages| ==> stages[i].id != stages[j].id
  }

  function RowsOf(owner: UnitKey, ledger: seq<Row>): seq<Row> {
    With(OwnerOf, owner, ledger)
  }

  // ---------------------------------------------------------------- totals per unit

  function GroupsOf(owner: UnitKey, groups: seq<Group>): (r: seq<Group>)
    ensures forall g :: g in r <==> g in groups && g.key.owner == owner
  {
    if groups == [] then []
    else
      var init, last := GroupsOf(owner, groups[..|groups| - 1]), groups[|groups| - 1];
      assert groups == groups[..|groups| - 1] + [last];
      if last.key.owner == owner then init + [last] else init
  }

  function Cost(costs: map<UnitKey, Summary>, owner: UnitKey): Summary {
    if owner in costs then costs[owner] else NoCost
  }

  method CostBuckets(prices: Prices, groups: seq<Group>) returns (costs: map<UnitKey, Summary>)
    ensures forall u :: u in costs <==> exists g :: g in groups && g.key.owner == u
    ensures forall u :: Cost(costs, u) == OfGroups(prices, GroupsOf(u, groups))
  {
    var grouped: map<UnitKey, seq<Group>> := map[];
    for i := 0 to |groups|
      invariant forall u :: u in grouped <==> GroupsOf(u, groups[..i]) != []
      invariant forall u :: u in grouped ==> grouped[u] == GroupsOf(u, groups[..i])
    {
      assert groups[..i + 1][..i] == groups[..i];
      var u := groups[i].key.owner;
      grouped := grouped[u := (if u in grouped then grouped[u] else []) + [groups[i]]];
    }
    assert groups[..|groups|] == groups;
    costs := map[];
    var left := grouped.Keys;
    while left != {}
      invariant left <= grouped.Keys && costs.Keys == grouped.Keys - left
      invariant forall u :: u in costs ==> costs[u] == OfGroups(prices, grouped[u])
    {
      var u :| u in left;
      var total := SummaryFromGroups(prices, grouped[u]);
      costs := costs[u := total];
      left := left - {u};
    }
    forall u
      ensures GroupsOf(u, groups) != [] <==> exists g :: g in groups && g.key.owner == u
    {
      if GroupsOf(u, groups) != [] {
        assert GroupsOf(u, groups)[0] in GroupsOf(u, groups);
      }
    }
  }

  lemma {:induction false} OwnKeysStayDistinct(owner: UnitKey, groups: seq<Group>)
    requires Distinct(Keys(groups))
    ensures Distinct(Keys(GroupsOf(owner, groups)))
  {
    if groups != [] {
      var init, last := groups[..|groups| - 1], groups[|groups| - 1];
      assert Keys(groups)[..|init|] == Keys(init);
      OwnKeysStayDistinct(owner, init);
      OwnKeys(owner, init, last.key);
      assert last.key !in Keys(init);
      OneMoreKey(GroupsOf(owner, init), last);
    }
  }

  lemma {:induction false} OneMoreKey(groups: seq<Group>, g: Group)
    requires Distinct(Keys(groups)) && g.key !in Keys(groups)
    ensures Distinct(Keys(groups + [g]))
  {
    assert (groups + [g])[..|groups|] == groups;
    assert Keys(groups + [g]) == Keys(groups) + [g.key];
  }

  lemma {:induction false} WithinOwner(k: GroupKey, ledger: seq<Row>)
    ensures With(GroupOf, k, RowsOf(k.owner, ledger)) == With(GroupOf, k, ledger)
  {
    if ledger != [] {
      var init, last := ledger[..|ledger| - 1], ledger[|ledger| - 1];
      WithinOwner(k, init);
      var own := RowsOf(k.owner, init);
      assert (own + [last])[..|own|] == own;
    }
  }

  // The groups of one unit are a grouping of that unit's rows.
  lemma {:induction false} GroupsOfOneUnit(owner: UnitKey, groups: seq<Group>, ledger: seq<Row>)
    requires IsGroupBy(groups, ledger)
    ensures IsGroupBy(GroupsOf(owner, groups), RowsOf(owner, ledger))
  {
    var own := GroupsOf(owner, groups);
    OwnKeysStayDistinct(owner, groups);
    forall i | 0 <= i < |own|
      ensures own[i] == Aggregate(own[i].key, With(GroupOf, own[i].key, RowsOf(owner, ledger)))
    {
      assert own[i] in groups;
      WithinOwner(own[i].key, ledger);
    }
    forall k
      ensures k in Keys(own) <==> exists row :: row in RowsOf(owner, ledger) && GroupOf(row) == k
    {
      OwnKeys(owner, groups, k);
      if row :| row in ledger && GroupOf(row) == k && k.owner == owner {
        assert row in RowsOf(owner, ledger);
      }
    }
  }

  lemma {:induction false} OwnKeys(owner: UnitKey, groups: seq<Group>, k: GroupKey)
    ensures k in Keys(GroupsOf(owner, groups)) <==> k in Keys(groups) && k.owner == owner
  {
    var own := GroupsOf(owner, groups);
    if k in Keys(own) {
      var i :| 0 <= i < |own| && Keys(own)[i] == k;
      assert own[i] in groups;
      var j :| 0 <= j < |groups| && groups[j] == own[i];
      assert Keys(groups)[j] == k;
    }
    if k in Keys(groups) && k.owner == owner {
      var j :| 0 <= j < |groups| && Keys(groups)[j] == k;
      assert groups[j] in own;
      var i :| 0 <= i < |own| && own[i] == groups[j];
      assert Keys(own)[i] == k;
    }
  }

  // A unit's bucket is the sum over its rows.
  lemma {:induction false} BucketIsExact(prices: Prices, owner: UnitKey, groups: seq<Group>, ledger: seq<Row>)
    requires IsGroupBy(groups, ledger)
    ensures OfGroups(prices, GroupsOf(owner, groups)) == OfRows(prices, RowsOf(owner, ledger))
  {
    GroupsOfOneUnit(owner, groups, ledger);
    GroupingIsExact(prices, GroupsOf(owner, groups), RowsOf(owner, ledger));
  }

  // ---------------------------------------------------------------- totals per phase

  // The phase a ledger row's unit belongs to.
  function HomeOf(owner: UnitKey, stages: seq<Stage>): Option<string> {
    if owner.level == PhaseLevel then Some(owner.unit)
    else if stages == [] then None
    else if stages[|stages| - 1].id == owner.unit then Some(stages[|stages| - 1].phase)
    else HomeOf(owner, stages[..|stages| - 1])
  }

  function Home(stages: seq<Stage>): Row -> Option<string> {
    (row: Row) => HomeOf(row.owner, stages)
  }

  // The reference: every ledger row of the phase and of its stages.
  function RowsUnder(phase: string, stages: seq<Stage>, ledger: seq<Row>): seq<Row> {
    With(Home(stages), Some(phase), ledger)
  }

  function StagesOf(phase: string, stages: seq<Stage>): (r: seq<Stage>)
    ensures forall s :: s in r <==> s in stages && s.phase == phase
  {
    if stages == [] then []
    else
      var init, last := StagesOf(phase, stages[..|stages| - 1]), stages[|stages| - 1];
      assert stages == stages[..|stages| - 1] + [last];
      if last.phase == phase then init + [last] else init
  }

  function StageKey(s: Stage): UnitKey {
    UnitKey(StageLevel, s.id)
  }

  function StageKeys(stages: seq<Stage>): (r: seq<UnitKey>)
    ensures |r| == |stages| && forall i :: 0 <= i < |r| ==> r[i] == StageKey(stages[i])
  {
    if stages == [] then [] else StageKeys(stages[..|stages| - 1]) + [StageKey(stages[|stages| - 1])]
  }

  function Units(phase: string, stages: seq<Stage>): seq<UnitKey> {
    [UnitKey(PhaseLevel, phase)] + StageKeys(StagesOf(phase, stages))
  }

  lemma {:induction false} StagesStayDistinct(phase: string, stages: seq<Stage>)
    requires UniqueIds(stages)
    ensures UniqueIds(StagesOf(phase, stages))
  {
    if stages != [] {
      var init, last := stages[..|stages| - 1], stages[|stages| - 1];
      StagesStayDistinct(phase, init);
      var own := StagesOf(phase, init);
      forall i | 0 <= i < |own|
        ensures own[i].id != last.id
      {
        assert own[i] in init;
      }
    }
  }

  lemma {:induction false} HomeIsListed(owner: UnitKey, stages: seq<Stage>, phase: string)
    requires UniqueIds(stages) && owner.level == StageLevel
    ensures HomeOf(owner, stages) == Some(phase) <==> Stage(owner.unit, phase) in stages
  {
    if stages != [] {
      var init, last := stages[..|stages| - 1], stages[|stages| - 1];
      HomeIsListed(owner, init, phase);
      assert stages == init + [last];
      assert last.id == owner.unit ==> Stage(owner.unit, phase) !in init;
    }
  }

  lemma {:induction false} StageIsListed(own: seq<Stage>, phase: string, id: string)
    requires forall s :: s in own ==> s.phase == phase
    ensures UnitKey(StageLevel, id) in StageKeys(own) <==> Stage(id, phase) in own
  {
    if UnitKey(StageLevel, id) in StageKeys(own) {
      var i :| 0 <= i < |own| && StageKeys(own)[i] == UnitKey(StageLevel, id);
      assert own[i] in own;
    }
    if Stage(id, phase) in own {
      var i :| 0 <= i < |own| && own[i] == Stage(id, phase);
      assert StageKeys(own)[i] == UnitKey(StageLevel, id);
    }
  }

  lemma {:induction false} UnitsAreHome(phase: string, stages: seq<Stage>, owner: UnitKey)
    requires UniqueIds(stages)
    ensures owner in Units(phase, stages) <==> HomeOf(owner, stages) == Some(phase)
  {
    var own := StagesOf(phase, stages);
    if owner.level == StageLevel {
      HomeIsListed(owner, stages, phase);
      StageIsListed(own, phase, owner.unit);
    } else {
      assert owner !in StageKeys(own);
    }
  }

  // The rows under a phase: its own and those of its stages.
  lemma {:induction false} RowsUnderExactly(phase: string, stages: seq<Stage>, ledger: seq<Row>, row: Row)
    requires UniqueIds(stages)
    ensures row in RowsUnder(phase, stages, ledger) <==>
              && row in ledger
              && (row.owner == UnitKey(PhaseLevel, phase)
                  || (row.owner.level == StageLevel && Stage(row.owner.unit, phase) in stages))
  {
    if row.owner.level == StageLevel {
      HomeIsListed(row.owner, stages, phase);
    }
  }

  lemma {:induction false} OwnRowsAreUnder(owner: UnitKey, phase: string, stages: seq<Stage>, ledger: seq<Row>)
    requires HomeOf(owner, stages) == Some(phase)
    ensures RowsOf(owner, RowsUnder(phase, stages, ledger)) == RowsOf(owner, ledger)
  {
    if ledger != [] {
      var init, last := ledger[..|ledger| - 1], ledger[|ledger| - 1];
      OwnRowsAreUnder(owner, phase, stages, init);
      var under := RowsUnder(phase, stages, init);
      assert (under + [last])[..|under|] == under;
    }
  }

  lemma {:induction false} UnitsAreDistinct(phase: string, stages: seq<Stage>)
    requires UniqueIds(stages)
    ensures Distinct(Units(phase, stages))
  {
    StagesStayDistinct(phase, stages);
    var own := StagesOf(phase, stages);
    forall i, j | 0 <= i < j < |Units(phase, stages)|
      ensures Units(phase, stages)[i] != Units(phase, stages)[j]
    {
      assert Units(phase, stages)[j] == StageKey(own[j - 1]);
    }
  }

  lemma {:induction false} SharesAgree<K>(prices: Prices, key: Row -> K, keys: seq<K>, a: seq<Row>, b: seq<Row>)
    requires forall k :: k in keys ==> With(key, k, a) == With(key, k, b)
    ensures Shares(prices, key, keys, a) == Shares(prices, key, keys, b)
  {
    if keys != [] {
      assert keys[|keys| - 1] in keys;
      SharesAgree(prices, key, keys[..|keys| - 1], a, b);
    }
  }

  // Summing a phase's units is summing its rows.
  lemma {:induction false} PhaseIsItsRows(prices: Prices, phase: string, stages: seq<Stage>, ledger: seq<Row>)
    requires UniqueIds(stages)
    ensures CombineAll(Shares(prices, OwnerOf, Units(phase, stages), ledger))
            == OfRows(prices, RowsUnder(phase, stages, ledger))
  {
    var units, rows := Units(phase, stages), RowsUnder(phase, stages, ledger);
    UnitsAreDistinct(phase, stages);
    forall row | row in rows
      ensures OwnerOf(row) in units
    {
      UnitsAreHome(phase, stages, row.owner);
    }
    forall u | u in units
      ensures With(OwnerOf, u, rows) == With(OwnerOf, u, ledger)
    {
      UnitsAreHome(phase, stages, u);
      OwnRowsAreUnder(u, phase, stages, ledger);
    }
    SharesAddUp(prices, OwnerOf, units, rows);
    SharesAgree(prices, OwnerOf, units, rows, ledger);
  }

  // ---------------------------------------------------------------- the plan page

  method PhaseParts(costs: map<UnitKey, Summary>, phase: string, own: seq<Stage>) returns (parts: seq<Summary>)
    ensures |parts| == |own| + 1 && parts[0] == Cost(costs, UnitKey(PhaseLevel, phase))
    ensures forall k :: 0 <= k < |own| ==> parts[k + 1] == Cost(costs, StageKey(own[k]))
  {
    parts := [Cost(costs, UnitKey(PhaseLevel, phase))];
    for j := 0 to |own|
      invariant |parts| == j + 1 && parts[0] == Cost(costs, UnitKey(PhaseLevel, phase))
      invariant forall k :: 0 <= k < j ==> parts[k + 1] == Cost(costs, StageKey(own[k]))
    {
      parts := parts + [Cost(costs, StageKey(own[j]))];
    }
  }

  method PhaseTotal(prices: Prices, costs: map<UnitKey, Summary>, phase: string, stages: seq<Stage>,
                    ghost ledger: seq<Row>)
    returns (total: Summary)
    requires CostsFit(prices, costs, ledger) && UniqueIds(stages)
    ensures total == OfRows(prices, RowsUnder(phase, stages, ledger))
  {
    var parts := PhaseParts(costs, phase, StagesOf(phase, stages));
    total := CombineSummaries(parts);
    PartsAreShares(prices, costs, phase, stages, ledger, parts);
    PhaseIsItsRows(prices, phase, stages, ledger);
  }

  // One total per phase: its own bucket and those of its stages.
  method PlanTotals(prices: Prices, groups: seq<Group>, phases: seq<string>, stages: seq<Stage>,
                    ghost ledger: seq<Row>)
    returns (totals: seq<Summary>)
    requires IsGroupBy(groups, ledger) && UniqueIds(stages)
    ensures totals == PhaseTotals(prices, phases, stages, ledger)
  {
    var costs := CostBuckets(prices, groups);
    BucketsFit(prices, costs, groups, ledger);
    totals := [];
    for i := 0 to |phases|
      invariant totals == PhaseTotals(prices, phases[..i], stages, ledger)
    {
      assert phases[..i + 1][..i] == phases[..i];
      var total := PhaseTotal(prices, costs, phases[i], stages, ledger);
      totals := totals + [total];
    }
    assert phases[..|phases|] == phases;
  }

  lemma {:induction false} BucketsFit(prices: Prices, costs: map<UnitKey, Summary>, groups: seq<Group>,
                                      ledger: seq<Row>)
    requires IsGroupBy(groups, ledger)
    requires forall u :: Cost(costs, u) == OfGroups(prices, GroupsOf(u, groups))
    ensures CostsFit(prices, costs, ledger)
  {
    forall u
      ensures Cost(costs, u) == OfRows(prices, RowsOf(u, ledger))
    {
      BucketIsExact(prices, u, groups, ledger);
    }
  }

  ghost predicate CostsFit(prices: Prices, costs: map<UnitKey, Summary>, ledger: seq<Row>) {
    forall u :: Cost(costs, u) == OfRows(prices, RowsOf(u, ledger))
  }

  lemma {:induction false} PartsAreShares(prices: Prices, costs: map<UnitKey, Summary>, phase: string,
                                          stages: seq<Stage>, ledger: seq<Row>, parts: seq<Summary>)
    requires CostsFit(prices, costs, ledger)
    requires |parts| == |StagesOf(phase, stages)| + 1 && parts[0] == Cost(costs, UnitKey(PhaseLevel, phase))
    requires forall k :: 0 <= k < |StagesOf(phase, stages)| ==>
            parts[k + 1] == Cost(costs, StageKey(StagesOf(phase, stages)[k]))
    ensures parts == Shares(prices, OwnerOf, Units(phase, stages), ledger)
  {
    var units := Units(phase, stages);
    forall i | 0 <= i < |parts|
      ensures parts[i] == Cost(costs, units[i])
    {
      if i == 0 {
        assert units[0] == UnitKey(PhaseLevel, phase);
      } else {
        assert units[i] == StageKey(StagesOf(phase, stages)[i - 1]);
        assert parts[(i - 1) + 1] == Cost(costs, StageKey(StagesOf(phase, stages)[i - 1]));
      }
    }
  }

  // ---------------------------------------------------------------- the cost tables

  datatype StageCosts = StageCosts(stage: string, rows: seq<Row>, total: Summary)
  datatype PhaseCosts = PhaseCosts(phase: string, rows: seq<Row>, stages: seq<StageCosts>, total: Summary)

  function Totals(listed: seq<StageCosts>): seq<Summary> {
    if listed == [] then [] else Totals(listed[..|listed| - 1]) + [listed[|listed| - 1].total]
  }

  function OwnersOf(groups: seq<Group>): set<UnitKey> {
    set g | g in groups :: g.key.owner
  }

  lemma {:induction false} OwnersHaveRows(owner: UnitKey, groups: seq<Group>, ledger: seq<Row>)
    requires IsGroupBy(groups, ledger)
    ensures owner in OwnersOf(groups) <==> RowsOf(owner, ledger) != []
  {
    if owner in OwnersOf(groups) {
      var g :| g in groups && g.key.owner == owner;
      var i :| 0 <= i < |groups| && groups[i] == g;
      assert Keys(groups)[i] == g.key;
      assert g.key in Keys(groups);
      var row :| row in ledger && GroupOf(row) == g.key;
      assert row in RowsOf(owner, ledger);
    }
    if RowsOf(owner, ledger) != [] {
      var row := RowsOf(owner, ledger)[0];
      assert row in RowsOf(owner, ledger);
      assert GroupOf(row) in Keys(groups);
      var i :| 0 <= i < |groups| && Keys(groups)[i] == GroupOf(row);
      assert groups[i] in groups;
    }
  }

  // The tables list stages with rows, each total over its rows.
  ghost predicate TablesFit(prices: Prices, listed: seq<StageCosts>, ledger: seq<Row>) {
    && (forall t :: t in listed ==>
          t.rows == RowsOf(UnitKey(StageLevel, t.stage), ledger) && t.rows != [] && t.total == OfRows(prices, t.rows))
    && (listed == [] <==> CombineAll(Totals(listed)) == NoCost)
  }

  function StageNames(listed: seq<StageCosts>): seq<string> {
    if listed == [] then [] else StageNames(listed[..|listed| - 1]) + [listed[|listed| - 1].stage]
  }

  // The stages with ledger rows, in order.
  function WithRows(own: seq<Stage>, ledger: seq<Row>): seq<string> {
    if own == [] then []
    else
      var init, last := WithRows(own[..|own| - 1], ledger), own[|own| - 1];
      if RowsOf(StageKey(last), ledger) == [] then init else init + [last.id]
  }

  lemma {:induction false} OneMoreTotal(listed: seq<StageCosts>, next: StageCosts)
    ensures CombineAll(Totals(listed + [next])) == Combine(CombineAll(Totals(listed)), next.total)
    ensures StageNames(listed + [next]) == StageNames(listed) + [next.stage]
  {
    assert (listed + [next])[..|listed|] == listed;
    var totals := Totals(listed);
    assert (totals + [next.total])[..|totals|] == totals;
  }

  lemma {:induction false} OneMoreTable(prices: Prices, listed: seq<StageCosts>, next: StageCosts, ledger: seq<Row>)
    requires TablesFit(prices, listed, ledger)
    requires next.rows == RowsOf(UnitKey(StageLevel, next.stage), ledger) && next.rows != []
            && next.total == OfRows(prices, next.rows)
    ensures TablesFit(prices, listed + [next], ledger)
    ensures CombineAll(Totals(listed + [next])) == Combine(CombineAll(Totals(listed)), next.total)
    ensures StageNames(listed + [next]) == StageNames(listed) + [next.stage]
  {
    OneMoreTotal(listed, next);
    RowsShow(prices, next.rows);
    CombineIsMonoid(CombineAll(Totals(listed)), next.total, NoCost);
  }

  ghost predicate OwnersFit(owners: set<UnitKey>, ledger: seq<Row>) {
    forall u :: u in owners <==> RowsOf(u, ledger) != []
  }

  lemma {:induction false} OwnersAreExact(groups: seq<Group>, ledger: seq<Row>)
    requires IsGroupBy(groups, ledger)
    ensures OwnersFit(OwnersOf(groups), ledger)
  {
    forall u
      ensures u in OwnersOf(groups) <==> RowsOf(u, ledger) != []
    {
      OwnersHaveRows(u, groups, ledger);
    }
  }

  // The stages of one phase that have rows, with their totals; the others add nothing.
  method StageTables(prices: Prices, ledger: seq<Row>, owners: set<UnitKey>, own: seq<Stage>)
    returns (listed: seq<StageCosts>)
    requires OwnersFit(owners, ledger)
    ensures CombineAll(Totals(listed)) == StagesSum(prices, own, ledger) && TablesFit(prices, listed, ledger)
    ensures StageNames(listed) == WithRows(own, ledger)
  {
    listed := [];
    for i := 0 to |own|
      invariant CombineAll(Totals(listed)) == StagesSum(prices, own[..i], ledger) && TablesFit(prices, listed, ledger)
      invariant StageNames(listed) == WithRows(own[..i], ledger)
    {
      OneMoreStage(prices, own, i, ledger);
      if StageKey(own[i]) !in owners {
        CombineIsMonoid(CombineAll(Totals(listed)), NoCost, NoCost);
        continue;
      }
      var rows := RowsOf(StageKey(own[i]), ledger);
      var total := SummaryFromRows(prices, rows);
      OneMoreTable(prices, listed, StageCosts(own[i].id, rows, total), ledger);
      listed := listed + [StageCosts(own[i].id, rows, total)];
    }
    assert own[..|own|] == own;
  }

  function StagesSum(prices: Prices, own: seq<Stage>, ledger: seq<Row>): Summary {
    if own == [] then NoCost
    else Combine(StagesSum(prices, own[..|own| - 1], ledger), OfRows(prices, RowsOf(StageKey(own[|own| - 1]), ledger)))
  }

  lemma {:induction false} StagesSumIsShares(prices: Prices, own: seq<Stage>, ledger: seq<Row>)
    ensures StagesSum(prices, own, ledger) == CombineAll(Shares(prices, OwnerOf, StageKeys(own), ledger))
  {
    if own != [] {
      StagesSumIsShares(prices, own[..|own| - 1], ledger);
      var keys := StageKeys(own);
      assert keys[..|keys| - 1] == StageKeys(own[..|own| - 1]);
      assert Shares(prices, OwnerOf, keys, ledger)[..|keys| - 1] == Shares(prices, OwnerOf, keys[..|keys| - 1], ledger);
    }
  }

  lemma {:induction false} OneMoreStage(prices: Prices, own: seq<Stage>, i: nat, ledger: seq<Row>)
    requires i < |own|
    ensures StagesSum(prices, own[..i + 1], ledger)
         == Combine(StagesSum(prices, own[..i], ledger), OfRows(prices, RowsOf(StageKey(own[i]), ledger)))
    ensures WithRows(own[..i + 1], ledger)
         == WithRows(own[..i], ledger) + if RowsOf(StageKey(own[i]), ledger) == [] then [] else [own[i].id]
  {
    assert own[..i + 1][..i] == own[..i];
  }

  // The phases with rows, in the order given, each with the total over its rows.
  function Listed(phases: seq<string>, stages: seq<Stage>, ledger: seq<Row>): seq<string> {
    if phases == [] then []
    else
      var init, last := Listed(phases[..|phases| - 1], stages, ledger), phases[|phases| - 1];
      if RowsUnder(last, stages, ledger) == [] then init else init + [last]
  }

  lemma {:induction false} ListedExactly(phases: seq<string>, stages: seq<Stage>, ledger: seq<Row>, phase: string)
    requires UniqueIds(stages)
    ensures phase in Listed(phases, stages, ledger) <==>
              && phase in phases
              && exists row :: row in ledger
                   && (row.owner == UnitKey(PhaseLevel, phase)
                       || (row.owner.level == StageLevel && Stage(row.owner.unit, phase) in stages))
  {
    forall row {
      RowsUnderExactly(phase, stages, ledger, row);
    }
    SomeRowOrNone(RowsUnder(phase, stages, ledger));
    ListedHaveRows(phases, stages, ledger, phase);
  }

  lemma {:induction false} ListedHaveRows(phases: seq<string>, stages: seq<Stage>, ledger: seq<Row>, phase: string)
    ensures phase in Listed(phases, stages, ledger) <==> phase in phases && RowsUnder(phase, stages, ledger) != []
  {
    if phases != [] {
      var init, last := phases[..|phases| - 1], phases[|phases| - 1];
      assert phases == init + [last];
      ListedHaveRows(init, stages, ledger, phase);
    }
  }

  function Names(tables: seq<PhaseCosts>): seq<string> {
    if tables == [] then [] else Names(tables[..|tables| - 1]) + [tables[|tables| - 1].phase]
  }

  // One phase's table: its own rows, its stages with rows, and the total over all of them.
  ghost predicate TableFits(prices: Prices, stages: seq<Stage>, ledger: seq<Row>, t: PhaseCosts) {
    && t.rows == RowsOf(UnitKey(PhaseLevel, t.phase), ledger)
    && StageNames(t.stages) == WithRows(StagesOf(t.phase, stages), ledger) && TablesFit(prices, t.stages, ledger)
    && t.total == OfRows(prices, RowsUnder(t.phase, stages, ledger))
  }

  method OneTable(prices: Prices, ledger: seq<Row>, owners: set<UnitKey>, phase: string, stages: seq<Stage>)
    returns (t: PhaseCosts)
    requires OwnersFit(owners, ledger) && UniqueIds(stages)
    ensures t.phase == phase && TableFits(prices, stages, ledger, t)
    ensures t.rows == [] && t.stages == [] <==> RowsUnder(phase, stages, ledger) == []
  {
    var u := UnitKey(PhaseLevel, phase);
    var phaseRows := if u in owners then RowsOf(u, ledger) else [];
    var listed := StageTables(prices, ledger, owners, StagesOf(phase, stages));
    var own := SummaryFromRows(prices, phaseRows);
    var total := CombineSummaries([own] + Totals(listed));
    TableIsItsRows(prices, ledger, phase, stages, own, listed);
    RowsShow(prices, phaseRows);
    RowsShow(prices, RowsUnder(phase, stages, ledger));
    t := PhaseCosts(phase, phaseRows, listed, total);
  }

  method CostTables(prices: Prices, ledger: seq<Row>, groups: seq<Group>, phases: seq<string>, stages: seq<Stage>)
    returns (tables: seq<PhaseCosts>)
    requires IsGroupBy(groups, ledger) && UniqueIds(stages)
    ensures Names(tables) == Listed(phases, stages, ledger)
    ensures forall t :: t in tables ==> TableFits(prices, stages, ledger, t)
  {
    OwnersAreExact(groups, ledger);
    tables := ListTables(prices, ledger, OwnersOf(groups), phases, stages);
  }

  method ListTables(prices: Prices, ledger: seq<Row>, owners: set<UnitKey>, phases: seq<string>, stages: seq<Stage>)
    returns (tables: seq<PhaseCosts>)
    requires OwnersFit(owners, ledger) && UniqueIds(stages)
    ensures Names(tables) == Listed(phases, stages, ledger)
    ensures forall t :: t in tables ==> TableFits(prices, stages, ledger, t)
  {
    tables := [];
    for i := 0 to |phases|
      invariant Names(tables) == Listed(phases[..i], stages, ledger)
      invariant forall t :: t in tables ==> TableFits(prices, stages, ledger, t)
    {
      assert phases[..i + 1][..i] == phases[..i];
      var table := OneTable(prices, ledger, owners, phases[i], stages);
      if table.rows == [] && table.stages == [] {
        continue;
      }
      assert (tables + [table])[..|tables|] == tables;
      tables := tables + [table];
    }
    assert phases[..|phases|] == phases;
  }

  lemma {:induction false} SharesSplit(prices: Prices, first: UnitKey, rest: seq<UnitKey>, ledger: seq<Row>)
    ensures Shares(prices, OwnerOf, [first] + rest, ledger)
         == [OfRows(prices, RowsOf(first, ledger))] + Shares(prices, OwnerOf, rest, ledger)
  {
  }

  lemma {:induction false} OneAndTheRest(own: Summary, rest: seq<Summary>)
    ensures CombineAll([own] + rest) == Combine(own, CombineAll(rest))
    ensures CombineAll([own] + rest) == NoCost <==> own == NoCost && CombineAll(rest) == NoCost
  {
    CombineAllConcat([own], rest);
    assert [own][..0] == [];
    CombineIsMonoid(own, CombineAll(rest), NoCost);
  }

  lemma {:induction false} TableIsItsRows(prices: Prices, ledger: seq<Row>, phase: string, stages: seq<Stage>,
                                          own: Summary, listed: seq<StageCosts>)
    requires UniqueIds(stages) && own == OfRows(prices, RowsOf(UnitKey(PhaseLevel, phase), ledger))
    requires CombineAll(Totals(listed)) == StagesSum(prices, StagesOf(phase, stages), ledger)
    ensures CombineAll([own] + Totals(listed)) == OfRows(prices, RowsUnder(phase, stages, ledger))
    ensures CombineAll([own] + Totals(listed)) == NoCost <==> own == NoCost && CombineAll(Totals(listed)) == NoCost
  {
    var keys := StageKeys(StagesOf(phase, stages));
    PhaseIsItsRows(prices, phase, stages, ledger);
    StagesSumIsShares(prices, StagesOf(phase, stages), ledger);
    SharesSplit(prices, UnitKey(PhaseLevel, phase), keys, ledger);
    OneAndTheRest(own, Shares(prices, OwnerOf, keys, ledger));
    OneAndTheRest(own, Totals(listed));
  }

  // ---------------------------------------------------------------- the factory

  function ValuesOf(costs: map<UnitKey, Summary>, units: seq<UnitKey>): (r: seq<Summary>)
    ensures |r| == |units| && forall i :: 0 <= i < |r| ==> r[i] == Cost(costs, units[i])
  {
    if units == [] then [] else ValuesOf(costs, units[..|units| - 1]) + [Cost(costs, units[|units| - 1])]
  }

  // The factory's total, over the buckets in any order, is the sum over the whole ledger.
  lemma {:induction false} FactoryIsItsRows(prices: Prices, costs: map<UnitKey, Summary>, units: seq<UnitKey>,
                                            ledger: seq<Row>)
    requires CostsFit(prices, costs, ledger)
    requires Distinct(units) && forall u :: u in units <==> u in costs
    requires forall row :: row in ledger ==> row.owner in costs
    ensures CombineAll(ValuesOf(costs, units)) == OfRows(prices, ledger)
  {
    forall row | row in ledger
      ensures OwnerOf(row) in units
    {
      assert row.owner in costs;
    }
    SharesAddUp(prices, OwnerOf, units, ledger);
    ValuesAreShares(prices, costs, units, ledger);
  }

  lemma {:induction false} ValuesAreShares(prices: Prices, costs: map<UnitKey, Summary>, units: seq<UnitKey>,
                                           ledger: seq<Row>)
    requires CostsFit(prices, costs, ledger)
    ensures ValuesOf(costs, units) == Shares(prices, OwnerOf, units, ledger)
  {
    if units != [] {
      ValuesAreShares(prices, costs, units[..|units| - 1], ledger);
    }
  }

  // The rows recorded at the cut or later: what the query with `since` reads.
  function IsSince(cut: int): Row -> bool {
    (row: Row) => row.at >= cut
  }

  // Today's total is the sum over today's rows, and with the total over the earlier ones it makes up the
  // factory's, wherever the cut lies.
  lemma {:induction false} TodayIsItsRows(prices: Prices, today: seq<Group>, earlier: seq<Group>, ledger: seq<Row>,
                                          cut: int)
    requires IsGroupBy(today, With(IsSince(cut), true, ledger))
    requires IsGroupBy(earlier, Without(IsSince(cut), true, ledger))
    ensures OfGroups(prices, today) == OfRows(prices, With(IsSince(cut), true, ledger))
    ensures forall row :: row in With(IsSince(cut), true, ledger) <==> row in ledger && row.at >= cut
    ensures Combine(OfGroups(prices, today), OfGroups(prices, earlier)) == OfRows(prices, ledger)
  {
    GroupingIsExact(prices, today, With(IsSince(cut), true, ledger));
    GroupingIsExact(prices, earlier, Without(IsSince(cut), true, ledger));
    SplitByKey(prices, IsSince(cut), true, ledger);
  }

  function PhaseTotals(prices: Prices, phases: seq<string>, stages: seq<Stage>, ledger: seq<Row>): (r: seq<Summary>)
    ensures |r| == |phases| && forall i :: 0 <= i < |r| ==> r[i] == OfRows(prices, RowsUnder(phases[i], stages, ledger))
  {
    if phases == [] then []
    else
      PhaseTotals(prices, phases[..|phases| - 1], stages, ledger)
      + [OfRows(prices, RowsUnder(phases[|phases| - 1], stages, ledger))]
  }

  function SomeAll(names: seq<string>): (r: seq<Option<string>>)
    ensures |r| == |names| && forall i :: 0 <= i < |r| ==> r[i] == Some(names[i])
  {
    if names == [] then [] else SomeAll(names[..|names| - 1]) + [Some(names[|names| - 1])]
  }

  predicate IsListed(row: Row, phases: seq<string>, stages: seq<Stage>) {
    var home := HomeOf(row.owner, stages);
    home.Some? && home.value in phases
  }

  lemma {:induction false} ListedRowsHaveKeys(row: Row, phases: seq<string>, stages: seq<Stage>)
    requires IsListed(row, phases, stages)
    ensures HomeOf(row.owner, stages) in SomeAll(phases)
  {
    var i :| 0 <= i < |phases| && phases[i] == HomeOf(row.owner, stages).value;
    assert SomeAll(phases)[i] == Some(phases[i]);
  }

  // When every ledger row belongs to a listed phase, the phase totals add up to the factory's.
  lemma {:induction false} PhasesAddUp(prices: Prices, phases: seq<string>, stages: seq<Stage>, ledger: seq<Row>)
    requires Distinct(phases)
    requires forall row :: row in ledger ==> IsListed(row, phases, stages)
    ensures CombineAll(PhaseTotals(prices, phases, stages, ledger)) == OfRows(prices, ledger)
  {
    var keys := SomeAll(phases);
    forall row | row in ledger
      ensures Home(stages)(row) in keys
    {
      ListedRowsHaveKeys(row, phases, stages);
    }
    SharesAddUp(prices, Home(stages), keys, ledger);
    assert PhaseTotals(prices, phases, stages, ledger) == Shares(prices, Home(stages), keys, ledger);
  }
}
