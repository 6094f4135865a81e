// Cost totals over the token ledger: grouped by the database, or summed row by row.
module Costs {
  import opened Options
  import opened UnitStates

  datatype Price = Price(input: real, output: real)
  type Prices = map<string, Price>

  datatype UnitKey = UnitKey(level: Level, unit: string)
  datatype GroupKey = GroupKey(owner: UnitKey, model: string)

  datatype Row = Row(
    owner: UnitKey,
    model: string,
    tokensIn: Option<int>,
    tokensOut: Option<int>,
    cost: Option<real>,
    at: int
  )

  datatype Summary = Summary(exact: Option<real>, est: Option<real>, missing: bool)

  const NoCost := Summary(None, None, false)

  function OrZero(n: Option<int>): int {
    match n case None => 0 case Some(v) => v
  }

  function Plus(a: Option<real>, b: Option<real>): Option<real> {
    if b.None? then a else Some((if a.None? then 0.0 else a.value) + b.value)
  }

  // ---------------------------------------------------------------- summaries are a commutative monoid

  function Combine(a: Summary, b: Summary): Summary {
    Summary(Plus(a.exact, b.exact), Plus(a.est, b.est), a.missing || b.missing)
  }

  lemma {:induction false} CombineIsMonoid(a: Summary, b: Summary, c: Summary)
    ensures Combine(a, NoCost) == a && Combine(NoCost, a) == a
    ensures Combine(a, b) == Combine(b, a)
    ensures Combine(Combine(a, b), c) == Combine(a, Combine(b, c))
    ensures Combine(a, b) == NoCost <==> a == NoCost && b == NoCost
  {
    assert (OrNought(a.exact) + OrNought(b.exact)) + OrNought(c.exact)
        == OrNought(a.exact) + (OrNought(b.exact) + OrNought(c.exact));
  }

  function OrNought(x: Option<real>): real {
    match x case None => 0.0 case Some(v) => v
  }

  function CombineAll(parts: seq<Summary>): Summary {
    if parts == [] then NoCost else Combine(CombineAll(parts[..|parts| - 1]), parts[|parts| - 1])
  }

  method CombineSummaries(parts: seq<Summary>) returns (total: Summary)
    ensures total == CombineAll(parts)
  {
    var exact, est, missing := None, None, false;
    for i := 0 to |parts|
      invariant Summary(exact, est, missing) == CombineAll(parts[..i])
    {
      assert parts[..i + 1][..i] == parts[..i];
      var part := parts[i];
      if part.exact.Some? {
        exact := Some((if exact.None? then 0.0 else exact.value) + part.exact.value);
      }
      if part.est.Some? {
        est := Some((if est.None? then 0.0 else est.value) + part.est.value);
      }
      missing := missing || part.missing;
    }
    assert parts[..|parts|] == parts;
    total := Summary(exact, est, missing);
  }

  lemma {:induction false} CombineAllConcat(a: seq<Summary>, b: seq<Summary>)
    ensures CombineAll(a + b) == Combine(CombineAll(a), CombineAll(b))
  {
    if b == [] {
      assert a + b == a;
    } else {
      assert (a + b)[..|a + b| - 1] == a + b[..|b| - 1];
      CombineAllConcat(a, b[..|b| - 1]);
      CombineIsMonoid(CombineAll(a), CombineAll(b[..|b| - 1]), b[|b| - 1]);
    }
  }

  // ---------------------------------------------------------------- row by row

  // Tokens per million times the model's price; a model without a price has no estimate.
  function Estimate(prices: Prices, model: string, tokensIn: int, tokensOut: int): Option<real> {
    if model !in prices then None
    else Some(Charge(tokensIn, prices[model].input) + Charge(tokensOut, prices[model].output))
  }

  function Charge(tokens: int, price: real): real {
    tokens as real / 1000000.0 * price
  }

  // A reported cost counts as it is; otherwise the estimate, or the missing-price mark.
  function OfRow(prices: Prices, row: Row): Summary {
    if row.cost.Some? then Summary(row.cost, None, false)
    else
      var estimate := Estimate(prices, row.model, OrZero(row.tokensIn), OrZero(row.tokensOut));
      Summary(None, estimate, estimate.None?)
  }

  function OfRows(prices: Prices, rows: seq<Row>): Summary {
    if rows == [] then NoCost else Combine(OfRows(prices, rows[..|rows| - 1]), OfRow(prices, rows[|rows| - 1]))
  }

  method SummaryFromRows(prices: Prices, rows: seq<Row>) returns (total: Summary)
    ensures total == OfRows(prices, rows)
  {
    var exact, est, missing := None, None, false;
    for i := 0 to |rows|
      invariant Summary(exact, est, missing) == OfRows(prices, rows[..i])
    {
      assert rows[..i + 1][..i] == rows[..i];
      var row := rows[i];
      if row.cost.Some? {
        exact := Some((if exact.None? then 0.0 else exact.value) + row.cost.value);
        continue;
      }
      var estimate := Estimate(prices, row.model, OrZero(row.tokensIn), OrZero(row.tokensOut));
      if estimate.None? {
        missing := true;
      } else {
        est := Some((if est.None? then 0.0 else est.value) + estimate.value);
      }
    }
    assert rows[..|rows|] == rows;
    total := Summary(exact, est, missing);
  }

  // The price of a million tokens each way, in proportion.
  lemma {:induction false} EstimateIsPerMillion(prices: Prices, model: string, tokensIn: int, tokensOut: int)
    ensures Estimate(prices, model, tokensIn, tokensOut).Some? <==> model in prices
    ensures model in prices ==>
              Estimate(prices, model, tokensIn, tokensOut).value
              == (tokensIn as real * prices[model].input + tokensOut as real * prices[model].output) / 1000000.0
    ensures model in prices ==> Estimate(prices, model, 1000000, 0) == Some(prices[model].input)
    ensures model in prices ==> Estimate(prices, model, 0, 1000000) == Some(prices[model].output)
  {
    if model in prices {
      ChargeIsProportional(tokensIn, prices[model].input);
      ChargeIsProportional(tokensOut, prices[model].output);
    }
  }

  lemma {:induction false} ChargeIsProportional(tokens: int, price: real)
    ensures Charge(tokens, price) == tokens as real * price / 1000000.0
  {
  }

  // The reported costs, and what the price list asks for the tokens of the unreported rows.
  function ReportedTotal(rows: seq<Row>): real {
    if rows == [] then 0.0 else ReportedTotal(rows[..|rows| - 1]) + OrNought(rows[|rows| - 1].cost)
  }

  function PricedTotal(prices: Prices, rows: seq<Row>): real {
    if rows == [] then 0.0
    else
      var row := rows[|rows| - 1];
      PricedTotal(prices, rows[..|rows| - 1])
      + if row.cost.Some? || row.model !in prices then 0.0
        else (OrZero(row.tokensIn) as real * prices[row.model].input
              + OrZero(row.tokensOut) as real * prices[row.model].output) / 1000000.0
  }

  // What the columns of a summary say of its rows. A column is empty when no row feeds it.
  lemma {:induction false} ExactIsReported(prices: Prices, rows: seq<Row>)
    ensures OfRows(prices, rows).exact.Some? <==> exists row :: row in rows && row.cost.Some?
    ensures OrNought(OfRows(prices, rows).exact) == ReportedTotal(rows)
  {
    if rows != [] {
      var init, last := rows[..|rows| - 1], rows[|rows| - 1];
      assert rows == init + [last];
      ExactIsReported(prices, init);
      assert OfRow(prices, last).exact == last.cost;
      assert OfRows(prices, rows).exact == Plus(OfRows(prices, init).exact, last.cost);
    }
  }

  predicate Priced(prices: Prices, row: Row) {
    row.cost.None? && row.model in prices
  }

  predicate Unpriced(prices: Prices, row: Row) {
    row.cost.None? && row.model !in prices
  }

  lemma {:induction false} RowsEstimate(prices: Prices, row: Row)
    ensures OfRow(prices, row).est.Some? <==> Priced(prices, row)
    ensures OfRow(prices, row).missing <==> Unpriced(prices, row)
    ensures OrNought(OfRow(prices, row).est) == PricedTotal(prices, [row])
  {
    EstimateIsPerMillion(prices, row.model, OrZero(row.tokensIn), OrZero(row.tokensOut));
    assert [row][..0] == [];
  }

  lemma {:induction false} EstimateIsPriced(prices: Prices, rows: seq<Row>)
    ensures OfRows(prices, rows).est.Some? <==> exists row :: row in rows && Priced(prices, row)
    ensures OrNought(OfRows(prices, rows).est) == PricedTotal(prices, rows)
  {
    if rows != [] {
      var init, last := rows[..|rows| - 1], rows[|rows| - 1];
      assert rows == init + [last];
      EstimateIsPriced(prices, init);
      RowsEstimate(prices, last);
      assert [last][..0] == [];
      assert PricedTotal(prices, rows) == PricedTotal(prices, init) + PricedTotal(prices, [last]);
      assert OfRows(prices, rows).est == Plus(OfRows(prices, init).est, OfRow(prices, last).est);
    }
  }

  lemma {:induction false} MissingIsUnpriced(prices: Prices, rows: seq<Row>)
    ensures OfRows(prices, rows).missing <==> exists row :: row in rows && Unpriced(prices, row)
  {
    if rows != [] {
      var init, last := rows[..|rows| - 1], rows[|rows| - 1];
      assert rows == init + [last];
      MissingIsUnpriced(prices, init);
      RowsEstimate(prices, last);
      assert OfRows(prices, rows).missing == (OfRows(prices, init).missing || OfRow(prices, last).missing);
    }
  }

  // Together: the sum of what was reported, the sum of what the price list asks for the rest, and a mark
  // when some row without a reported cost has a model without a price.
  lemma {:induction false} WhatASummarySays(prices: Prices, rows: seq<Row>)
    ensures var t := OfRows(prices, rows);
            && t.exact == (if exists row :: row in rows && row.cost.Some? then Some(ReportedTotal(rows)) else None)
            && t.est == (if exists row :: row in rows && row.cost.None? && row.model in prices
                         then Some(PricedTotal(prices, rows)) else None)
            && (t.missing <==> exists row :: row in rows && row.cost.None? && row.model !in prices)
  {
    ExactIsReported(prices, rows);
    EstimateIsPriced(prices, rows);
    MissingIsUnpriced(prices, rows);
    assert forall row :: Priced(prices, row) <==> row.cost.None? && row.model in prices;
    assert forall row :: Unpriced(prices, row) <==> row.cost.None? && row.model !in prices;
  }

  // Every row shows: no row's share is the empty summary.
  lemma {:induction false} RowsShow(prices: Prices, rows: seq<Row>)
    ensures OfRows(prices, rows) == NoCost <==> rows == []
  {
    if rows != [] {
      assert OfRow(prices, rows[|rows| - 1]) != NoCost;
      CombineIsMonoid(OfRows(prices, rows[..|rows| - 1]), OfRow(prices, rows[|rows| - 1]), NoCost);
    }
  }

  // ---------------------------------------------------------------- rows sharing a key

  function GroupOf(row: Row): GroupKey {
    GroupKey(row.owner, row.model)
  }

  function OwnerOf(row: Row): UnitKey {
    row.owner
  }

  function With<K(==)>(key: Row -> K, k: K, rows: seq<Row>): (r: seq<Row>)
    ensures forall row :: row in r <==> row in rows && key(row) == k
  {
    if rows == [] then []
    else
      var init, last := With(key, k, rows[..|rows| - 1]), rows[|rows| - 1];
      assert rows == rows[..|rows| - 1] + [last];
      if key(last) == k then init + [last] else init
  }

  function Without<K(==)>(key: Row -> K, k: K, rows: seq<Row>): (r: seq<Row>)
    ensures forall row :: row in r <==> row in rows && key(row) != k
  {
    if rows == [] then []
    else
      var init, last := Without(key, k, rows[..|rows| - 1]), rows[|rows| - 1];
      assert rows == rows[..|rows| - 1] + [last];
      if key(last) != k then init + [last] else init
  }

  lemma {:induction false} SplitByKey<K>(prices: Prices, key: Row -> K, k: K, rows: seq<Row>)
    ensures OfRows(prices, rows) == Combine(OfRows(prices, With(key, k, rows)), OfRows(prices, Without(key, k, rows)))
  {
    if rows != [] {
      var init, last := rows[..|rows| - 1], rows[|rows| - 1];
      SplitByKey(prices, key, k, init);
      var here, there := OfRows(prices, With(key, k, init)), OfRows(prices, Without(key, k, init));
      var share := OfRow(prices, last);
      CombineIsMonoid(here, there, share);
      CombineIsMonoid(here, share, there);
      CombineIsMonoid(there, share, here);
      assert (With(key, k, init) + [last])[..|With(key, k, init)|] == With(key, k, init);
      assert (Without(key, k, init) + [last])[..|Without(key, k, init)|] == Without(key, k, init);
    }
  }

  lemma {:induction false} OtherKeyStays<K>(key: Row -> K, k: K, other: K, rows: seq<Row>)
    requires k != other
    ensures With(key, k, Without(key, other, rows)) == With(key, k, rows)
  {
    if rows != [] {
      var init, last := rows[..|rows| - 1], rows[|rows| - 1];
      OtherKeyStays(key, k, other, init);
      var rest := Without(key, other, init);
      assert (rest + [last])[..|rest|] == rest;
    }
  }

  predicate Distinct<K(==)>(keys: seq<K>) {
    forall i, j :: 0 <= i < j < |keys| ==> keys[i] != keys[j]
  }

  lemma {:induction false} SomeRowOrNone(rows: seq<Row>)
    ensures rows == [] || exists row :: row in rows
  {
    if rows != [] {
      assert rows[0] in rows;
    }
  }

  function Shares<K(==)>(prices: Prices, key: Row -> K, keys: seq<K>, rows: seq<Row>): (r: seq<Summary>)
    ensures |r| == |keys| && forall i :: 0 <= i < |r| ==> r[i] == OfRows(prices, With(key, keys[i], rows))
  {
    if keys == [] then []
    else Shares(prices, key, keys[..|keys| - 1], rows) + [OfRows(prices, With(key, keys[|keys| - 1], rows))]
  }

  lemma {:induction false} OtherSharesStay<K>(prices: Prices, key: Row -> K, keys: seq<K>, other: K, rows: seq<Row>)
    requires forall i :: 0 <= i < |keys| ==> keys[i] != other
    ensures Shares(prices, key, keys, Without(key, other, rows)) == Shares(prices, key, keys, rows)
  {
    forall i | 0 <= i < |keys|
      ensures Shares(prices, key, keys, rows)[i] == Shares(prices, key, keys, Without(key, other, rows))[i]
    {
      OtherKeyStays(key, keys[i], other, rows);
    }
  }

  // Any enumeration of the keys, in any order: the shares add up to the whole.
  lemma {:induction false} SharesAddUp<K>(prices: Prices, key: Row -> K, keys: seq<K>, rows: seq<Row>)
    requires Distinct(keys) && forall row :: row in rows ==> key(row) in keys
    ensures CombineAll(Shares(prices, key, keys, rows)) == OfRows(prices, rows)
  {
    if keys == [] {
      SomeRowOrNone(rows);
    } else {
      var init, last := keys[..|keys| - 1], keys[|keys| - 1];
      var rest := Without(key, last, rows);
      forall row | row in rest
        ensures key(row) in init
      {
        assert keys == init + [last];
      }
      SharesAddUp(prices, key, init, rest);
      SplitByKey(prices, key, last, rows);
      OtherSharesStay(prices, key, init, last, rows);
      assert Shares(prices, key, keys, rows)[..|init|] == Shares(prices, key, init, rows);
      CombineIsMonoid(OfRows(prices, rest), OfRows(prices, With(key, last, rows)), NoCost);
    }
  }

  // ---------------------------------------------------------------- grouped by the database

  datatype Group = Group(key: GroupKey, exact: Option<real>, estIn: int, estOut: int, nullRows: nat)

  // The aggregate columns over the rows of one group.
  function Aggregate(key: GroupKey, rows: seq<Row>): Group {
    if rows == [] then Group(key, None, 0, 0, 0)
    else
      var init, last := Aggregate(key, rows[..|rows| - 1]), rows[|rows| - 1];
      if last.cost.Some? then init.(exact := Plus(init.exact, last.cost))
      else
        init.(estIn := init.estIn + OrZero(last.tokensIn),
              estOut := init.estOut + OrZero(last.tokensOut),
              nullRows := init.nullRows + 1)
  }

  function OfGroup(prices: Prices, g: Group): Summary {
    if g.nullRows == 0 then Summary(g.exact, None, false)
    else
      var estimate := Estimate(prices, g.key.model, g.estIn, g.estOut);
      Summary(g.exact, estimate, estimate.None?)
  }

  function OfGroups(prices: Prices, groups: seq<Group>): Summary {
    if groups == [] then NoCost
        else Combine(OfGroups(prices, groups[..|groups| - 1]), OfGroup(prices, groups[|groups| - 1]))
  }

  method SummaryFromGroups(prices: Prices, groups: seq<Group>) returns (total: Summary)
    ensures total == OfGroups(prices, groups)
  {
    var exact, est, missing := None, None, false;
    for i := 0 to |groups|
      invariant Summary(exact, est, missing) == OfGroups(prices, groups[..i])
    {
      assert groups[..i + 1][..i] == groups[..i];
      var group := groups[i];
      if group.exact.Some? {
        exact := Some((if exact.None? then 0.0 else exact.value) + group.exact.value);
      }
      if group.nullRows != 0 {
        var estimate := Estimate(prices, group.key.model, group.estIn, group.estOut);
        if estimate.None? {
          missing := true;
        } else {
          est := Some((if est.None? then 0.0 else est.value) + estimate.value);
        }
      }
    }
    assert groups[..|groups|] == groups;
    total := Summary(exact, est, missing);
  }

  lemma {:induction false} EstimateIsLinear(prices: Prices, model: string, in1: int, out1: int, in2: int, out2: int)
    ensures Plus(Estimate(prices, model, in1, out1), Estimate(prices, model, in2, out2))
         == Estimate(prices, model, in1 + in2, out1 + out2)
    ensures model in prices ==> Estimate(prices, model, 0, 0) == Some(0.0)
  {
    if model in prices {
      Distributes(in1, in2, prices[model].input);
      Distributes(out1, out2, prices[model].output);
    }
  }

  lemma {:induction false} Distributes(m: int, n: int, price: real)
    ensures Charge(m, price) + Charge(n, price) == Charge(m + n, price)
    ensures Charge(0, price) == 0.0
  {
    var x, y := m as real / 1000000.0, n as real / 1000000.0;
    assert (m + n) as real / 1000000.0 == x + y;
    assert (x + y) * price == x * price + y * price;
  }

  lemma {:induction false} EmptyAggregate(key: GroupKey, rows: seq<Row>)
    ensures Aggregate(key, rows).key == key
    ensures Aggregate(key, rows).nullRows == 0 ==> Aggregate(key, rows).estIn == 0 && Aggregate(key, rows).estOut == 0
  {
    if rows != [] {
      EmptyAggregate(key, rows[..|rows| - 1]);
    }
  }

  // Estimating a group's token sums is estimating its rows.
  lemma {:induction false} GroupIsItsRows(prices: Prices, key: GroupKey, rows: seq<Row>)
    requires forall row :: row in rows ==> row.model == key.model
    ensures OfGroup(prices, Aggregate(key, rows)) == OfRows(prices, rows)
  {
    if rows != [] {
      var init, last := rows[..|rows| - 1], rows[|rows| - 1];
      assert last in rows;
      GroupIsItsRows(prices, key, init);
      EmptyAggregate(key, init);
      var g := Aggregate(key, init);
      EstimateIsLinear(prices, key.model, g.estIn, g.estOut, OrZero(last.tokensIn), OrZero(last.tokensOut));
    }
  }

  function Keys(groups: seq<Group>): (r: seq<GroupKey>)
    ensures |r| == |groups| && forall i :: 0 <= i < |r| ==> r[i] == groups[i].key
  {
    if groups == [] then [] else Keys(groups[..|groups| - 1]) + [groups[|groups| - 1].key]
  }

  // What GROUP BY promises: one aggregate per key that occurs, in no particular order.
  ghost predicate IsGroupBy(groups: seq<Group>, ledger: seq<Row>) {
    && Distinct(Keys(groups))
    && (forall k :: k in Keys(groups) <==> exists row :: row in ledger && GroupOf(row) == k)
    && (forall i :: 0 <= i < |groups| ==> groups[i] == Aggregate(groups[i].key, With(GroupOf, groups[i].key, ledger)))
  }

  lemma {:induction false} GroupsAreShares(prices: Prices, groups: seq<Group>, ledger: seq<Row>)
    requires forall i :: 0 <= i < |groups| ==>
            groups[i] == Aggregate(groups[i].key, With(GroupOf, groups[i].key, ledger))
    ensures OfGroups(prices, groups) == CombineAll(Shares(prices, GroupOf, Keys(groups), ledger))
  {
    if groups != [] {
      var init, last := groups[..|groups| - 1], groups[|groups| - 1];
      GroupsAreShares(prices, init, ledger);
      GroupIsItsRows(prices, last.key, With(GroupOf, last.key, ledger));
      var keys := Keys(groups);
      assert keys[..|keys| - 1] == Keys(init);
      assert Shares(prices, GroupOf, keys, ledger)[..|init|] == Shares(prices, GroupOf, Keys(init), ledger);
    }
  }

  // Whatever the ledger and the prices, the grouped query gives the row-by-row triple.
  lemma {:induction false} GroupingIsExact(prices: Prices, groups: seq<Group>, ledger: seq<Row>)
    requires IsGroupBy(groups, ledger)
    ensures OfGroups(prices, groups) == OfRows(prices, ledger)
  {
    GroupsAreShares(prices, groups, ledger);
    SharesAddUp(prices, GroupOf, Keys(groups), ledger);
  }
}
