/** Portfolio analytics (app/services/portfolio_analytics.py): the
    per-holding value and gain/loss loop of `calculate_portfolio_metrics`,
    `_calculate_diversification`, and the risk-level classifier.

Prices come from the parameter `price` (the market-data lookup followed by
`['current_price']`); a holding whose lookup fails or whose average price
is zero (ZeroDivisionError) is skipped. Arithmetic is over `real`.
 */
module Analytics {
  import opened Wrappers
  import opened Models

  const ZeroDivisionText := "float division by zero"
  const NoHoldingsText := "No holdings data available"
  /** Allocations strictly above this percentage count towards concentration. */
  const ConcentrationThreshold := 20.0

  type PriceSource = string -> Result<real>

  /** One entry of `holdings_data`. */
  datatype HoldingRow = HoldingRow(
    symbol: string,
    quantity: real,
    currentPrice: real,
    averagePrice: real,
    currentValue: real,
    gainLoss: real,
    gainLossPercentage: real)

  /** The body of the `try` for one holding. */
  function RowOf(h: Holding, price: PriceSource): (r: Result<HoldingRow>)
    ensures r.Ok? <==> price(h.assetSymbol).Ok? && h.averagePrice != 0.0
    ensures price(h.assetSymbol).Err? ==> r == Err(price(h.assetSymbol).msg)
    ensures r.Ok? ==>
              var p := price(h.assetSymbol).value;
              && r.value.symbol == h.assetSymbol && r.value.quantity == h.quantity
              && r.value.currentPrice == p && r.value.averagePrice == h.averagePrice
              && r.value.currentValue == p * h.quantity
              && r.value.gainLoss == (p - h.averagePrice) * h.quantity
              && r.value.gainLossPercentage * h.averagePrice == (p - h.averagePrice) * 100.0
  {
    var p :- price(h.assetSymbol);
    if h.averagePrice == 0.0 then Err(ZeroDivisionText)
    else
      Ok(HoldingRow(h.assetSymbol, h.quantity, p, h.averagePrice, p * h.quantity,
                    (p - h.averagePrice) * h.quantity,
                    (p - h.averagePrice) / h.averagePrice * 100.0))
  }

  /** The rows of the holdings that did not raise, in holding order. */
  function PricedRows(hs: seq<Holding>, price: PriceSource): (r: seq<HoldingRow>)
    ensures |r| <= |hs|
  {
    if |hs| == 0 then []
    else
      var init := PricedRows(hs[..|hs| - 1], price);
      match RowOf(hs[|hs| - 1], price)
      case Ok(row) => init + [row]
      case Err(_) => init
  }

  /** The sum of `current_value` over the rows. */
  function TotalValue(rows: seq<HoldingRow>): real {
    if |rows| == 0 then 0.0 else TotalValue(rows[..|rows| - 1]) + rows[|rows| - 1].currentValue
  }

  /** The loop of `calculate_portfolio_metrics`: the rows it collects and the
      running `total_value`. */
  method CalculateHoldings(hs: seq<Holding>, price: PriceSource) returns (rows: seq<HoldingRow>, total: real)
    ensures rows == PricedRows(hs, price)
    ensures total == TotalValue(rows)
  {
    rows := [];
    total := 0.0;
    for i := 0 to |hs|
      invariant rows == PricedRows(hs[..i], price)
      invariant total == TotalValue(rows)
    {
      assert hs[..i + 1][..i] == hs[..i];
      var outcome := RowOf(hs[i], price);
      if outcome.Ok? {
        rows := rows + [outcome.value];
        total := total + outcome.value.currentValue;
      }
    }
    assert hs[..|hs|] == hs;
  }

  /** When every holding is priced, there is one row per holding, in order. */
  lemma {:induction false} AllPricedKeepsAll(hs: seq<Holding>, price: PriceSource)
    requires forall i :: 0 <= i < |hs| ==> RowOf(hs[i], price).Ok?
    ensures |PricedRows(hs, price)| == |hs|
    ensures forall i :: 0 <= i < |hs| ==> PricedRows(hs, price)[i] == RowOf(hs[i], price).value
  {
    if |hs| > 0 {
      var init := hs[..|hs| - 1];
      AllPricedKeepsAll(init, price);
      assert forall i :: 0 <= i < |init| ==> init[i] == hs[i];
    }
  }

  /** A holding that raises is skipped entirely: it contributes neither a row
      nor a value, wherever it sits. */
  lemma {:induction false} FailingHoldingSkipped(a: seq<Holding>, h: Holding, b: seq<Holding>, price: PriceSource)
    requires RowOf(h, price).Err?
    ensures PricedRows(a + [h] + b, price) == PricedRows(a + b, price)
    decreases |b|
  {
    if |b| == 0 {
      assert (a + [h])[..|a|] == a;
      assert a + [h] + b == a + [h];
      assert a + b == a;
    } else {
      var b' := b[..|b| - 1];
      FailingHoldingSkipped(a, h, b', price);
      assert (a + [h] + b)[..|a + [h] + b| - 1] == a + [h] + b';
      assert (a + b)[..|a + b| - 1] == a + b';
      assert (a + [h] + b)[|a + [h] + b| - 1] == b[|b| - 1];
      assert (a + b)[|a + b| - 1] == b[|b| - 1];
    }
  }

  datatype Allocation = Allocation(symbol: string, percentage: real)

  datatype Diversification = Diversification(
    allocations: seq<Allocation>,
    topHoldings: seq<Allocation>,
    concentrationRisk: nat,
    numberOfHoldings: nat)

  /** One allocation per row, in order: its share of `total`, in percent
      (a zero total never reaches here; `Diversify` rejects it first). */
  function Allocations(rows: seq<HoldingRow>, total: real): (r: seq<Allocation>)
    ensures |r| == |rows|
    ensures forall i :: 0 <= i < |rows| ==> r[i].symbol == rows[i].symbol
    ensures total != 0.0 ==> forall i :: 0 <= i < |rows| ==> r[i].percentage * total == rows[i].currentValue * 100.0
  {
    seq(|rows|, i requires 0 <= i < |rows| => Allocation(rows[i].symbol, Share(rows[i].currentValue, total)))
  }

  function Share(value: real, total: real): real {
    if total == 0.0 then 0.0 else value / total * 100.0
  }

  predicate NonIncreasing(s: seq<Allocation>) {
    forall i, j :: 0 <= i < j < |s| ==> s[i].percentage >= s[j].percentage
  }

  /** Place `x` before the first entry whose percentage it reaches. */
  function InsertDesc(x: Allocation, s: seq<Allocation>): (r: seq<Allocation>)
    ensures |r| == |s| + 1
  {
    if |s| == 0 || x.percentage >= s[0].percentage then [x] + s
    else [s[0]] + InsertDesc(x, s[1..])
  }

  /** `sorted(allocations, key=percentage, reverse=True)`. */
  function SortDesc(xs: seq<Allocation>): (r: seq<Allocation>)
    ensures |r| == |xs|
  {
    if |xs| == 0 then []
    else InsertDesc(xs[0], SortDesc(xs[1..]))
  }

  /** Inserting adds exactly `x`. */
  lemma {:induction false} InsertDescPermutes(x: Allocation, s: seq<Allocation>)
    ensures multiset(InsertDesc(x, s)) == multiset(s) + multiset{x}
  {
    if |s| > 0 && x.percentage < s[0].percentage {
      InsertDescPermutes(x, s[1..]);
      assert s == [s[0]] + s[1..];
    }
  }

  /** The sort is a permutation of its input. */
  lemma {:induction false} SortDescPermutes(xs: seq<Allocation>)
    ensures multiset(SortDesc(xs)) == multiset(xs)
  {
    if |xs| > 0 {
      SortDescPermutes(xs[1..]);
      InsertDescPermutes(xs[0], SortDesc(xs[1..]));
      assert xs == [xs[0]] + xs[1..];
    }
  }

  /** Inserting keeps every percentage under a common bound. */
  lemma {:induction false} InsertDescBounded(x: Allocation, s: seq<Allocation>, bound: real)
    requires x.percentage <= bound
    requires forall i :: 0 <= i < |s| ==> s[i].percentage <= bound
    ensures forall j :: 0 <= j < |InsertDesc(x, s)| ==> InsertDesc(x, s)[j].percentage <= bound
  {
    if |s| > 0 && x.percentage < s[0].percentage {
      InsertDescBounded(x, s[1..], bound);
      var rest := InsertDesc(x, s[1..]);
      assert InsertDesc(x, s) == [s[0]] + rest;
    }
  }

  lemma {:induction false} InsertDescKeepsOrder(x: Allocation, s: seq<Allocation>)
    requires NonIncreasing(s)
    ensures NonIncreasing(InsertDesc(x, s))
    ensures |s| > 0 ==> InsertDesc(x, s)[0] == x || InsertDesc(x, s)[0] == s[0]
  {
    if |s| > 0 && x.percentage < s[0].percentage {
      var tail := s[1..];
      assert NonIncreasing(tail) by {
        forall i, j | 0 <= i < j < |tail|
          ensures tail[i].percentage >= tail[j].percentage
        {
          assert tail[i] == s[i + 1] && tail[j] == s[j + 1];
        }
      }
      InsertDescKeepsOrder(x, tail);
      forall i | 0 <= i < |tail|
        ensures tail[i].percentage <= s[0].percentage
      {
        assert tail[i] == s[i + 1];
      }
      InsertDescBounded(x, tail, s[0].percentage);
      var rest := InsertDesc(x, tail);
      var r := [s[0]] + rest;
      assert InsertDesc(x, s) == r;
      forall i, j | 0 <= i < j < |r|
        ensures r[i].percentage >= r[j].percentage
      {
        if i > 0 {
          assert r[i] == rest[i - 1] && r[j] == rest[j - 1];
        } else {
          assert r[j] == rest[j - 1];
        }
      }
    }
  }

  /** The sorted allocations are in non-increasing order. */
  lemma {:induction false} SortDescOrdered(xs: seq<Allocation>)
    ensures NonIncreasing(SortDesc(xs))
  {
    if |xs| > 0 {
      SortDescOrdered(xs[1..]);
      InsertDescKeepsOrder(xs[0], SortDesc(xs[1..]));
    }
  }

  /** The entries with percentage `v`, in order. */
  function WithPercentage(s: seq<Allocation>, v: real): seq<Allocation> {
    if |s| == 0 then []
    else (if s[0].percentage == v then [s[0]] else []) + WithPercentage(s[1..], v)
  }

  lemma {:induction false} InsertDescStable(x: Allocation, s: seq<Allocation>, v: real)
    requires NonIncreasing(s)
    ensures WithPercentage(InsertDesc(x, s), v) == (if x.percentage == v then [x] else []) + WithPercentage(s, v)
  {
    var fx := if x.percentage == v then [x] else [];
    if |s| == 0 || x.percentage >= s[0].percentage {
      var r := [x] + s;
      assert r[0] == x && r[1..] == s;
      assert WithPercentage(r, v) == fx + WithPercentage(s, v);
    } else {
      var tail := s[1..];
      assert NonIncreasing(tail) by {
        forall i, j | 0 <= i < j < |tail|
          ensures tail[i].percentage >= tail[j].percentage
        {
          assert tail[i] == s[i + 1] && tail[j] == s[j + 1];
        }
      }
      InsertDescStable(x, tail, v);
      var rest := InsertDesc(x, tail);
      var r := [s[0]] + rest;
      assert r[0] == s[0] && r[1..] == rest;
      var f0 := if s[0].percentage == v then [s[0]] else [];
      assert WithPercentage(r, v) == f0 + (fx + WithPercentage(tail, v));
      assert WithPercentage(s, v) == f0 + WithPercentage(tail, v);
      assert f0 == [] || fx == [];
    }
  }

  /** The sort is stable: entries with equal percentages keep their input order. */
  lemma {:induction false} SortDescStable(xs: seq<Allocation>, v: real)
    ensures WithPercentage(SortDesc(xs), v) == WithPercentage(xs, v)
  {
    if |xs| > 0 {
      SortDescStable(xs[1..], v);
      SortDescOrdered(xs[1..]);
      InsertDescStable(xs[0], SortDesc(xs[1..]), v);
    }
  }

  lemma {:induction false} WithPercentagePrefix(s: seq<Allocation>, k: nat, v: real)
    requires k <= |s|
    ensures WithPercentage(s[..k], v) <= WithPercentage(s, v)
  {
    if k > 0 {
      WithPercentagePrefix(s[1..], k - 1, v);
      assert s[..k][1..] == s[1..][..k - 1];
    }
  }

  /** Ties keep input order in `top_holdings`: the top entries with any one
      percentage are the first entries with that percentage among all the
      allocations. */
  lemma TopHoldingsKeepTieOrder(rows: seq<HoldingRow>, total: real, v: real)
    requires Diversify(rows, total).Ok?
    ensures var d := Diversify(rows, total).value;
            WithPercentage(d.topHoldings, v) <= WithPercentage(d.allocations, v)
  {
    var d := Diversify(rows, total).value;
    var sorted := SortDesc(d.allocations);
    SortDescStable(d.allocations, v);
    if |sorted| <= 3 {
      assert d.topHoldings == sorted;
    } else {
      assert d.topHoldings == sorted[..3];
      WithPercentagePrefix(sorted, 3, v);
    }
  }

  /** `len([a for a in allocations if a["percentage"] > 20])`. */
  function CountAbove(xs: seq<Allocation>, bound: real): (r: nat)
    ensures r <= |xs|
    ensures r == |AboveIndices(xs, bound)|
  {
    if |xs| == 0 then
      assert AboveIndices(xs, bound) == {};
      0
    else
      var n := |xs| - 1;
      var init := xs[..n];
      var below := AboveIndices(init, bound);
      assert n !in below;
      if xs[n].percentage > bound then
        assert AboveIndices(xs, bound) == below + {n};
        CountAbove(init, bound) + 1
      else
        assert AboveIndices(xs, bound) == below;
        CountAbove(init, bound)
  }

  /** The positions of the allocations strictly above `bound`. */
  function AboveIndices(xs: seq<Allocation>, bound: real): set<nat> {
    set i: nat | i < |xs| && xs[i].percentage > bound
  }

  function SumPercent(xs: seq<Allocation>): real {
    if |xs| == 0 then 0.0 else SumPercent(xs[..|xs| - 1]) + xs[|xs| - 1].percentage
  }

  function Min(a: nat, b: nat): nat {
    if a <= b then a else b
  }

  /** `_calculate_diversification`. */
  function Diversify(rows: seq<HoldingRow>, total: real): (r: Result<Diversification>)
    ensures r.Err? <==> |rows| == 0 || total == 0.0
    ensures r.Err? ==> r.msg == NoHoldingsText
    ensures r.Ok? ==> r.value.allocations == Allocations(rows, total)
    ensures r.Ok? ==> r.value.numberOfHoldings == |rows|
    ensures r.Ok? ==> r.value.concentrationRisk <= r.value.numberOfHoldings
    ensures r.Ok? ==> r.value.concentrationRisk ==
                      |set i: nat | i < |r.value.allocations| && r.value.allocations[i].percentage > ConcentrationThreshold|
    ensures r.Ok? ==> |r.value.topHoldings| == Min(3, |rows|)
    ensures r.Ok? ==> NonIncreasing(r.value.topHoldings)
    ensures r.Ok? ==> multiset(r.value.topHoldings) <= multiset(r.value.allocations)
    ensures r.Ok? ==> forall a :: a in multiset(r.value.allocations) - multiset(r.value.topHoldings) ==>
                        a.percentage <= r.value.topHoldings[|r.value.topHoldings| - 1].percentage
  {
    if |rows| == 0 || total == 0.0 then Err(NoHoldingsText)
    else
      var allocations := Allocations(rows, total);
      Ok(Diversification(allocations, TopHoldings(allocations), CountAbove(allocations, ConcentrationThreshold), |rows|))
  }

  /** `sorted(allocations, ...)[:3]`: the three largest allocations, largest
      first; every allocation left out is at most the last one kept. */
  function TopHoldings(allocations: seq<Allocation>): (r: seq<Allocation>)
    ensures |r| == Min(3, |allocations|)
    ensures NonIncreasing(r)
    ensures multiset(r) <= multiset(allocations)
    ensures forall a :: a in multiset(allocations) - multiset(r) ==>
              |r| > 0 && a.percentage <= r[|r| - 1].percentage
  {
    var sorted := SortDesc(allocations);
    SortDescOrdered(allocations);
    SortDescPermutes(allocations);
    if |sorted| == 0 then []
    else
      var top := if |sorted| <= 3 then sorted else sorted[..3];
      TopDominatesRest(sorted, |top|);
      top
  }

  /** In a non-increasing sequence, the first `n` entries form a sub-multiset
      and every other entry is at most the n-th. */
  lemma TopDominatesRest(sorted: seq<Allocation>, n: nat)
    requires 0 < n <= |sorted|
    requires NonIncreasing(sorted)
    ensures NonIncreasing(sorted[..n])
    ensures multiset(sorted[..n]) <= multiset(sorted)
    ensures forall a :: a in multiset(sorted) - multiset(sorted[..n]) ==> a.percentage <= sorted[n - 1].percentage
  {
    assert sorted == sorted[..n] + sorted[n..];
    assert multiset(sorted) == multiset(sorted[..n]) + multiset(sorted[n..]);
    forall a | a in multiset(sorted) - multiset(sorted[..n])
      ensures a.percentage <= sorted[n - 1].percentage
    {
      assert a in multiset(sorted[n..]);
      assert a in sorted[n..];
    }
  }

  /** The allocations add up to 100 percent when `total` is the sum of the
      rows' values, as `calculate_portfolio_metrics` passes it. */
  lemma AllocationsSumTo100(rows: seq<HoldingRow>)
    requires TotalValue(rows) != 0.0
    ensures SumPercent(Allocations(rows, TotalValue(rows))) == 100.0
  {
    var t := TotalValue(rows);
    var allocs := Allocations(rows, t);
    PrefixSum(rows, t, |rows|);
    assert allocs[..|rows|] == allocs;
    assert rows[..|rows|] == rows;
    CancelFactor(SumPercent(allocs), 100.0, t, TotalValue(rows[..|rows|]));
  }

  lemma CancelFactor(a: real, b: real, t: real, u: real)
    requires t != 0.0 && u == t && a * t == u * b
    ensures a == b
  {
    assert (a - b) * t == 0.0;
  }

  lemma {:induction false} PrefixSum(rows: seq<HoldingRow>, t: real, k: nat)
    requires t != 0.0 && k <= |rows|
    ensures SumPercent(Allocations(rows, t)[..k]) * t == TotalValue(rows[..k]) * 100.0
  {
    var allocs := Allocations(rows, t);
    if k > 0 {
      PrefixSum(rows, t, k - 1);
      assert allocs[..k][..k - 1] == allocs[..k - 1];
      assert rows[..k][..k - 1] == rows[..k - 1];
      var p := allocs[k - 1].percentage;
      assert p * t == rows[k - 1].currentValue * 100.0;
      assert SumPercent(allocs[..k]) == SumPercent(allocs[..k - 1]) + p;
      assert TotalValue(rows[..k]) == TotalValue(rows[..k - 1]) + rows[k - 1].currentValue;
      assert (SumPercent(allocs[..k - 1]) + p) * t == SumPercent(allocs[..k - 1]) * t + p * t;
    }
  }

  /** With no negative allocation, each allocation above the threshold takes
      more than 20 of the total percentage. */
  lemma {:induction false} CountAboveBoundedBySum(xs: seq<Allocation>)
    requires forall i :: 0 <= i < |xs| ==> xs[i].percentage >= 0.0
    ensures (CountAbove(xs, ConcentrationThreshold) as real) * ConcentrationThreshold <= SumPercent(xs)
    ensures CountAbove(xs, ConcentrationThreshold) > 0 ==>
              (CountAbove(xs, ConcentrationThreshold) as real) * ConcentrationThreshold < SumPercent(xs)
  {
    if |xs| > 0 {
      CountAboveBoundedBySum(xs[..|xs| - 1]);
    }
  }

  /** Allocations that are never negative and add up to 100 percent leave
      room for at most four above the 20 percent threshold. */
  lemma ConcentrationAtMostFour(allocs: seq<Allocation>)
    requires forall i :: 0 <= i < |allocs| ==> allocs[i].percentage >= 0.0
    requires SumPercent(allocs) == 100.0
    ensures CountAbove(allocs, ConcentrationThreshold) <= 4
  {
    CountAboveBoundedBySum(allocs);
  }

  /** With the loop's own total and no negative value, `concentration_risk`
      is at most four. */
  lemma DiversifiedConcentrationAtMostFour(rows: seq<HoldingRow>)
    requires forall i :: 0 <= i < |rows| ==> rows[i].currentValue >= 0.0
    ensures Diversify(rows, TotalValue(rows)).Ok? ==> Diversify(rows, TotalValue(rows)).value.concentrationRisk <= 4
  {
    if Diversify(rows, TotalValue(rows)).Ok? {
      var allocs := Allocations(rows, TotalValue(rows));
      NonNegativeShares(rows);
      AllocationsSumTo100(rows);
      ConcentrationAtMostFour(allocs);
    }
  }

  /** The allocations of rows with no negative value are never negative. */
  lemma NonNegativeShares(rows: seq<HoldingRow>)
    requires forall i :: 0 <= i < |rows| ==> rows[i].currentValue >= 0.0
    ensures forall i :: 0 <= i < |rows| ==> Allocations(rows, TotalValue(rows))[i].percentage >= 0.0
  {
    NonNegativeTotal(rows);
  }

  lemma {:induction false} NonNegativeTotal(rows: seq<HoldingRow>)
    requires forall i :: 0 <= i < |rows| ==> rows[i].currentValue >= 0.0
    ensures TotalValue(rows) >= 0.0
  {
    if |rows| > 0 {
      NonNegativeTotal(rows[..|rows| - 1]);
    }
  }

  datatype RiskLevel = Low | Medium | High

  /** The classifier of `_calculate_risk_metrics`. */
  function RiskLevelOf(beta: real): (r: RiskLevel)
    ensures r == High <==> beta > 1.2
    ensures r == Medium <==> 0.8 < beta <= 1.2
    ensures r == Low <==> beta <= 0.8
  {
    if beta > 1.2 then High else if beta > 0.8 then Medium else Low
  }

  function Rank(l: RiskLevel): nat {
    match l
    case Low => 0
    case Medium => 1
    case High => 2
  }

  /** A larger beta never gives a lower risk level. */
  lemma RiskLevelMonotone(a: real, b: real)
    requires a <= b
    ensures Rank(RiskLevelOf(a)) <= Rank(RiskLevelOf(b))
  {
  }
}
