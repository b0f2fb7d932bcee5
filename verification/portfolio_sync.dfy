/** The Gemini portfolio sync (app/services/portfolio_sync.py): find or
    create the user's "Gemini Portfolio", upsert one holding per normalised
    position keyed by (portfolio id, asset symbol), and fold the outcome into
    a `{success, errors}` report.

The session commits whatever was added before the sync raised, because the
exception is caught in `sync_user_portfolios` and the request's session
(app/core/database.py:22-31) commits after a normal return. A run is
therefore an `Applied`: the store as committed and the exception text, if any.
 */
module PortfolioSync {
  import opened Wrappers
  import opened Models
  import opened JsonValues
  import Gemini

  const PortfolioName := "Gemini Portfolio"
  const PortfolioDescription := "Automatically synced Gemini portfolio"
  const ClientMissingText := "Gemini client configuration not found"
  const SuccessText := "Successfully synced Gemini portfolio"
  const NotConfiguredText := "Gemini credentials not configured in Doppler"
  const FailurePrefix := "Failed to sync Gemini portfolio: "

  datatype Applied = Applied(store: Store, failure: Option<string>)

  datatype Report = Report(success: seq<string>, errors: seq<string>)

  /** Only the holdings table and its counter differ. */
  predicate OnlyHoldingsChange(s: Store, s': Store) {
    && s'.users == s.users && s'.portfolios == s.portfolios && s'.transactions == s.transactions
    && s'.nextUserId == s.nextUserId && s'.nextPortfolioId == s.nextPortfolioId
  }

  /** The fields an update keeps: the row's identity, type and platform. */
  predicate SameIdentity(a: Holding, b: Holding) {
    && a.id == b.id && a.portfolioId == b.portfolioId && a.assetSymbol == b.assetSymbol
    && a.assetType == b.assetType && a.platform == b.platform
  }

  /** A holding a run over the symbols `syms` of portfolio `pid` may write. */
  predicate Touched(h: Holding, pid: nat, syms: set<string>) {
    h.portfolioId == pid && h.assetSymbol in syms
  }

  /** `hs'` arises from `hs` by updating touched rows in place and appending
      touched Gemini rows: nothing is deleted, nothing else is changed. */
  predicate Evolves(hs: seq<Holding>, hs': seq<Holding>, pid: nat, syms: set<string>) {
    && |hs| <= |hs'|
    && (forall i :: 0 <= i < |hs| ==> SameIdentity(hs[i], hs'[i]))
    && (forall i :: 0 <= i < |hs| && !Touched(hs[i], pid, syms) ==> hs'[i] == hs[i])
    && (forall i :: |hs| <= i < |hs'| ==> Touched(hs'[i], pid, syms) && hs'[i].platform == Gemini)
  }

  lemma EvolvesTransitive(a: seq<Holding>, b: seq<Holding>, c: seq<Holding>, pid: nat, s1: set<string>, s2: set<string>)
    requires Evolves(a, b, pid, s1) && Evolves(b, c, pid, s2)
    ensures Evolves(a, c, pid, s1 + s2)
  {
    forall i | 0 <= i < |a| && !Touched(a[i], pid, s1 + s2)
      ensures c[i] == a[i]
    {
      assert b[i] == a[i];
    }
    forall i | |a| <= i < |c|
      ensures Touched(c[i], pid, s1 + s2) && c[i].platform == Gemini
    {
      if i < |b| {
        assert SameIdentity(b[i], c[i]);
      }
    }
  }

  /** The row after an update from position `p` at time `now`. */
  function Refreshed(h: Holding, p: Position, now: int): Holding {
    h.(quantity := p.quantity, averagePrice := p.averagePrice, lastUpdated := now)
  }

  /** The holding carries the position's quantity and price and the time. */
  predicate Reflects(h: Holding, p: Position, now: int) {
    h.quantity == p.quantity && h.averagePrice == p.averagePrice && h.lastUpdated == now
  }

  /** The new row of the `else` branch, appended. */
  function InsertHolding(s: Store, pid: nat, p: Position, now: int): (r: Store)
    ensures |r.holdings| == |s.holdings| + 1 && r.holdings[..|s.holdings|] == s.holdings
    ensures r.holdings[|s.holdings|]
            == Holding(s.nextHoldingId, pid, p.assetSymbol, p.assetType, p.quantity, p.averagePrice, Gemini, now)
    ensures OnlyHoldingsChange(s, r)
    ensures Evolves(s.holdings, r.holdings, pid, {p.assetSymbol})
    ensures KeyOf(r.holdings[|s.holdings|]) == (pid, p.assetSymbol) && Reflects(r.holdings[|s.holdings|], p, now)
    ensures FreshCounters(s) ==> FreshCounters(r)
  {
    var h := Holding(s.nextHoldingId, pid, p.assetSymbol, p.assetType, p.quantity, p.averagePrice, Gemini, now);
    s.(holdings := s.holdings + [h], nextHoldingId := s.nextHoldingId + 1)
  }

  /** The `if holding:` branch: row `j` refreshed in place. */
  function UpdateHolding(s: Store, pid: nat, j: nat, p: Position, now: int): (r: Store)
    requires j < |s.holdings| && KeyOf(s.holdings[j]) == (pid, p.assetSymbol)
    ensures |r.holdings| == |s.holdings|
    ensures r.holdings[j] == Refreshed(s.holdings[j], p, now)
    ensures forall i :: 0 <= i < |s.holdings| && i != j ==> r.holdings[i] == s.holdings[i]
    ensures OnlyHoldingsChange(s, r)
    ensures Evolves(s.holdings, r.holdings, pid, {p.assetSymbol})
    ensures KeyOf(r.holdings[j]) == (pid, p.assetSymbol) && Reflects(r.holdings[j], p, now)
    ensures FreshCounters(s) ==> FreshCounters(r)
  {
    s.(holdings := s.holdings[j := Refreshed(s.holdings[j], p, now)])
  }

  /** One iteration of the holdings loop: look the key up, then update the one
      row found or insert a new one. */
  function Upsert(s: Store, pid: nat, p: Position, now: int): (r: Result<Store>)
    ensures var occ := Occurrences(Keys(s.holdings), (pid, p.assetSymbol));
            && (r.Err? <==> |occ| >= 2)
            && (r.Err? ==> r.msg == MultipleRowsText)
            && (r.Ok? && |occ| == 0 ==> r.value == InsertHolding(s, pid, p, now))
            && (r.Ok? && |occ| == 1 ==> occ[0] < |s.holdings| && r.value.holdings == s.holdings[occ[0] := Refreshed(s.holdings[occ[0]], p, now)])
    ensures r.Ok? ==> OnlyHoldingsChange(s, r.value)
    ensures r.Ok? ==> Evolves(s.holdings, r.value.holdings, pid, {p.assetSymbol})
    ensures r.Ok? ==> exists i :: 0 <= i < |r.value.holdings|
                                  && KeyOf(r.value.holdings[i]) == (pid, p.assetSymbol)
                                  && Reflects(r.value.holdings[i], p, now)
    ensures r.Ok? && FreshCounters(s) ==> FreshCounters(r.value)
  {
    var occ := Occurrences(Keys(s.holdings), (pid, p.assetSymbol));
    if |occ| == 0 then
      var r := InsertHolding(s, pid, p, now);
      assert KeyOf(r.holdings[|s.holdings|]) == (pid, p.assetSymbol);
      Ok(r)
    else if |occ| == 1 then
      var j := occ[0];
      var r := UpdateHolding(s, pid, j, p, now);
      assert KeyOf(r.holdings[j]) == (pid, p.assetSymbol);
      Ok(r)
    else Err(MultipleRowsText)
  }

  /** The symbols of the positions. */
  function Symbols(ps: seq<Position>): set<string> {
    set i | 0 <= i < |ps| :: ps[i].assetSymbol
  }

  lemma SymbolsSplit(ps: seq<Position>)
    requires |ps| > 0
    ensures Symbols(ps) == {ps[0].assetSymbol} + Symbols(ps[1..])
  {
    forall x | x in Symbols(ps)
      ensures x in {ps[0].assetSymbol} + Symbols(ps[1..])
    {
      var i :| 0 <= i < |ps| && ps[i].assetSymbol == x;
      if i > 0 {
        assert ps[1..][i - 1] == ps[i];
      }
    }
    forall x | x in Symbols(ps[1..])
      ensures x in Symbols(ps)
    {
      var i :| 0 <= i < |ps[1..]| && ps[1..][i].assetSymbol == x;
      assert ps[i + 1] == ps[1..][i];
    }
  }

  /** The holdings loop with the commit that follows: positions are applied
      in order; the first failure stops the loop, and what was applied before
      it stays. */
  function Reconcile(s: Store, pid: nat, ps: seq<Position>, now: int): (r: Applied)
    ensures OnlyHoldingsChange(s, r.store)
    ensures Evolves(s.holdings, r.store.holdings, pid, Symbols(ps))
    ensures FreshCounters(s) ==> FreshCounters(r.store)
    ensures r.failure.Some? ==> r.failure.value == MultipleRowsText
    decreases |ps|
  {
    if |ps| == 0 then Applied(s, None)
    else
      match Upsert(s, pid, ps[0], now)
      case Err(e) => Applied(s, Some(e))
      case Ok(s1) =>
        var r := Reconcile(s1, pid, ps[1..], now);
        SymbolsSplit(ps);
        EvolvesTransitive(s.holdings, s1.holdings, r.store.holdings, pid, {ps[0].assetSymbol}, Symbols(ps[1..]));
        r
  }

  /** An update in place keeps every key. */
  lemma RefreshKeepsKeys(hs: seq<Holding>, j: nat, h: Holding)
    requires j < |hs| && KeyOf(h) == KeyOf(hs[j])
    ensures Keys(hs[j := h]) == Keys(hs)
  {
  }

  /** With unique keys, two rows with one key are the same row. */
  lemma SameKeySameRow(hs: seq<Holding>, a: nat, b: nat)
    requires UniqueKeys(hs)
    requires a < |hs| && b < |hs| && KeyOf(hs[a]) == KeyOf(hs[b])
    ensures a == b
  {
  }

  lemma DistinctRowsDistinctKeys(hs: seq<Holding>, a: nat, b: nat)
    requires UniqueKeys(hs)
    requires a < |hs| && b < |hs| && a != b
    ensures KeyOf(hs[a]) != KeyOf(hs[b])
  {
  }

  /** On a store with unique keys an upsert cannot fail and keeps the keys
      unique. */
  lemma UpsertKeepsUnique(s: Store, pid: nat, p: Position, now: int)
    requires UniqueKeys(s.holdings)
    ensures Upsert(s, pid, p, now).Ok?
    ensures UniqueKeys(Upsert(s, pid, p, now).value.holdings)
  {
    var k := (pid, p.assetSymbol);
    var occ := Occurrences(Keys(s.holdings), k);
    UniqueOccursOnce(s.holdings, k);
    var hs := Upsert(s, pid, p, now).value.holdings;
    if |occ| == 0 {
      forall i | 0 <= i < |s.holdings|
        ensures KeyOf(s.holdings[i]) != k
      {
        assert Keys(s.holdings)[i] == KeyOf(s.holdings[i]);
      }
      assert hs == s.holdings + [hs[|s.holdings|]];
      forall i, j | 0 <= i < j < |hs|
        ensures KeyOf(hs[i]) != KeyOf(hs[j])
      {
        if j == |s.holdings| {
          assert KeyOf(hs[j]) == k;
          assert hs[i] == s.holdings[i];
        } else {
          assert hs[i] == s.holdings[i] && hs[j] == s.holdings[j];
        }
      }
    } else {
      var j := occ[0];
      assert hs == s.holdings[j := Refreshed(s.holdings[j], p, now)];
      forall a, b | 0 <= a < b < |hs|
        ensures KeyOf(hs[a]) != KeyOf(hs[b])
      {
        assert KeyOf(hs[a]) == KeyOf(s.holdings[a]) && KeyOf(hs[b]) == KeyOf(s.holdings[b]);
      }
    }
  }

  /** On a store with unique keys the whole run succeeds and keeps the keys
      unique. */
  lemma {:induction false} ReconcileKeepsUnique(s: Store, pid: nat, ps: seq<Position>, now: int)
    requires UniqueKeys(s.holdings)
    ensures Reconcile(s, pid, ps, now).failure.None?
    ensures UniqueKeys(Reconcile(s, pid, ps, now).store.holdings)
    decreases |ps|
  {
    if |ps| > 0 {
      UpsertKeepsUnique(s, pid, ps[0], now);
      ReconcileKeepsUnique(Upsert(s, pid, ps[0], now).value, pid, ps[1..], now);
    }
  }

  /** The last position for `sym`, if any: later positions for one symbol
      overwrite earlier ones. */
  function LastFor(ps: seq<Position>, sym: string): (r: Option<Position>)
    ensures r.Some? <==> sym in Symbols(ps)
    ensures r.Some? ==> r.value in ps && r.value.assetSymbol == sym
  {
    if |ps| == 0 then None
    else
      SymbolsSplit(ps);
      var rest := LastFor(ps[1..], sym);
      if rest.Some? then rest
      else if ps[0].assetSymbol == sym then Some(ps[0])
      else None
  }

  /** `LastFor` picks a position no later one for the symbol follows. */
  lemma {:induction false} LastForIsLast(ps: seq<Position>, sym: string)
    requires sym in Symbols(ps)
    ensures exists j :: 0 <= j < |ps| && ps[j] == LastFor(ps, sym).value
                        && forall k :: j < k < |ps| ==> ps[k].assetSymbol != sym
  {
    SymbolsSplit(ps);
    if sym in Symbols(ps[1..]) {
      LastForIsLast(ps[1..], sym);
      var j :| 0 <= j < |ps[1..]| && ps[1..][j] == LastFor(ps[1..], sym).value
               && forall k :: j < k < |ps[1..]| ==> ps[1..][k].assetSymbol != sym;
      assert ps[j + 1] == ps[1..][j];
      forall k | j + 1 < k < |ps|
        ensures ps[k].assetSymbol != sym
      {
        assert ps[k] == ps[1..][k - 1];
      }
    } else {
      forall k | 0 < k < |ps|
        ensures ps[k].assetSymbol != sym
      {
        assert ps[k] == ps[1..][k - 1];
      }
      assert ps[0] == LastFor(ps, sym).value;
    }
  }

  /** One step of the run when the first upsert succeeds. */
  lemma ReconcileStep(s: Store, pid: nat, ps: seq<Position>, now: int)
    requires |ps| > 0 && Upsert(s, pid, ps[0], now).Ok?
    ensures Reconcile(s, pid, ps, now) == Reconcile(Upsert(s, pid, ps[0], now).value, pid, ps[1..], now)
  {
  }

  /** With unique keys, after a run every symbol of the positions has a row
      in the portfolio carrying the values of its last position. */
  lemma {:induction false} ReconcileConverges(s: Store, pid: nat, ps: seq<Position>, now: int, sym: string)
    requires UniqueKeys(s.holdings)
    requires sym in Symbols(ps)
    ensures var hs := Reconcile(s, pid, ps, now).store.holdings;
            exists i :: 0 <= i < |hs| && KeyOf(hs[i]) == (pid, sym) && Reflects(hs[i], LastFor(ps, sym).value, now)
    decreases |ps|
  {
    SymbolsSplit(ps);
    UpsertKeepsUnique(s, pid, ps[0], now);
    ReconcileStep(s, pid, ps, now);
    var s1 := Upsert(s, pid, ps[0], now).value;
    var hs := Reconcile(s1, pid, ps[1..], now).store.holdings;
    if sym in Symbols(ps[1..]) {
      ReconcileConverges(s1, pid, ps[1..], now, sym);
      assert LastFor(ps, sym) == LastFor(ps[1..], sym);
    } else {
      assert sym == ps[0].assetSymbol;
      assert LastFor(ps, sym) == Some(ps[0]);
      var i :| 0 <= i < |s1.holdings| && KeyOf(s1.holdings[i]) == (pid, sym) && Reflects(s1.holdings[i], ps[0], now);
      assert !Touched(s1.holdings[i], pid, Symbols(ps[1..]));
      assert hs[i] == s1.holdings[i];
    }
  }

  /** Every symbol of the positions already has a row in the portfolio. */
  predicate AllPresent(hs: seq<Holding>, pid: nat, ps: seq<Position>) {
    forall sym :: sym in Symbols(ps) ==> exists i :: 0 <= i < |hs| && KeyOf(hs[i]) == (pid, sym)
  }

  /** The holdings a run produces when it inserts nothing: every touched row
      carries its symbol's last position, the others are as they were. */
  function Final(hs: seq<Holding>, pid: nat, ps: seq<Position>, now: int): (r: seq<Holding>)
    ensures |r| == |hs|
  {
    seq(|hs|, i requires 0 <= i < |hs| =>
      if Touched(hs[i], pid, Symbols(ps)) then Refreshed(hs[i], LastFor(ps, hs[i].assetSymbol).value, now) else hs[i])
  }

  /** An upsert of a present key on a store with unique keys updates that
      one row in place and nothing else. */
  lemma PresentUpsertUpdates(s: Store, pid: nat, p: Position, now: int) returns (j: nat)
    requires UniqueKeys(s.holdings)
    requires exists i :: 0 <= i < |s.holdings| && KeyOf(s.holdings[i]) == (pid, p.assetSymbol)
    ensures j < |s.holdings| && KeyOf(s.holdings[j]) == (pid, p.assetSymbol)
    ensures Upsert(s, pid, p, now) == Ok(s.(holdings := s.holdings[j := Refreshed(s.holdings[j], p, now)]))
  {
    var k := (pid, p.assetSymbol);
    UniqueOccursOnce(s.holdings, k);
    var occ := Occurrences(Keys(s.holdings), k);
    var i0 :| 0 <= i0 < |s.holdings| && KeyOf(s.holdings[i0]) == k;
    assert Keys(s.holdings)[i0] == k;
    assert i0 in occ;
    j := occ[0];
    assert j == i0;
  }

  /** Every symbol stays present when the keys do not change. */
  lemma PresentAfterUpdate(hs: seq<Holding>, hs': seq<Holding>, pid: nat, ps: seq<Position>)
    requires |ps| > 0 && Keys(hs') == Keys(hs)
    requires AllPresent(hs, pid, ps)
    ensures AllPresent(hs', pid, ps[1..])
  {
    SymbolsSplit(ps);
    forall sym | sym in Symbols(ps[1..])
      ensures exists i :: 0 <= i < |hs'| && KeyOf(hs'[i]) == (pid, sym)
    {
      var i :| 0 <= i < |hs| && KeyOf(hs[i]) == (pid, sym);
      assert Keys(hs')[i] == Keys(hs)[i];
    }
  }

  /** Updating the first position's row and running the rest gives the same
      final holdings as running them all. */
  lemma FinalStep(hs: seq<Holding>, j: nat, pid: nat, ps: seq<Position>, now: int)
    requires UniqueKeys(hs)
    requires |ps| > 0 && j < |hs| && KeyOf(hs[j]) == (pid, ps[0].assetSymbol)
    ensures Final(hs[j := Refreshed(hs[j], ps[0], now)], pid, ps[1..], now) == Final(hs, pid, ps, now)
  {
    SymbolsSplit(ps);
    var hs1 := hs[j := Refreshed(hs[j], ps[0], now)];
    var f1, f := Final(hs1, pid, ps[1..], now), Final(hs, pid, ps, now);
    forall i | 0 <= i < |hs|
      ensures f1[i] == f[i]
    {
      var h := hs[i];
      if Touched(h, pid, Symbols(ps[1..])) {
        assert LastFor(ps, h.assetSymbol) == LastFor(ps[1..], h.assetSymbol);
      } else if i == j {
        assert LastFor(ps, h.assetSymbol) == Some(ps[0]);
      } else {
        DistinctRowsDistinctKeys(hs, i, j);
      }
    }
  }

  /** When every symbol is already present, a run on a store with unique keys
      inserts nothing and yields `Final`. */
  lemma {:induction false} ReconcileUpdatesOnly(s: Store, pid: nat, ps: seq<Position>, now: int)
    requires UniqueKeys(s.holdings)
    requires AllPresent(s.holdings, pid, ps)
    ensures Reconcile(s, pid, ps, now).failure.None?
    ensures Reconcile(s, pid, ps, now).store == s.(holdings := Final(s.holdings, pid, ps, now))
    decreases |ps|
  {
    if |ps| == 0 {
      assert Final(s.holdings, pid, ps, now) == s.holdings;
    } else {
      SymbolsSplit(ps);
      var p := ps[0];
      var j := PresentUpsertUpdates(s, pid, p, now);
      var s1 := s.(holdings := s.holdings[j := Refreshed(s.holdings[j], p, now)]);
      ReconcileStep(s, pid, ps, now);
      RefreshKeepsKeys(s.holdings, j, Refreshed(s.holdings[j], p, now));
      UpsertKeepsUnique(s, pid, p, now);
      PresentAfterUpdate(s.holdings, s1.holdings, pid, ps);
      ReconcileUpdatesOnly(s1, pid, ps[1..], now);
      FinalStep(s.holdings, j, pid, ps, now);
    }
  }

  /** A second run with the same positions at the same time changes nothing. */
  lemma ReconcileIdempotent(s: Store, pid: nat, ps: seq<Position>, now: int)
    requires UniqueKeys(s.holdings)
    ensures var first := Reconcile(s, pid, ps, now);
            Reconcile(first.store, pid, ps, now) == Applied(first.store, None)
  {
    var s1 := Reconcile(s, pid, ps, now).store;
    ReconcileKeepsUnique(s, pid, ps, now);
    var hs1 := s1.holdings;
    assert AllPresent(hs1, pid, ps) by {
      forall sym | sym in Symbols(ps)
        ensures exists i :: 0 <= i < |hs1| && KeyOf(hs1[i]) == (pid, sym)
      {
        ReconcileConverges(s, pid, ps, now, sym);
      }
    }
    ReconcileUpdatesOnly(s1, pid, ps, now);
    forall i | 0 <= i < |hs1|
      ensures Final(hs1, pid, ps, now)[i] == hs1[i]
    {
      var h := hs1[i];
      if Touched(h, pid, Symbols(ps)) {
        ReconcileConverges(s, pid, ps, now, h.assetSymbol);
        var k :| 0 <= k < |hs1| && KeyOf(hs1[k]) == (pid, h.assetSymbol)
                 && Reflects(hs1[k], LastFor(ps, h.assetSymbol).value, now);
        SameKeySameRow(hs1, k, i);
      }
    }
    assert Final(hs1, pid, ps, now) == hs1;
  }

  /** A re-run with the same positions at any later time `now'` fails
      nowhere and inserts no row; every row keeps its identity, quantity and
      average price, and only the touched rows take the new time. */
  lemma ReconcileRerun(s: Store, pid: nat, ps: seq<Position>, now: int, now': int)
    requires UniqueKeys(s.holdings)
    ensures var first := Reconcile(s, pid, ps, now).store;
            var second := Reconcile(first, pid, ps, now');
            && second.failure.None?
            && second.store == first.(holdings := Final(first.holdings, pid, ps, now'))
            && |second.store.holdings| == |first.holdings|
            && forall i :: 0 <= i < |first.holdings| ==>
                 && second.store.holdings[i] == first.holdings[i].(lastUpdated := second.store.holdings[i].lastUpdated)
                 && (Touched(first.holdings[i], pid, Symbols(ps)) ==> second.store.holdings[i].lastUpdated == now')
  {
    var s1 := Reconcile(s, pid, ps, now).store;
    ReconcileKeepsUnique(s, pid, ps, now);
    var hs1 := s1.holdings;
    assert AllPresent(hs1, pid, ps) by {
      forall sym | sym in Symbols(ps)
        ensures exists i :: 0 <= i < |hs1| && KeyOf(hs1[i]) == (pid, sym)
      {
        ReconcileConverges(s, pid, ps, now, sym);
      }
    }
    ReconcileUpdatesOnly(s1, pid, ps, now');
    var f := Final(hs1, pid, ps, now');
    forall i | 0 <= i < |hs1|
      ensures f[i] == hs1[i].(lastUpdated := f[i].lastUpdated)
      ensures Touched(hs1[i], pid, Symbols(ps)) ==> f[i].lastUpdated == now'
    {
      var h := hs1[i];
      if Touched(h, pid, Symbols(ps)) {
        ReconcileConverges(s, pid, ps, now, h.assetSymbol);
        var k :| 0 <= k < |hs1| && KeyOf(hs1[k]) == (pid, h.assetSymbol)
                 && Reflects(hs1[k], LastFor(ps, h.assetSymbol).value, now);
        SameKeySameRow(hs1, k, i);
      }
    }
  }

  /** The user's portfolio the sync writes to. */
  predicate IsGeminiPortfolio(p: Portfolio, uid: nat) {
    p.userId == Some(uid) && p.name == PortfolioName
  }

  /** The rows of the portfolio lookup, in table order. */
  function GeminiPortfolios(ps: seq<Portfolio>, uid: nat): (r: seq<Portfolio>)
    ensures forall p :: p in r <==> p in ps && IsGeminiPortfolio(p, uid)
  {
    if |ps| == 0 then []
    else
      var last := ps[|ps| - 1];
      GeminiPortfolios(ps[..|ps| - 1], uid) + (if IsGeminiPortfolio(last, uid) then [last] else [])
  }

  /** The portfolio lookup and, when it finds nothing, the creation of the
      portfolio, committed at once. Yields the store and the portfolio id. */
  function FindOrCreatePortfolio(s: Store, uid: nat): (r: Result<(Store, nat)>)
    ensures var found := GeminiPortfolios(s.portfolios, uid);
            && (r.Err? <==> |found| >= 2)
            && (r.Err? ==> r.msg == MultipleRowsText)
            && (|found| == 1 ==> r == Ok((s, found[0].id)))
            && (|found| == 0 ==>
                  r == Ok((s.(portfolios := s.portfolios + [Portfolio(s.nextPortfolioId, Some(uid), PortfolioName, Some(PortfolioDescription))],
                              nextPortfolioId := s.nextPortfolioId + 1),
                           s.nextPortfolioId)))
    ensures r.Ok? ==> |GeminiPortfolios(r.value.0.portfolios, uid)| == 1
    ensures r.Ok? ==> GeminiPortfolios(r.value.0.portfolios, uid)[0].id == r.value.1
    ensures r.Ok? ==> r.value.0.holdings == s.holdings && OnlyPortfoliosGrow(s, r.value.0)
    ensures r.Ok? && FreshCounters(s) ==> FreshCounters(r.value.0)
  {
    var found := GeminiPortfolios(s.portfolios, uid);
    match OneOrNone(found)
    case Err(e) => Err(e)
    case Ok(Some(p)) => Ok((s, p.id))
    case Ok(None) =>
      var p := Portfolio(s.nextPortfolioId, Some(uid), PortfolioName, Some(PortfolioDescription));
      var ps := s.portfolios + [p];
      assert ps[..|ps| - 1] == s.portfolios;
      Ok((s.(portfolios := ps, nextPortfolioId := s.nextPortfolioId + 1), p.id))
  }

  /** Users and transactions stay, the portfolio table only grows at its end. */
  predicate OnlyPortfoliosGrow(s: Store, s': Store) {
    && s'.users == s.users && s'.transactions == s.transactions
    && s'.nextUserId == s.nextUserId && s'.nextHoldingId == s.nextHoldingId
    && |s.portfolios| <= |s'.portfolios| <= |s.portfolios| + 1
    && s'.portfolios[..|s.portfolios|] == s.portfolios
  }

  /** A second lookup finds the portfolio the first one created. */
  lemma FindOrCreateIdempotent(s: Store, uid: nat)
    requires FindOrCreatePortfolio(s, uid).Ok?
    ensures var (s1, pid) := FindOrCreatePortfolio(s, uid).value;
            FindOrCreatePortfolio(s1, uid) == Ok((s1, pid))
  {
  }

  /** `h` belongs to one of the user's portfolios named like the sync's. */
  predicate InGeminiPortfolio(h: Holding, ps: seq<Portfolio>, uid: nat) {
    exists p :: p in ps && IsGeminiPortfolio(p, uid) && p.id == h.portfolioId
  }

  /** `_sync_gemini`: the client check, the portfolio lookup, the balances,
      then the holdings loop. */
  function SyncGemini(s: Store, uid: nat, creds: Gemini.Credentials, fetch: Gemini.Fetch, parse: FloatParser, now: int): (r: Applied)
    ensures Gemini.CreateClient(creds).None? ==> r == Applied(s, Some(ClientMissingText))
    ensures r.store.users == s.users && r.store.transactions == s.transactions
    ensures |s.portfolios| <= |r.store.portfolios| && r.store.portfolios[..|s.portfolios|] == s.portfolios
    ensures FreshCounters(s) ==> FreshCounters(r.store)
    ensures Gemini.CreateClient(creds).Some? && FindOrCreatePortfolio(s, uid).Ok? ==>
              |GeminiPortfolios(r.store.portfolios, uid)| == 1
    ensures Gemini.GetBalances(fetch, parse).Err? ==> r.store.holdings == s.holdings
    ensures |s.holdings| <= |r.store.holdings|
    ensures forall i :: 0 <= i < |s.holdings| ==> SameIdentity(s.holdings[i], r.store.holdings[i])
    ensures forall i :: 0 <= i < |s.holdings| && !InGeminiPortfolio(s.holdings[i], r.store.portfolios, uid) ==>
              r.store.holdings[i] == s.holdings[i]
    ensures forall i :: |s.holdings| <= i < |r.store.holdings| ==>
              InGeminiPortfolio(r.store.holdings[i], r.store.portfolios, uid) && r.store.holdings[i].platform == Gemini
    ensures UniqueKeys(s.holdings) ==> UniqueKeys(r.store.holdings)
    ensures Gemini.CreateClient(creds).Some? ==> r.failure != Some(ClientMissingText)
    ensures r.failure.Some? ==>
              || r.failure.value == ClientMissingText
              || r.failure.value == MultipleRowsText
              || Strings.StartsWith(r.failure.value, Gemini.BalancesFailedPrefix)
  {
    if Gemini.CreateClient(creds).None? then Applied(s, Some(ClientMissingText))
    else
      match FindOrCreatePortfolio(s, uid)
      case Err(e) => Applied(s, Some(e))
      case Ok((s1, pid)) =>
        match Gemini.GetBalances(fetch, parse)
        case Err(e) =>
          assert e[0] == Gemini.BalancesFailedPrefix[0] != ClientMissingText[0];
          Applied(s1, Some(e))
        case Ok(ps) => ApplyBalances(s1, uid, pid, ps, now)
  }

  /** The holdings loop of `_sync_gemini`, run on the user's Gemini portfolio
      `pid`: the framing of `Reconcile`, stated against that portfolio. */
  function ApplyBalances(s: Store, uid: nat, pid: nat, ps: seq<Position>, now: int): (r: Applied)
    requires |GeminiPortfolios(s.portfolios, uid)| == 1 && GeminiPortfolios(s.portfolios, uid)[0].id == pid
    ensures r == Reconcile(s, pid, ps, now)
    ensures GeminiPortfolios(r.store.portfolios, uid) == GeminiPortfolios(s.portfolios, uid)
    ensures forall i :: 0 <= i < |s.holdings| && !InGeminiPortfolio(s.holdings[i], r.store.portfolios, uid) ==>
              r.store.holdings[i] == s.holdings[i]
    ensures forall i :: |s.holdings| <= i < |r.store.holdings| ==>
              InGeminiPortfolio(r.store.holdings[i], r.store.portfolios, uid) && r.store.holdings[i].platform == Gemini
    ensures UniqueKeys(s.holdings) ==> UniqueKeys(r.store.holdings)
  {
    var r := Reconcile(s, pid, ps, now);
    var p := GeminiPortfolios(s.portfolios, uid)[0];
    assert p in r.store.portfolios && IsGeminiPortfolio(p, uid) && p.id == pid;
    if UniqueKeys(s.holdings) then
      ReconcileKeepsUnique(s, pid, ps, now);
      r
    else r
  }

  /** A second sync on the same balances, at any later time, agrees with the
      first on every holding field except the update time, and inserts
      nothing; a first run that succeeded is followed by one that succeeds. */
  lemma SyncGeminiRerun(s: Store, uid: nat, creds: Gemini.Credentials, fetch: Gemini.Fetch, parse: FloatParser, now: int, now': int)
    requires UniqueKeys(s.holdings)
    ensures var first := SyncGemini(s, uid, creds, fetch, parse, now);
            var second := SyncGemini(first.store, uid, creds, fetch, parse, now');
            && (first.failure.None? ==> second.failure.None?)
            && second.store.portfolios == first.store.portfolios
            && |second.store.holdings| == |first.store.holdings|
            && forall i :: 0 <= i < |first.store.holdings| ==>
                 second.store.holdings[i] == first.store.holdings[i].(lastUpdated := second.store.holdings[i].lastUpdated)
  {
    var first := SyncGemini(s, uid, creds, fetch, parse, now);
    var second := SyncGemini(first.store, uid, creds, fetch, parse, now');
    if Gemini.CreateClient(creds).Some? && FindOrCreatePortfolio(s, uid).Ok? {
      var (s1, pid) := FindOrCreatePortfolio(s, uid).value;
      FindOrCreateIdempotent(s, uid);
      if Gemini.GetBalances(fetch, parse).Ok? {
        var ps := Gemini.GetBalances(fetch, parse).value;
        assert first == Reconcile(s1, pid, ps, now);
        assert GeminiPortfolios(first.store.portfolios, uid) == GeminiPortfolios(s1.portfolios, uid);
        assert FindOrCreatePortfolio(first.store, uid) == Ok((first.store, pid));
        assert second == Reconcile(first.store, pid, ps, now');
        ReconcileRerun(s1, pid, ps, now, now');
      } else {
        assert first.store == s1;
        assert second.store == s1;
      }
    }
  }

  /** A sync on a consistent store whose balances arrive succeeds, and every
      balance has a Gemini row in the user's Gemini portfolio carrying the
      last amount reported for it. */
  lemma SyncGeminiConverges(s: Store, uid: nat, creds: Gemini.Credentials, fetch: Gemini.Fetch, parse: FloatParser, now: int, sym: string)
    requires Gemini.CreateClient(creds).Some?
    requires |GeminiPortfolios(s.portfolios, uid)| <= 1 && UniqueKeys(s.holdings)
    requires Gemini.GetBalances(fetch, parse).Ok?
    requires sym in Symbols(Gemini.GetBalances(fetch, parse).value)
    ensures var r := SyncGemini(s, uid, creds, fetch, parse, now);
            var pid := GeminiPortfolios(r.store.portfolios, uid)[0].id;
            && r.failure.None?
            && exists i :: 0 <= i < |r.store.holdings| && KeyOf(r.store.holdings[i]) == (pid, sym)
                           && Reflects(r.store.holdings[i], LastFor(Gemini.GetBalances(fetch, parse).value, sym).value, now)
  {
    var (s1, pid) := FindOrCreatePortfolio(s, uid).value;
    var ps := Gemini.GetBalances(fetch, parse).value;
    ReconcileKeepsUnique(s1, pid, ps, now);
    ReconcileConverges(s1, pid, ps, now, sym);
    var r := Reconcile(s1, pid, ps, now);
    assert GeminiPortfolios(r.store.portfolios, uid) == GeminiPortfolios(s1.portfolios, uid);
  }

  /** `sync_user_portfolios`: one message per run. */
  function SyncUserPortfolios(s: Store, uid: nat, creds: Gemini.Credentials, fetch: Gemini.Fetch, parse: FloatParser, now: int): (r: (Report, Store))
    ensures |r.0.success| + |r.0.errors| == 1
    ensures Gemini.CreateClient(creds).None? ==> r == (Report([], [NotConfiguredText]), s)
    ensures Gemini.CreateClient(creds).Some? ==>
              var a := SyncGemini(s, uid, creds, fetch, parse, now);
              && r.1 == a.store
              && (r.0.success == [SuccessText] <==> a.failure.None?)
              && (a.failure.Some? ==> r.0.errors == [FailurePrefix + a.failure.value])
  {
    if Gemini.CreateClient(creds).None? then (Report([], [NotConfiguredText]), s)
    else
      var a := SyncGemini(s, uid, creds, fetch, parse, now);
      if a.failure.None? then (Report([SuccessText], []), a.store)
      else (Report([], [FailurePrefix + a.failure.value]), a.store)
  }

  /** The inner client check repeats the outer one, so its message never
      reaches the report. */
  lemma ClientMissingNeverReported(s: Store, uid: nat, creds: Gemini.Credentials, fetch: Gemini.Fetch, parse: FloatParser, now: int)
    ensures FailurePrefix + ClientMissingText !in SyncUserPortfolios(s, uid, creds, fetch, parse, now).0.errors
  {
    var report := SyncUserPortfolios(s, uid, creds, fetch, parse, now).0;
    if Gemini.CreateClient(creds).None? {
      assert report.errors == [NotConfiguredText];
      assert NotConfiguredText[1] != (FailurePrefix + ClientMissingText)[1];
    } else {
      var a := SyncGemini(s, uid, creds, fetch, parse, now);
      if a.failure.Some? {
        assert report.errors == [FailurePrefix + a.failure.value];
        Strings.PrefixCancels(FailurePrefix, a.failure.value, ClientMissingText);
      }
    }
  }
}
