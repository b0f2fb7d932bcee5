/** The portfolio API (app/api/v1/endpoints/portfolio.py): the bearer-token
    dependency, the ownership guard every per-portfolio endpoint applies,
    the store effects of creating portfolios and holdings, the flattening of
    transactions handed to the analysis, and the sync endpoint.

Endpoints take the caller's id as `get_current_user_id` yields it: the
token's `sub` claim, which may be absent. The comparison
`Portfolio.user_id == current_user_id` is SQL equality with NULL folded to
`IS NULL`, which `p.userId == caller` on options models. The analysis and
insight generators are parameters.
 */
module PortfolioEndpoints {
  import opened Wrappers
  import opened Models
  import opened JsonValues
  import Gemini
  import PortfolioSync

  const NotValidatedText := "Could not validate credentials"
  const PortfolioNotFoundText := "Portfolio not found"

  /** `decode_access_token`: the claims of a valid token. */
  type TokenDecoder = string -> Option<Claims>

  /** `get_current_user_id`: 401 for an undecodable token, else the `sub` claim. */
  function CurrentUserId(token: string, decode: TokenDecoder): (r: HttpOutcome<Option<nat>>)
    ensures r.HttpError? <==> decode(token).None?
    ensures r.HttpError? ==> r.status == 401 && r.detail == NotValidatedText
    ensures r.Answer? ==> r.value == decode(token).value.sub
  {
    match decode(token)
    case None => HttpError(401, NotValidatedText)
    case Some(claims) => Answer(claims.sub)
  }

  /** The filter of every guarded lookup: the id and the owner both match. */
  predicate Owns(p: Portfolio, pid: nat, caller: Option<nat>) {
    p.id == pid && p.userId == caller
  }

  /** Primary keys are distinct. */
  predicate PortfolioIdsUnique(ps: seq<Portfolio>) {
    forall i, j :: 0 <= i < j < |ps| ==> ps[i].id != ps[j].id
  }

  /** The rows of the guarded lookup, in table order. */
  function OwnedRows(ps: seq<Portfolio>, pid: nat, caller: Option<nat>): (r: seq<Portfolio>)
    ensures forall p :: p in r <==> p in ps && Owns(p, pid, caller)
  {
    if |ps| == 0 then []
    else
      var last := ps[|ps| - 1];
      OwnedRows(ps[..|ps| - 1], pid, caller) + (if Owns(last, pid, caller) then [last] else [])
  }

  /** With distinct ids the guarded lookup yields at most one row. */
  lemma {:induction false} OwnedRowsAtMostOne(ps: seq<Portfolio>, pid: nat, caller: Option<nat>)
    requires PortfolioIdsUnique(ps)
    ensures |OwnedRows(ps, pid, caller)| <= 1
  {
    if |ps| > 0 {
      var init := ps[..|ps| - 1];
      assert PortfolioIdsUnique(init) by {
        forall i, j | 0 <= i < j < |init|
          ensures init[i].id != init[j].id
        {
          assert init[i] == ps[i] && init[j] == ps[j];
        }
      }
      OwnedRowsAtMostOne(init, pid, caller);
      if Owns(ps[|ps| - 1], pid, caller) {
        forall p | p in init
          ensures !Owns(p, pid, caller)
        {
          var i :| 0 <= i < |init| && init[i] == p;
          assert ps[i] == p;
        }
        NoneOwnedNoRows(init, pid, caller);
      }
    }
  }

  lemma {:induction false} NoneOwnedNoRows(ps: seq<Portfolio>, pid: nat, caller: Option<nat>)
    requires forall p :: p in ps ==> !Owns(p, pid, caller)
    ensures OwnedRows(ps, pid, caller) == []
  {
    if |ps| > 0 {
      assert ps[|ps| - 1] in ps;
      var init := ps[..|ps| - 1];
      assert forall p :: p in init ==> p in ps;
      NoneOwnedNoRows(init, pid, caller);
    }
  }

  lemma OwnedRowsFacts(ps: seq<Portfolio>, pid: nat, caller: Option<nat>)
    ensures PortfolioIdsUnique(ps) ==> |OwnedRows(ps, pid, caller)| <= 1
    ensures |OwnedRows(ps, pid, caller)| > 0 ==> OwnedRows(ps, pid, caller)[0] in ps
  {
    if PortfolioIdsUnique(ps) {
      OwnedRowsAtMostOne(ps, pid, caller);
    }
    var rows := OwnedRows(ps, pid, caller);
    if |rows| > 0 {
      assert rows[0] in rows;
    }
  }

  /** The ownership guard: the caller's portfolio `pid`, 404 otherwise. */
  function OwnedPortfolio(s: Store, pid: nat, caller: Option<nat>): (r: HttpOutcome<Portfolio>)
    ensures r.Answer? ==> r.value in s.portfolios && Owns(r.value, pid, caller)
    ensures (r.HttpError? && r.status == 404) <==> forall p :: p in s.portfolios ==> !Owns(p, pid, caller)
    ensures r.HttpError? && r.status == 404 ==> r.detail == PortfolioNotFoundText
    ensures PortfolioIdsUnique(s.portfolios) ==> r.Answer? || r.status == 404
    ensures r.HttpError? && r.status != 404 ==> r == HttpError(500, InternalErrorText)
  {
    var rows := OwnedRows(s.portfolios, pid, caller);
    OwnedRowsFacts(s.portfolios, pid, caller);
    match OneOrNone(rows)
    case Err(_) => HttpError(500, InternalErrorText)
    case Ok(None) => HttpError(404, PortfolioNotFoundText)
    case Ok(Some(p)) => Answer(p)
  }

  /** Two failures with the same status and detail. */
  predicate SameError<A, B>(a: HttpOutcome<A>, b: HttpOutcome<B>) {
    a.HttpError? && b.HttpError? && a.status == b.status && a.detail == b.detail
  }

  /** A portfolio with its holdings (`PortfolioWithHoldings`). */
  datatype PortfolioView = PortfolioView(portfolio: Portfolio, holdings: seq<Holding>)

  /** `read_portfolio`: the caller's portfolio and its holdings, never another
      user's. */
  function ReadPortfolio(s: Store, pid: nat, caller: Option<nat>): (r: HttpOutcome<PortfolioView>)
    ensures r.Answer? <==> OwnedPortfolio(s, pid, caller).Answer?
    ensures r.HttpError? ==> SameError(r, OwnedPortfolio(s, pid, caller))
    ensures r.Answer? ==> r.value.portfolio in s.portfolios && r.value.portfolio.userId == caller
                          && r.value.portfolio.id == pid
    ensures r.Answer? ==> forall h :: h in r.value.holdings <==> h in s.holdings && h.portfolioId == pid
  {
    match OwnedPortfolio(s, pid, caller)
    case HttpError(code, detail) => HttpError(code, detail)
    case Answer(p) => Answer(PortfolioView(p, HoldingsOf(s, pid)))
  }

  /** The intended query of `get_portfolios`: the caller's portfolios. */
  function ListPortfolios(s: Store, user: User): (r: seq<Portfolio>)
    ensures forall p :: p in r <==> p in s.portfolios && p.userId == Some(user.id)
    decreases |s.portfolios|
  {
    if |s.portfolios| == 0 then []
    else
      var rest := ListPortfolios(s.(portfolios := s.portfolios[1..]), user);
      var p := s.portfolios[0];
      assert forall q :: q in s.portfolios <==> q == p || q in s.portfolios[1..];
      if p.userId == Some(user.id) then [p] + rest else rest
  }

  /** Every listed portfolio can be read by its owner. */
  lemma ListedAreReadable(s: Store, user: User, p: Portfolio)
    requires PortfolioIdsUnique(s.portfolios)
    requires p in ListPortfolios(s, user)
    ensures ReadPortfolio(s, p.id, Some(user.id)) == Answer(PortfolioView(p, HoldingsOf(s, p.id)))
  {
    OwnedRowsAtMostOne(s.portfolios, p.id, Some(user.id));
    var rows := OwnedRows(s.portfolios, p.id, Some(user.id));
    assert p in rows;
  }

  /** `PortfolioCreate`: the client-supplied fields. */
  datatype PortfolioCreate = PortfolioCreate(name: string, description: Option<string>)

  /** Ids stay below the counter and distinct. */
  predicate PortfolioTableSound(s: Store) {
    && PortfolioIdsUnique(s.portfolios)
    && forall i :: 0 <= i < |s.portfolios| ==> s.portfolios[i].id < s.nextPortfolioId
  }

  /** `create_portfolio`: the new row is owned by the caller, whatever the body. */
  function CreatePortfolio(s: Store, caller: Option<nat>, body: PortfolioCreate): (r: (Portfolio, Store))
    ensures r.0.userId == caller && r.0.name == body.name && r.0.description == body.description
    ensures r.1.portfolios == s.portfolios + [r.0]
    ensures r.1 == s.(portfolios := r.1.portfolios, nextPortfolioId := r.1.nextPortfolioId)
    ensures PortfolioTableSound(s) ==> PortfolioTableSound(r.1)
    ensures FreshCounters(s) ==> FreshCounters(r.1)
  {
    var p := Portfolio(s.nextPortfolioId, caller, body.name, body.description);
    (p, s.(portfolios := s.portfolios + [p], nextPortfolioId := s.nextPortfolioId + 1))
  }

  /** The creator can read the new portfolio; nobody else can. */
  lemma CreatedPortfolioReadable(s: Store, caller: Option<nat>, body: PortfolioCreate, other: Option<nat>)
    requires PortfolioTableSound(s)
    requires other != caller
    ensures var (p, s') := CreatePortfolio(s, caller, body);
            && ReadPortfolio(s', p.id, caller).Answer?
            && ReadPortfolio(s', p.id, caller).value.portfolio == p
            && ReadPortfolio(s', p.id, other) == HttpError(404, PortfolioNotFoundText)
  {
    var (p, s') := CreatePortfolio(s, caller, body);
    OwnedRowsAtMostOne(s'.portfolios, p.id, caller);
    assert p in OwnedRows(s'.portfolios, p.id, caller) by {
      assert s'.portfolios[|s.portfolios|] == p;
    }
  }

  /** `HoldingCreate`: the body carries its own `portfolio_id`. */
  datatype HoldingCreate = HoldingCreate(
    assetSymbol: string,
    assetType: AssetType,
    quantity: real,
    averagePrice: real,
    platform: Platform,
    portfolioId: nat)

  /** The row `HoldingModel(**holding.dict())` stores, under portfolio `pid`. */
  function NewHolding(s: Store, pid: nat, body: HoldingCreate, now: int): (h: Holding)
    ensures h.id == s.nextHoldingId && h.portfolioId == pid && h.lastUpdated == now
    ensures h.assetSymbol == body.assetSymbol && h.assetType == body.assetType && h.platform == body.platform
    ensures h.quantity == body.quantity && h.averagePrice == body.averagePrice
  {
    Holding(s.nextHoldingId, pid, body.assetSymbol, body.assetType, body.quantity, body.averagePrice, body.platform, now)
  }

  /** Some portfolio has id `pid`: what the foreign key on
      `holdings.portfolio_id` (app/models/portfolio.py:47) demands of a new row. */
  predicate PortfolioExists(s: Store, pid: nat) {
    exists p :: p in s.portfolios && p.id == pid
  }

  /** `create_holding` as written: the guard checks the path id, the row is
      stored under the body's id. A body naming no portfolio breaks the
      foreign key at the commit; the session rolls back (app/core/database.py:27-29)
      and the request answers 500. */
  function CreateHoldingAsWritten(s: Store, pathPid: nat, caller: Option<nat>, body: HoldingCreate, now: int): (r: (HttpOutcome<Holding>, Store))
    ensures r.0.Answer? <==> OwnedPortfolio(s, pathPid, caller).Answer? && PortfolioExists(s, body.portfolioId)
    ensures OwnedPortfolio(s, pathPid, caller).Answer? && !PortfolioExists(s, body.portfolioId) ==>
              r.0 == HttpError(500, InternalErrorText)
    ensures r.0.HttpError? ==> r.1 == s
    ensures r.0.Answer? ==> r.0.value.portfolioId == body.portfolioId && r.1.holdings == s.holdings + [r.0.value]
  {
    match OwnedPortfolio(s, pathPid, caller)
    case HttpError(code, detail) => (HttpError(code, detail), s)
    case Answer(_) =>
      if !PortfolioExists(s, body.portfolioId) then (HttpError(500, InternalErrorText), s)
      else
        var h := NewHolding(s, body.portfolioId, body, now);
        (Answer(h), s.(holdings := s.holdings + [h], nextHoldingId := s.nextHoldingId + 1))
  }

  /** User 1 owns portfolio 1 and posts to it a holding whose body names
      portfolio 2, owned by user 2: the holding lands in user 2's portfolio. */
  lemma AsWrittenWritesForeignPortfolio()
    ensures var s := Store([], [Portfolio(1, Some(1), "mine", None), Portfolio(2, Some(2), "theirs", None)], [], [], 3, 3, 0);
            var body := HoldingCreate("AAPL", Stock, 1.0, 100.0, Fidelity, 2);
            var r := CreateHoldingAsWritten(s, 1, Some(1), body, 0);
            && r.0.Answer?
            && r.0.value.portfolioId == 2
            && r.0.value in r.1.holdings
            && Portfolio(2, Some(2), "theirs", None) in r.1.portfolios
  {
    var s := Store([], [Portfolio(1, Some(1), "mine", None), Portfolio(2, Some(2), "theirs", None)], [], [], 3, 3, 0);
    var rows := OwnedRows(s.portfolios, 1, Some(1));
    var first := s.portfolios[..1];
    assert first == [Portfolio(1, Some(1), "mine", None)];
    assert first[..0] == [];
    assert OwnedRows(first, 1, Some(1)) == [Portfolio(1, Some(1), "mine", None)];
    assert rows == [Portfolio(1, Some(1), "mine", None)];
  }

  /** `create_holding` as evidently intended: the row goes to the portfolio
      the guard checked. */
  function CreateHolding(s: Store, pathPid: nat, caller: Option<nat>, body: HoldingCreate, now: int): (r: (HttpOutcome<Holding>, Store))
    ensures r.0.Answer? <==> OwnedPortfolio(s, pathPid, caller).Answer?
    ensures r.0.HttpError? ==> r.1 == s
    ensures r.0.Answer? ==> r.1.holdings == s.holdings + [r.0.value]
    ensures r.0.Answer? ==> exists p :: p in r.1.portfolios && p.id == r.0.value.portfolioId && p.userId == caller
  {
    match OwnedPortfolio(s, pathPid, caller)
    case HttpError(code, detail) => (HttpError(code, detail), s)
    case Answer(p) =>
      var h := NewHolding(s, pathPid, body, now);
      (Answer(h), s.(holdings := s.holdings + [h], nextHoldingId := s.nextHoldingId + 1))
  }

  /** When the body repeats the path id, the written and the intended endpoint
      agree. */
  lemma CreateHoldingAgreesOnMatchingId(s: Store, pathPid: nat, caller: Option<nat>, body: HoldingCreate, now: int)
    requires body.portfolioId == pathPid
    ensures CreateHoldingAsWritten(s, pathPid, caller, body, now) == CreateHolding(s, pathPid, caller, body, now)
  {
  }

  /** One holding as handed to the insight generator. */
  datatype HoldingSummary = HoldingSummary(assetSymbol: string, assetType: string, quantity: real, averagePrice: real, platform: string)

  datatype PortfolioData = PortfolioData(id: nat, name: string, holdings: seq<HoldingSummary>)

  /** `portfolio_data`: one summary per holding, in order, enums by value. */
  function DataOf(p: Portfolio, hs: seq<Holding>): (r: PortfolioData)
    ensures r.id == p.id && r.name == p.name && |r.holdings| == |hs|
    ensures forall i :: 0 <= i < |hs| ==>
              && r.holdings[i].assetSymbol == hs[i].assetSymbol
              && r.holdings[i].assetType == AssetTypeValue(hs[i].assetType)
              && r.holdings[i].quantity == hs[i].quantity
              && r.holdings[i].averagePrice == hs[i].averagePrice
              && r.holdings[i].platform == PlatformValue(hs[i].platform)
  {
    PortfolioData(p.id, p.name, seq(|hs|, i requires 0 <= i < |hs| =>
      HoldingSummary(hs[i].assetSymbol, AssetTypeValue(hs[i].assetType), hs[i].quantity, hs[i].averagePrice, PlatformValue(hs[i].platform))))
  }

  /** `get_portfolio_insights`: the guard, then the generator on the data. */
  function Insights(s: Store, pid: nat, caller: Option<nat>, generate: PortfolioData -> Json): (r: HttpOutcome<Json>)
    ensures r.Answer? <==> OwnedPortfolio(s, pid, caller).Answer?
    ensures r.HttpError? ==> SameError(r, OwnedPortfolio(s, pid, caller))
    ensures r.Answer? ==> r.value == generate(DataOf(OwnedPortfolio(s, pid, caller).value, HoldingsOf(s, pid)))
  {
    match OwnedPortfolio(s, pid, caller)
    case HttpError(code, detail) => HttpError(code, detail)
    case Answer(p) => Answer(generate(DataOf(p, HoldingsOf(s, pid))))
  }

  /** One transaction as handed to the analysis, tagged with its holding's symbol. */
  datatype TxEntry = TxEntry(assetSymbol: string, transactionType: string, quantity: real, price: real, timestamp: int, platform: string)

  function EntryOf(h: Holding, t: Transaction): TxEntry {
    TxEntry(h.assetSymbol, t.transactionType, t.quantity, t.price, t.timestamp, PlatformValue(t.platform))
  }

  /** The inner loop: the entries of one holding's transactions, in order. */
  function Entries(h: Holding, ts: seq<Transaction>): (r: seq<TxEntry>)
    ensures |r| == |ts| && forall i :: 0 <= i < |ts| ==> r[i] == EntryOf(h, ts[i])
  {
    seq(|ts|, i requires 0 <= i < |ts| => EntryOf(h, ts[i]))
  }

  /** The nested loop over holdings and their transactions. */
  function Flatten(hs: seq<Holding>, txs: seq<Transaction>): (r: seq<TxEntry>)
    ensures forall h, t :: h in hs && t in txs && t.holdingId == h.id ==> EntryOf(h, t) in r
    ensures forall e :: e in r ==> exists h, t :: h in hs && t in txs && t.holdingId == h.id && e == EntryOf(h, t)
  {
    if |hs| == 0 then []
    else
      var ts := TransactionsOf(txs, hs[0].id);
      var head := Entries(hs[0], ts);
      var rest := Flatten(hs[1..], txs);
      assert forall t :: t in ts ==> EntryOf(hs[0], t) in head by {
        forall t | t in ts
          ensures EntryOf(hs[0], t) in head
        {
          var i :| 0 <= i < |ts| && ts[i] == t;
          assert head[i] == EntryOf(hs[0], t);
        }
      }
      assert forall h :: h in hs ==> h == hs[0] || h in hs[1..];
      head + rest
  }

  /** Entries follow holding order: the entries of a prefix of the holdings
      come first. */
  lemma {:induction false} FlattenAppend(a: seq<Holding>, b: seq<Holding>, txs: seq<Transaction>)
    ensures Flatten(a + b, txs) == Flatten(a, txs) + Flatten(b, txs)
  {
    if |a| == 0 {
      assert a + b == b;
    } else {
      assert (a + b)[0] == a[0];
      assert (a + b)[1..] == a[1..] + b;
      FlattenAppend(a[1..], b, txs);
    }
  }

  /** A single holding contributes one entry per transaction of its own, in
      table order; with `FlattenAppend` this fixes the whole list. */
  lemma FlattenSingle(h: Holding, txs: seq<Transaction>)
    ensures Flatten([h], txs) == Entries(h, TransactionsOf(txs, h.id))
  {
    assert [h][1..] == [];
  }

  /** The ids of the holdings. */
  function HoldingIds(hs: seq<Holding>): (r: set<nat>)
    ensures forall x :: x in r <==> exists i :: 0 <= i < |hs| && hs[i].id == x
  {
    if |hs| == 0 then {}
    else
      assert forall i :: 0 < i < |hs| ==> hs[i] == hs[1..][i - 1];
      {hs[0].id} + HoldingIds(hs[1..])
  }

  /** The number of transactions that belong to one of the holdings `ids`. */
  function CountFor(txs: seq<Transaction>, ids: set<nat>): nat {
    if |txs| == 0 then 0
    else (if txs[0].holdingId in ids then 1 else 0) + CountFor(txs[1..], ids)
  }

  lemma CountForNone(txs: seq<Transaction>)
    ensures CountFor(txs, {}) == 0
  {
  }

  lemma {:induction false} CountForSplit(txs: seq<Transaction>, hid: nat, ids: set<nat>)
    requires hid !in ids
    ensures CountFor(txs, {hid} + ids) == |TransactionsOf(txs, hid)| + CountFor(txs, ids)
  {
    if |txs| > 0 {
      CountForSplit(txs[1..], hid, ids);
    }
  }

  /** One entry per transaction: over holdings with distinct ids, there are
      exactly as many entries as the table has transactions of those
      holdings. */
  lemma {:induction false} FlattenOnePerTransaction(hs: seq<Holding>, txs: seq<Transaction>)
    requires forall i, j :: 0 <= i < j < |hs| ==> hs[i].id != hs[j].id
    ensures |Flatten(hs, txs)| == CountFor(txs, HoldingIds(hs))
  {
    if |hs| == 0 {
      CountForNone(txs);
    } else {
      var rest := hs[1..];
      FlattenOnePerTransaction(rest, txs);
      forall i | 0 <= i < |rest|
        ensures rest[i].id != hs[0].id
      {
        assert rest[i] == hs[i + 1];
      }
      CountForSplit(txs, hs[0].id, HoldingIds(rest));
      assert HoldingIds(hs) == {hs[0].id} + HoldingIds(rest);
    }
  }


  /** `get_transaction_analysis`: the guard, then the analysis on the entries. */
  function TransactionAnalysis(s: Store, pid: nat, caller: Option<nat>, analyze: seq<TxEntry> -> Json): (r: HttpOutcome<Json>)
    ensures r.Answer? <==> OwnedPortfolio(s, pid, caller).Answer?
    ensures r.HttpError? ==> SameError(r, OwnedPortfolio(s, pid, caller))
    ensures r.Answer? ==> r.value == analyze(Flatten(HoldingsOf(s, pid), s.transactions))
  {
    match OwnedPortfolio(s, pid, caller)
    case HttpError(code, detail) => HttpError(code, detail)
    case Answer(_) => Answer(analyze(Flatten(HoldingsOf(s, pid), s.transactions)))
  }

  /** Reading, insights and transaction analysis share one guard. */
  lemma GuardsAgree(s: Store, pid: nat, caller: Option<nat>, generate: PortfolioData -> Json, analyze: seq<TxEntry> -> Json)
    ensures ReadPortfolio(s, pid, caller).Answer? == Insights(s, pid, caller, generate).Answer?
    ensures Insights(s, pid, caller, generate).Answer? == TransactionAnalysis(s, pid, caller, analyze).Answer?
    ensures CreateHolding(s, pid, caller, HoldingCreate("", Stock, 0.0, 0.0, Gemini, pid), 0).0.Answer?
            == ReadPortfolio(s, pid, caller).Answer?
  {
  }

  /** `sync_portfolios`: the service report, unchanged. */
  function SyncPortfolios(s: Store, user: User, creds: Gemini.Credentials, fetch: Gemini.Fetch, parse: FloatParser, now: int): (r: (PortfolioSync.Report, Store))
    ensures |r.0.success| + |r.0.errors| == 1
    ensures r == PortfolioSync.SyncUserPortfolios(s, user.id, creds, fetch, parse, now)
  {
    PortfolioSync.SyncUserPortfolios(s, user.id, creds, fetch, parse, now)
  }
}
