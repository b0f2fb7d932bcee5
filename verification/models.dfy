/** The persisted entities (users, portfolios, holdings, transactions,
    platform credentials), the normalised shapes the platform clients
    produce, and the database as one immutable value.

Tables are sequences in insertion order; primary keys come from one
counter per table. A query `select ... where ...` followed by
`scalar_one_or_none()` is `OneOrNone` over the rows that satisfy the filter.
 */
module Models {
  import opened Wrappers

  datatype AssetType = Stock | Crypto | Etf | MutualFund | Bond | Cash

  datatype Platform = Fidelity | Gemini | Manual

  /** The enum's `.value`. */
  function AssetTypeValue(t: AssetType): string {
    match t
    case Stock => "stock"
    case Crypto => "crypto"
    case Etf => "etf"
    case MutualFund => "mutual_fund"
    case Bond => "bond"
    case Cash => "cash"
  }

  /** The enum's `.value`. */
  function PlatformValue(p: Platform): string {
    match p
    case Fidelity => "fidelity"
    case Gemini => "gemini"
    case Manual => "manual"
  }

  datatype User = User(id: nat, email: string, hashedPassword: string, fullName: string)

  /** `user_id` is a nullable foreign key. */
  datatype Portfolio = Portfolio(id: nat, userId: Option<nat>, name: string, description: Option<string>)

  /** `lastUpdated` is a clock reading. */
  datatype Holding = Holding(
    id: nat,
    portfolioId: nat,
    assetSymbol: string,
    assetType: AssetType,
    quantity: real,
    averagePrice: real,
    platform: Platform,
    lastUpdated: int)

  datatype Transaction = Transaction(
    id: nat,
    holdingId: nat,
    transactionType: string,
    quantity: real,
    price: real,
    timestamp: int,
    platform: Platform)

  datatype PlatformCredential = PlatformCredential(
    id: nat,
    userId: nat,
    platform: Platform,
    apiKey: string,
    apiSecret: string,
    accessToken: Option<string>,
    refreshToken: Option<string>,
    expiresAt: Option<int>)

  /** A normalised position, as a platform client returns it. */
  datatype Position = Position(
    assetSymbol: string,
    assetType: AssetType,
    quantity: real,
    currentPrice: real,
    averagePrice: real,
    platform: Platform)

  /** A trade time: epoch seconds, or the text of an ISO-8601 date-time. */
  datatype Timestamp = Epoch(seconds: real) | Iso(text: string)

  /** A normalised transaction, as a platform client returns it. */
  datatype TradeRecord = TradeRecord(
    transactionType: string,
    assetSymbol: string,
    quantity: real,
    price: real,
    timestamp: Timestamp,
    platform: Platform)

  /** The claims of a decoded access token; `sub` is the user id. */
  datatype Claims = Claims(sub: Option<nat>)

  datatype Store = Store(
    users: seq<User>,
    portfolios: seq<Portfolio>,
    holdings: seq<Holding>,
    transactions: seq<Transaction>,
    nextUserId: nat,
    nextPortfolioId: nat,
    nextHoldingId: nat)

  /** Every primary key was drawn from its table's counter. */
  predicate FreshCounters(s: Store) {
    && (forall i :: 0 <= i < |s.users| ==> s.users[i].id < s.nextUserId)
    && (forall i :: 0 <= i < |s.portfolios| ==> s.portfolios[i].id < s.nextPortfolioId)
    && (forall i :: 0 <= i < |s.holdings| ==> s.holdings[i].id < s.nextHoldingId)
  }

  const MultipleRowsText := "Multiple rows were found when one or none was required"

  /** `scalar_one_or_none()` over the matching rows. */
  function OneOrNone<T>(rows: seq<T>): (r: Result<Option<T>>)
    ensures r == Ok(None) <==> |rows| == 0
    ensures r.Ok? && r.value.Some? <==> |rows| == 1
    ensures |rows| == 1 ==> r == Ok(Some(rows[0]))
    ensures r.Err? <==> |rows| > 1
  {
    if |rows| == 0 then Ok(None)
    else if |rows| == 1 then Ok(Some(rows[0]))
    else Err(MultipleRowsText)
  }

  /** A holding's sync key: (portfolio_id, asset_symbol). */
  type Key = (nat, string)

  function KeyOf(h: Holding): Key {
    (h.portfolioId, h.assetSymbol)
  }

  function Keys(hs: seq<Holding>): (r: seq<Key>)
    ensures |r| == |hs|
    ensures forall i :: 0 <= i < |hs| ==> r[i] == KeyOf(hs[i])
  {
    seq(|hs|, i requires 0 <= i < |hs| => KeyOf(hs[i]))
  }

  /** The positions holding `k`, in increasing order. */
  function Occurrences(ks: seq<Key>, k: Key): (r: seq<nat>)
    ensures forall j :: 0 <= j < |r| ==> r[j] < |ks| && ks[r[j]] == k
    ensures forall i :: 0 <= i < |ks| && ks[i] == k ==> i in r
    ensures forall a, b :: 0 <= a < b < |r| ==> r[a] < r[b]
  {
    OccurrencesFrom(ks, k, 0)
  }

  function OccurrencesFrom(ks: seq<Key>, k: Key, from: nat): (r: seq<nat>)
    requires from <= |ks|
    ensures forall j :: 0 <= j < |r| ==> from <= r[j] < |ks| && ks[r[j]] == k
    ensures forall i :: from <= i < |ks| && ks[i] == k ==> i in r
    ensures forall a, b :: 0 <= a < b < |r| ==> r[a] < r[b]
    decreases |ks| - from
  {
    if from == |ks| then []
    else if ks[from] == k then [from] + OccurrencesFrom(ks, k, from + 1)
    else OccurrencesFrom(ks, k, from + 1)
  }

  /** At most one holding per (portfolio, symbol). */
  predicate UniqueKeys(hs: seq<Holding>) {
    forall i, j :: 0 <= i < j < |hs| ==> KeyOf(hs[i]) != KeyOf(hs[j])
  }

  /** No position from `from` on holds `k`: nothing is found. */
  lemma {:induction false} AbsentNoOccurrences(ks: seq<Key>, k: Key, from: nat)
    requires from <= |ks|
    requires forall i :: from <= i < |ks| ==> ks[i] != k
    ensures OccurrencesFrom(ks, k, from) == []
    decreases |ks| - from
  {
    if from < |ks| {
      AbsentNoOccurrences(ks, k, from + 1);
    }
  }

  lemma {:induction false} DistinctOccursOnce(ks: seq<Key>, k: Key, from: nat)
    requires from <= |ks|
    requires forall i, j :: from <= i < j < |ks| ==> ks[i] != ks[j]
    ensures |OccurrencesFrom(ks, k, from)| <= 1
    decreases |ks| - from
  {
    if from < |ks| {
      if ks[from] == k {
        AbsentNoOccurrences(ks, k, from + 1);
      } else {
        DistinctOccursOnce(ks, k, from + 1);
      }
    }
  }

  /** With unique keys, a key occurs at most once. */
  lemma UniqueOccursOnce(hs: seq<Holding>, k: Key)
    requires UniqueKeys(hs)
    ensures |Occurrences(Keys(hs), k)| <= 1
  {
    DistinctOccursOnce(Keys(hs), k, 0);
  }

  /** A key occurring at most once everywhere means unique keys. */
  lemma OccursOnceUnique(hs: seq<Holding>)
    requires forall k :: |Occurrences(Keys(hs), k)| <= 1
    ensures UniqueKeys(hs)
  {
    forall i, j | 0 <= i < j < |hs|
      ensures KeyOf(hs[i]) != KeyOf(hs[j])
    {
      var occ := Occurrences(Keys(hs), KeyOf(hs[i]));
      assert i in occ;
      assert KeyOf(hs[j]) == KeyOf(hs[i]) ==> j in occ;
    }
  }

  /** The holdings of portfolio `pid`, in table order (`portfolio.holdings`). */
  function HoldingsOf(s: Store, pid: nat): (r: seq<Holding>)
    ensures forall h :: h in r ==> h in s.holdings && h.portfolioId == pid
  {
    Filter(s.holdings, pid)
  }

  function Filter(hs: seq<Holding>, pid: nat): (r: seq<Holding>)
    ensures forall h :: h in r ==> h in hs && h.portfolioId == pid
    ensures forall h :: h in hs && h.portfolioId == pid ==> h in r
  {
    if |hs| == 0 then []
    else
      var rest := Filter(hs[1..], pid);
      if hs[0].portfolioId == pid then [hs[0]] + rest else rest
  }

  /** The transactions of holding `hid`, in table order (`holding.transactions`). */
  function TransactionsOf(txs: seq<Transaction>, hid: nat): (r: seq<Transaction>)
    ensures forall t :: t in r ==> t in txs && t.holdingId == hid
    ensures forall t :: t in txs && t.holdingId == hid ==> t in r
  {
    if |txs| == 0 then []
    else
      var rest := TransactionsOf(txs[1..], hid);
      if txs[0].holdingId == hid then [txs[0]] + rest else rest
  }

  /** `Filter` keeps table order: the holdings of a concatenation are those
      of each part, in turn. */
  lemma {:induction false} FilterAppend(a: seq<Holding>, b: seq<Holding>, pid: nat)
    ensures Filter(a + b, pid) == Filter(a, pid) + Filter(b, pid)
  {
    if |a| == 0 {
      assert a + b == b;
    } else {
      assert (a + b)[1..] == a[1..] + b;
      FilterAppend(a[1..], b, pid);
    }
  }

  /** `Filter` keeps every matching holding as often as the table holds it,
      and no other. */
  lemma {:induction false} FilterCount(hs: seq<Holding>, pid: nat, h: Holding)
    ensures multiset(Filter(hs, pid))[h] == if h.portfolioId == pid then multiset(hs)[h] else 0
  {
    if |hs| > 0 {
      assert hs == [hs[0]] + hs[1..];
      FilterCount(hs[1..], pid, h);
    }
  }

  /** `TransactionsOf` keeps table order. */
  lemma {:induction false} TransactionsOfAppend(a: seq<Transaction>, b: seq<Transaction>, hid: nat)
    ensures TransactionsOf(a + b, hid) == TransactionsOf(a, hid) + TransactionsOf(b, hid)
  {
    if |a| == 0 {
      assert a + b == b;
    } else {
      assert (a + b)[1..] == a[1..] + b;
      TransactionsOfAppend(a[1..], b, hid);
    }
  }

  /** `TransactionsOf` keeps every transaction of the holding as often as the
      table holds it, and no other. */
  lemma {:induction false} TransactionsOfCount(txs: seq<Transaction>, hid: nat, t: Transaction)
    ensures multiset(TransactionsOf(txs, hid))[t] == if t.holdingId == hid then multiset(txs)[t] else 0
  {
    if |txs| > 0 {
      assert txs == [txs[0]] + txs[1..];
      TransactionsOfCount(txs[1..], hid, t);
    }
  }
}
