/** The Fidelity brokerage client (app/services/fidelity.py): the OAuth token
    cache, the position and transaction mappings, the asset-type mapping and
    the `startDate` parameter.

The client's mutable token fields are the value `TokenCache`, threaded
through every call; the clock `now` is in seconds; the token endpoint's and
the API's responses are parameters.
 */
module Fidelity {
  import opened Wrappers
  import opened JsonValues
  import opened Models
  import Strings
  import Collect

  const TokenFailedText := "Failed to get access token from Fidelity"
  const TimedeltaErrorText := "type object 'datetime.datetime' has no attribute 'timedelta'"
  const RequestFailedPrefix := "Fidelity API request failed: "
  const PositionsFailedPrefix := "Failed to fetch Fidelity positions: "
  const TransactionsFailedPrefix := "Failed to fetch Fidelity transactions: "
  /** The assumed token lifetime: one hour. */
  const TokenLifetime := 3600

  datatype Client = Client(clientId: string, clientSecret: string)

  /** `create_fidelity_client()`: a client only when both settings are non-empty. */
  function CreateClient(clientId: string, clientSecret: string): (r: Option<Client>)
    ensures r.Some? <==> clientId != "" && clientSecret != ""
    ensures r.Some? ==> r.value == Client(clientId, clientSecret)
  {
    if clientId != "" && clientSecret != "" then Some(Client(clientId, clientSecret)) else None
  }

  /** The client's `access_token` and `token_expires_at` fields. */
  datatype TokenCache = TokenCache(accessToken: Option<string>, expiresAt: Option<int>)

  /** A fresh client caches nothing. */
  const EmptyCache := TokenCache(None, None)

  /** The cached token is reused only when both fields are set (the token
      non-empty) and the expiry lies in the future. */
  predicate Reusable(cache: TokenCache, now: int) {
    && cache.accessToken.Some? && cache.accessToken.value != ""
    && cache.expiresAt.Some? && cache.expiresAt.value > now
  }

  /** The token text of a successful token response. */
  function TokenOf(resp: HttpResponse): Result<string> {
    var data :- Body(resp);
    var token :- Index(data, "access_token");
    AsText(token)
  }

  /** `_get_access_token` as written: after a successful fetch it stores the
      token and then raises AttributeError at `datetime.timedelta`, before
      any expiry is stored. */
  function AccessTokenAsWritten(cache: TokenCache, now: int, resp: HttpResponse): (r: (Result<string>, TokenCache))
    ensures Reusable(cache, now) ==> r == (Ok(cache.accessToken.value), cache)
    ensures !Reusable(cache, now) ==> r.0.Err? && r.1.expiresAt == cache.expiresAt
  {
    if Reusable(cache, now) then (Ok(cache.accessToken.value), cache)
    else if resp.status != 200 then (Err(TokenFailedText), cache)
    else
      match TokenOf(resp)
      case Err(e) => (Err(e), cache)
      case Ok(token) => (Err(TimedeltaErrorText), cache.(accessToken := Some(token)))
  }

  /** Starting from a fresh client, no call of the as-written token fetch ever
      yields a token: the expiry stays unset, so nothing is reused, and every
      fetch ends in the AttributeError. */
  lemma AsWrittenNeverYieldsToken(cache: TokenCache, now: int, resp: HttpResponse)
    requires cache.expiresAt.None?
    ensures AccessTokenAsWritten(cache, now, resp).0.Err?
    ensures AccessTokenAsWritten(cache, now, resp).1.expiresAt.None?
  {
  }

  /** A concrete run: a fresh client, a 200 response with a token, and the
      call still fails. */
  lemma AsWrittenFailsOnFreshToken()
    ensures var resp := HttpResponse(200, "", Some(Obj(map["access_token" := Str("t")])));
            AccessTokenAsWritten(EmptyCache, 0, resp) == (Err(TimedeltaErrorText), TokenCache(Some("t"), None))
  {
    var resp := HttpResponse(200, "", Some(Obj(map["access_token" := Str("t")])));
    assert TokenOf(resp) == Ok("t");
  }

  /** `_get_access_token` as evidently intended: a fetched token is stored
      with an expiry one hour ahead and returned. */
  function AccessToken(cache: TokenCache, now: int, resp: HttpResponse): (r: (Result<string>, TokenCache))
    ensures Reusable(cache, now) ==> r == (Ok(cache.accessToken.value), cache)
    ensures !Reusable(cache, now) && resp.status != 200 ==> r == (Err(TokenFailedText), cache)
    ensures !Reusable(cache, now) && resp.status == 200 && TokenOf(resp).Ok? ==>
              r == (Ok(TokenOf(resp).value), TokenCache(Some(TokenOf(resp).value), Some(now + TokenLifetime)))
    ensures r.0.Err? ==> r.1 == cache
  {
    if Reusable(cache, now) then (Ok(cache.accessToken.value), cache)
    else if resp.status != 200 then (Err(TokenFailedText), cache)
    else
      match TokenOf(resp)
      case Err(e) => (Err(e), cache)
      case Ok(token) => (Ok(token), TokenCache(Some(token), Some(now + TokenLifetime)))
  }

  /** A fetched non-empty token is reused, whatever the token endpoint would
      answer, by every call within the following hour. */
  lemma FetchedTokenReused(cache: TokenCache, now: int, resp: HttpResponse, later: int, resp': HttpResponse)
    requires !Reusable(cache, now)
    requires AccessToken(cache, now, resp).0.Ok?
    requires AccessToken(cache, now, resp).0.value != ""
    requires now <= later < now + TokenLifetime
    ensures var (tok, cache') := AccessToken(cache, now, resp);
            AccessToken(cache', later, resp') == (tok, cache')
  {
  }

  /** `_make_request`: the token, then the status check and body decoding. */
  function Request(cache: TokenCache, now: int, authResp: HttpResponse, resp: HttpResponse): (r: (Result<Json>, TokenCache))
    ensures r.1 == AccessToken(cache, now, authResp).1
    ensures AccessToken(cache, now, authResp).0.Err? ==> r.0 == Err(AccessToken(cache, now, authResp).0.msg)
    ensures AccessToken(cache, now, authResp).0.Ok? && resp.status != 200 && resp.status != 201 ==>
              r.0 == Err(RequestFailedPrefix + resp.text)
  {
    var (token, cache') := AccessToken(cache, now, authResp);
    if token.Err? then (Err(token.msg), cache')
    else if resp.status != 200 && resp.status != 201 then (Err(RequestFailedPrefix + resp.text), cache')
    else (Body(resp), cache')
  }

  /** `_make_request` as written, on the as-written token step: it agrees
      with `Request` whenever that step yields a token, which only a reused
      token does. */
  function RequestAsWritten(cache: TokenCache, now: int, authResp: HttpResponse, resp: HttpResponse): (r: (Result<Json>, TokenCache))
    ensures r.1 == AccessTokenAsWritten(cache, now, authResp).1
    ensures AccessTokenAsWritten(cache, now, authResp).0.Err? ==> r.0 == Err(AccessTokenAsWritten(cache, now, authResp).0.msg)
    ensures AccessTokenAsWritten(cache, now, authResp).0.Ok? ==> r == Request(cache, now, authResp, resp)
  {
    var (token, cache') := AccessTokenAsWritten(cache, now, authResp);
    if token.Err? then (Err(token.msg), cache')
    else if resp.status != 200 && resp.status != 201 then (Err(RequestFailedPrefix + resp.text), cache')
    else (Body(resp), cache')
  }

  /** The names `_map_asset_type` recognises, after upper-casing. */
  function TypeFromName(name: string): AssetType {
    if name == "STOCK" then Stock
    else if name == "ETF" then Etf
    else if name == "MUTUAL_FUND" then MutualFund
    else if name == "BOND" then Bond
    else if name == "CASH" then Cash
    else Stock
  }

  /** The Fidelity name of an asset type; crypto has none. */
  function SecurityTypeName(t: AssetType): Option<string> {
    match t
    case Stock => Some("STOCK")
    case Etf => Some("ETF")
    case MutualFund => Some("MUTUAL_FUND")
    case Bond => Some("BOND")
    case Cash => Some("CASH")
    case Crypto => None
  }

  /** `_map_asset_type(position.get("securityType"))`: `.upper()` raises on
      anything but text (a missing type is `None`). */
  function MapAssetType(v: Json): (r: Result<AssetType>)
    ensures r.Ok? <==> v.Str?
    ensures r.Ok? ==> r.value != Crypto
  {
    var name :- AsText(v);
    Ok(TypeFromName(Strings.Upper(name)))
  }

  /** The mapping ignores case: names with the same upper-case form map alike. */
  lemma MapAssetTypeIgnoresCase(s: string, t: string)
    requires Strings.Upper(s) == Strings.Upper(t)
    ensures MapAssetType(Str(s)) == MapAssetType(Str(t))
  {
  }

  /** Every type with a Fidelity name is recovered from that name, in upper
      or lower case; every text that upper-cases to none of the names maps
      to STOCK. */
  lemma MapAssetTypeRoundTrip(t: AssetType, s: string)
    requires SecurityTypeName(t).Some?
    requires s == SecurityTypeName(t).value || s == Strings.Lower(SecurityTypeName(t).value)
    ensures MapAssetType(Str(s)) == Ok(t)
  {
    var name := SecurityTypeName(t).value;
    forall i | 0 <= i < |name|
      ensures Strings.UpperChar(Strings.LowerChar(name[i])) == name[i]
    {
    }
    assert Strings.Upper(Strings.Lower(name)) == name;
    assert Strings.Upper(name) == name;
  }

  lemma UnknownNameIsStock(s: string)
    requires forall t :: SecurityTypeName(t) != Some(Strings.Upper(s))
    ensures MapAssetType(Str(s)) == Ok(Stock)
  {
    assert SecurityTypeName(Stock) == Some("STOCK");
    assert SecurityTypeName(Etf) == Some("ETF");
    assert SecurityTypeName(MutualFund) == Some("MUTUAL_FUND");
    assert SecurityTypeName(Bond) == Some("BOND");
    assert SecurityTypeName(Cash) == Some("CASH");
  }

  /** One entry of `get_portfolio_positions`. */
  function PositionOutcome(p: Json, parse: FloatParser): (r: Result<Position>)
    ensures r.Ok? ==> Index(p, "symbol") == Ok(Str(r.value.assetSymbol))
    ensures r.Ok? ==> Get(p, "securityType", Null).Ok? && MapAssetType(Get(p, "securityType", Null).value) == Ok(r.value.assetType)
    ensures r.Ok? ==> Index(p, "quantity").Ok? && ToFloat(Index(p, "quantity").value, parse) == Ok(r.value.quantity)
    ensures r.Ok? ==> Index(p, "currentPrice").Ok? && ToFloat(Index(p, "currentPrice").value, parse) == Ok(r.value.currentPrice)
    ensures r.Ok? && r.value.quantity <= 0.0 ==> r.value.averagePrice == 0.0
    ensures r.Ok? && r.value.quantity > 0.0 ==>
              AsNumber(Get(p, "costBasis", Num(0.0)).value).Ok?
              && r.value.averagePrice * r.value.quantity == AsNumber(Get(p, "costBasis", Num(0.0)).value).value
    ensures r.Ok? ==> r.value.platform == Fidelity
    ensures p.Obj? && "securityType" !in p.fields ==> r.Err?
  {
    var symbolValue :- Index(p, "symbol");
    var symbol :- AsText(symbolValue);
    var typeValue :- Get(p, "securityType", Null);
    var assetType :- MapAssetType(typeValue);
    var quantityValue :- Index(p, "quantity");
    var quantity :- ToFloat(quantityValue, parse);
    var priceValue :- Index(p, "currentPrice");
    var price :- ToFloat(priceValue, parse);
    var average :-
      if quantity > 0.0 then
        var costValue :- Get(p, "costBasis", Num(0.0));
        var cost :- AsNumber(costValue);
        Ok(cost / quantity)
      else Ok(0.0);
    Ok(Position(symbol, assetType, quantity, price, average, Fidelity))
  }

  function PositionStep(parse: FloatParser): Json -> Result<Position> {
    p => PositionOutcome(p, parse)
  }

  function PositionRows(data: Result<Json>, parse: FloatParser): Result<seq<Position>> {
    var response :- data;
    var list :- Get(response, "positions", Arr([]));
    var rows :- Rows(list);
    Collect.MapResult(rows, PositionStep(parse))
  }

  /** `get_portfolio_positions`: every failure, the token fetch included,
      carries the same prefix. */
  function GetPositions(cache: TokenCache, now: int, authResp: HttpResponse, resp: HttpResponse,
                        parse: FloatParser): (r: (Result<seq<Position>>, TokenCache))
    ensures r.1 == AccessToken(cache, now, authResp).1
    ensures r.0.Err? ==> Strings.StartsWith(r.0.msg, PositionsFailedPrefix)
  {
    var (data, cache') := Request(cache, now, authResp, resp);
    (PositionRows(data, parse).WithPrefix(PositionsFailedPrefix), cache')
  }

  /** `get_portfolio_positions` as written, on the as-written token step. */
  function GetPositionsAsWritten(cache: TokenCache, now: int, authResp: HttpResponse, resp: HttpResponse,
                                 parse: FloatParser): (r: (Result<seq<Position>>, TokenCache))
    ensures r.1 == AccessTokenAsWritten(cache, now, authResp).1
    ensures r.0.Err? ==> Strings.StartsWith(r.0.msg, PositionsFailedPrefix)
  {
    var (data, cache') := RequestAsWritten(cache, now, authResp, resp);
    (PositionRows(data, parse).WithPrefix(PositionsFailedPrefix), cache')
  }

  /** A new client, a 200 token response and an empty position list: as
      written the fetch fails with the AttributeError; as intended it yields
      no positions. */
  lemma AsWrittenPositionsFailOnFreshClient(parse: FloatParser)
    ensures var auth := HttpResponse(200, "", Some(Obj(map["access_token" := Str("t")])));
            var resp := HttpResponse(200, "", Some(Obj(map["positions" := Arr([])])));
            && GetPositionsAsWritten(EmptyCache, 0, auth, resp, parse).0 == Err(PositionsFailedPrefix + TimedeltaErrorText)
            && GetPositions(EmptyCache, 0, auth, resp, parse).0 == Ok([])
  {
    var auth := HttpResponse(200, "", Some(Obj(map["access_token" := Str("t")])));
    var resp := HttpResponse(200, "", Some(Obj(map["positions" := Arr([])])));
    assert TokenOf(auth) == Ok("t");
    assert Get(Obj(map["positions" := Arr([])]), "positions", Arr([])) == Ok(Arr([]));
  }

  /** Positions map one-to-one and in order; the average price is the cost
      basis per unit (zero when the quantity is not positive). */
  lemma PositionsOneToOne(cache: TokenCache, now: int, authResp: HttpResponse, resp: HttpResponse,
                          parse: FloatParser, rows: seq<Json>)
    requires Request(cache, now, authResp, resp).0.Ok?
    requires Get(Request(cache, now, authResp, resp).0.value, "positions", Arr([])) == Ok(Arr(rows))
    requires GetPositions(cache, now, authResp, resp, parse).0.Ok?
    ensures var ps := GetPositions(cache, now, authResp, resp, parse).0.value;
            && |ps| == |rows|
            && forall i :: 0 <= i < |rows| ==> PositionOutcome(rows[i], parse) == Ok(ps[i])
  {
    var f := PositionStep(parse);
    var ps := GetPositions(cache, now, authResp, resp, parse).0.value;
    assert Collect.MapResult(rows, f) == Ok(ps);
    forall i | 0 <= i < |rows|
      ensures PositionOutcome(rows[i], parse) == Ok(ps[i])
    {
      assert f(rows[i]) == Ok(ps[i]);
    }
  }

  /** A position without `securityType` aborts the whole fetch. */
  lemma MissingSecurityTypeAborts(cache: TokenCache, now: int, authResp: HttpResponse, resp: HttpResponse,
                                  parse: FloatParser, rows: seq<Json>, i: nat)
    requires Request(cache, now, authResp, resp).0.Ok?
    requires Get(Request(cache, now, authResp, resp).0.value, "positions", Arr([])) == Ok(Arr(rows))
    requires i < |rows| && rows[i].Obj? && "securityType" !in rows[i].fields
    ensures GetPositions(cache, now, authResp, resp, parse).0.Err?
  {
    var f := PositionStep(parse);
    assert f(rows[i]).Err?;
  }

  /** A calendar date. */
  datatype Date = Date(year: nat, month: nat, day: nat)

  predicate FourDigitDate(d: Date) {
    1000 <= d.year <= 9999 && 1 <= d.month <= 12 && 1 <= d.day <= 31
  }

  /** `d.strftime("%Y-%m-%d")`. */
  function FormatDate(d: Date): (r: string)
    requires FourDigitDate(d)
    ensures |r| == 10
  {
    FourDigits(d.year);
    Strings.DecimalString(d.year) + "-" + Strings.Pad2(d.month) + "-" + Strings.Pad2(d.day)
  }

  lemma FourDigits(n: nat)
    requires 1000 <= n <= 9999
    ensures |Strings.DecimalString(n)| == 4
  {
    var a := n / 10;
    var b := a / 10;
    var c := b / 10;
    assert 100 <= a <= 999 && 10 <= b <= 99 && 1 <= c <= 9;
    assert |Strings.DecimalString(c)| == 1;
    assert |Strings.DecimalString(b)| == 2;
    assert |Strings.DecimalString(a)| == 3;
  }

  /** Reading a "YYYY-MM-DD" text back. */
  function ParseDate(s: string): Option<Date> {
    if |s| == 10 && s[4] == '-' && s[7] == '-'
       && (forall i :: 0 <= i < 10 && i != 4 && i != 7 ==> Strings.IsDigit(s[i]))
    then Some(Date(Strings.ParseDecimal(s[..4]), Strings.ParseDecimal(s[5..7]), Strings.ParseDecimal(s[8..])))
    else None
  }

  lemma ParseTwoDigits(s: string)
    requires |s| == 2 && Strings.IsDigit(s[0]) && Strings.IsDigit(s[1])
    ensures Strings.ParseDecimal(s) == 10 * Strings.DigitValue(s[0]) + Strings.DigitValue(s[1])
  {
    var head := s[..1];
    assert head[..0] == [];
    assert Strings.ParseDecimal(head) == Strings.DigitValue(s[0]);
    assert s[..|s| - 1] == head;
  }

  /** The `startDate` text reads back as the date it was formatted from. */
  lemma {:induction false} FormatDateRoundTrip(d: Date)
    requires FourDigitDate(d)
    ensures ParseDate(FormatDate(d)) == Some(d)
  {
    var y := Strings.DecimalString(d.year);
    var m := Strings.Pad2(d.month);
    var dd := Strings.Pad2(d.day);
    FourDigits(d.year);
    var s := FormatDate(d);
    assert s == y + "-" + m + "-" + dd;
    assert s[..4] == y;
    assert s[5..7] == m;
    assert s[8..] == dd;
    ParseTwoDigits(m);
    ParseTwoDigits(dd);
    assert forall i :: 0 <= i < 4 ==> s[i] == y[i];
    assert forall i :: 5 <= i < 7 ==> s[i] == m[i - 5];
    assert forall i :: 8 <= i < 10 ==> s[i] == dd[i - 8];
  }

  /** The request parameters of `get_transactions`. */
  function TransactionParams(startDate: Option<Date>): (r: map<string, string>)
    requires startDate.Some? ==> FourDigitDate(startDate.value)
    ensures "startDate" in r <==> startDate.Some?
    ensures startDate.Some? ==> ParseDate(r["startDate"]) == startDate
    ensures r.Keys <= {"startDate"}
  {
    if startDate.Some? then
      FormatDateRoundTrip(startDate.value);
      map["startDate" := FormatDate(startDate.value)]
    else map[]
  }

  /** One entry of `get_transactions`. */
  function TransactionOutcome(tx: Json, parse: FloatParser): (r: Result<TradeRecord>)
    ensures r.Ok? ==> exists t :: Index(tx, "type") == Ok(Str(t)) && r.value.transactionType == Strings.Lower(t)
    ensures r.Ok? ==> Index(tx, "symbol") == Ok(Str(r.value.assetSymbol))
    ensures r.Ok? ==> Index(tx, "quantity").Ok? && ToFloat(Index(tx, "quantity").value, parse) == Ok(r.value.quantity)
    ensures r.Ok? ==> Index(tx, "price").Ok? && ToFloat(Index(tx, "price").value, parse) == Ok(r.value.price)
    ensures r.Ok? ==> r.value.platform == Fidelity && r.value.timestamp.Iso?
    ensures r.Ok? ==> Index(tx, "transactionDate") == Ok(Str(r.value.timestamp.text))
  {
    var kindValue :- Index(tx, "type");
    var kind :- AsText(kindValue);
    var symbolValue :- Index(tx, "symbol");
    var symbol :- AsText(symbolValue);
    var quantityValue :- Index(tx, "quantity");
    var quantity :- ToFloat(quantityValue, parse);
    var priceValue :- Index(tx, "price");
    var price :- ToFloat(priceValue, parse);
    var dateValue :- Index(tx, "transactionDate");
    var date :- AsText(dateValue);
    Ok(TradeRecord(Strings.Lower(kind), symbol, quantity, price, Iso(date), Fidelity))
  }

  function TransactionStep(parse: FloatParser): Json -> Result<TradeRecord> {
    t => TransactionOutcome(t, parse)
  }

  function TransactionRows(data: Result<Json>, parse: FloatParser): Result<seq<TradeRecord>> {
    var response :- data;
    var list :- Get(response, "transactions", Arr([]));
    var rows :- Rows(list);
    Collect.MapResult(rows, TransactionStep(parse))
  }

  /** `get_transactions`: the response is the one the API gives for the
      request parameters. */
  function GetTransactions(startDate: Option<Date>, cache: TokenCache, now: int, authResp: HttpResponse,
                           fetch: map<string, string> -> HttpResponse, parse: FloatParser)
    : (r: (Result<seq<TradeRecord>>, TokenCache))
    requires startDate.Some? ==> FourDigitDate(startDate.value)
    ensures r.1 == AccessToken(cache, now, authResp).1
    ensures r.0.Err? ==> Strings.StartsWith(r.0.msg, TransactionsFailedPrefix)
  {
    var params := TransactionParams(startDate);
    var (data, cache') := Request(cache, now, authResp, fetch(params));
    (TransactionRows(data, parse).WithPrefix(TransactionsFailedPrefix), cache')
  }

  /** `get_transactions` as written, on the as-written token step. */
  function GetTransactionsAsWritten(startDate: Option<Date>, cache: TokenCache, now: int, authResp: HttpResponse,
                                    fetch: map<string, string> -> HttpResponse, parse: FloatParser)
    : (r: (Result<seq<TradeRecord>>, TokenCache))
    requires startDate.Some? ==> FourDigitDate(startDate.value)
    ensures r.1 == AccessTokenAsWritten(cache, now, authResp).1
    ensures r.0.Err? ==> Strings.StartsWith(r.0.msg, TransactionsFailedPrefix)
  {
    var params := TransactionParams(startDate);
    var (data, cache') := RequestAsWritten(cache, now, authResp, fetch(params));
    (TransactionRows(data, parse).WithPrefix(TransactionsFailedPrefix), cache')
  }

  /** As written, a client whose expiry was never stored, as every new
      client's is, gets neither positions nor transactions, whatever the
      responses, and its expiry stays unset. */
  lemma AsWrittenFetchesFail(cache: TokenCache, now: int, authResp: HttpResponse, resp: HttpResponse,
                             startDate: Option<Date>, fetch: map<string, string> -> HttpResponse, parse: FloatParser)
    requires cache.expiresAt.None?
    requires startDate.Some? ==> FourDigitDate(startDate.value)
    ensures GetPositionsAsWritten(cache, now, authResp, resp, parse).0.Err?
    ensures GetPositionsAsWritten(cache, now, authResp, resp, parse).1.expiresAt.None?
    ensures GetTransactionsAsWritten(startDate, cache, now, authResp, fetch, parse).0.Err?
    ensures GetTransactionsAsWritten(startDate, cache, now, authResp, fetch, parse).1.expiresAt.None?
  {
    AsWrittenNeverYieldsToken(cache, now, authResp);
  }

  /** Transactions map one-to-one and in order. */
  lemma TransactionsOneToOne(startDate: Option<Date>, cache: TokenCache, now: int, authResp: HttpResponse,
                             fetch: map<string, string> -> HttpResponse, parse: FloatParser, rows: seq<Json>)
    requires startDate.Some? ==> FourDigitDate(startDate.value)
    requires Request(cache, now, authResp, fetch(TransactionParams(startDate))).0.Ok?
    requires Get(Request(cache, now, authResp, fetch(TransactionParams(startDate))).0.value, "transactions", Arr([]))
             == Ok(Arr(rows))
    requires GetTransactions(startDate, cache, now, authResp, fetch, parse).0.Ok?
    ensures var ts := GetTransactions(startDate, cache, now, authResp, fetch, parse).0.value;
            && |ts| == |rows|
            && forall i :: 0 <= i < |rows| ==> TransactionOutcome(rows[i], parse) == Ok(ts[i])
  {
    var f := TransactionStep(parse);
    var ts := GetTransactions(startDate, cache, now, authResp, fetch, parse).0.value;
    assert Collect.MapResult(rows, f) == Ok(ts);
    forall i | 0 <= i < |rows|
      ensures TransactionOutcome(rows[i], parse) == Ok(ts[i])
    {
      assert f(rows[i]) == Ok(ts[i]);
    }
  }
}
