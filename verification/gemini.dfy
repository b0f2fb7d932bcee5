/** The Gemini exchange client (app/services/gemini.py): the credential check
    of its constructor, the signed payload, the balance-to-position mapping
    and the trade-to-transaction mapping.

The network is a parameter `fetch`: the response the API gives to a request
for an endpoint with a given (unsigned) payload. Base64, JSON encoding and
HMAC-SHA384 are parameters too; the clock is the millisecond reading `nowMs`.
 */
module Gemini {
  import opened Wrappers
  import opened JsonValues
  import opened Models
  import Strings
  import Collect

  const BaseUrl := "https://api.gemini.com/v1"
  const SignedRequestPath := "/v1/balances"
  const CredentialsMissingText := "Gemini API credentials not found in environment variables"
  const RequestFailedPrefix := "Gemini API request failed: "
  const BalancesFailedPrefix := "Failed to fetch Gemini balances: "
  const TradesFailedPrefix := "Failed to fetch Gemini trades: "

  /** GEMINI_API_KEY and GEMINI_API_SECRET from the process configuration. */
  datatype Credentials = Credentials(apiKey: string, apiSecret: string)

  datatype Client = Client(apiKey: string, apiSecret: string)

  /** A request payload: the JSON object that is signed. */
  type Payload = map<string, string>

  type Fetch = (string, Payload) -> HttpResponse

  /** `GeminiAPI()`: raises ValueError unless both settings are non-empty. */
  function NewClient(c: Credentials): (r: Result<Client>)
    ensures r.Ok? <==> c.apiKey != "" && c.apiSecret != ""
    ensures r.Ok? ==> r.value == Client(c.apiKey, c.apiSecret)
    ensures r.Err? ==> r.msg == CredentialsMissingText
  {
    if c.apiKey == "" || c.apiSecret == "" then Err(CredentialsMissingText)
    else Ok(Client(c.apiKey, c.apiSecret))
  }

  /** `create_gemini_client()`: the ValueError becomes `None`. */
  function CreateClient(c: Credentials): (r: Option<Client>)
    ensures r.Some? <==> NewClient(c).Ok?
    ensures r.Some? ==> r.value.apiKey == c.apiKey && r.value.apiSecret == c.apiSecret
  {
    match NewClient(c)
    case Ok(client) => Some(client)
    case Err(_) => None
  }

  /** What `_generate_signature` produces: the payload after its update,
      the encoded payload, the signature and the nonce. */
  datatype Signature = Signature(payload: Payload, encoded: string, signature: string, nonce: string)

  /** `_generate_signature`: the caller's payload with "request" forced to
      "/v1/balances" (whatever endpoint is called) and "nonce" set to the
      decimal millisecond clock, then encoded and signed. */
  function Sign(client: Client, payload: Payload, nowMs: nat,
                encode: Payload -> string, hmac: (string, string) -> string): (r: Signature)
    ensures r.payload.Keys == payload.Keys + {"request", "nonce"}
    ensures r.payload["request"] == SignedRequestPath
    ensures r.payload["nonce"] == r.nonce
    ensures forall k :: k in payload && k != "request" && k != "nonce" ==> r.payload[k] == payload[k]
    ensures |r.nonce| > 0 && forall i :: 0 <= i < |r.nonce| ==> Strings.IsDigit(r.nonce[i])
    ensures Strings.ParseDecimal(r.nonce) == nowMs
    ensures r.encoded == encode(r.payload)
    ensures r.signature == hmac(client.apiSecret, r.encoded)
  {
    var nonce := Strings.DecimalString(nowMs);
    var signed := payload["request" := SignedRequestPath]["nonce" := nonce];
    var encoded := encode(signed);
    Signature(signed, encoded, hmac(client.apiSecret, encoded), nonce)
  }

  /** The headers `_make_request` sends. */
  function Headers(client: Client, sig: Signature): (r: map<string, string>)
    ensures "X-GEMINI-APIKEY" in r && r["X-GEMINI-APIKEY"] == client.apiKey
    ensures "X-GEMINI-PAYLOAD" in r && r["X-GEMINI-PAYLOAD"] == sig.encoded
    ensures "X-GEMINI-SIGNATURE" in r && r["X-GEMINI-SIGNATURE"] == sig.signature
  {
    map[
      "Content-Type" := "text/plain",
      "Content-Length" := "0",
      "X-GEMINI-APIKEY" := client.apiKey,
      "X-GEMINI-PAYLOAD" := sig.encoded,
      "X-GEMINI-SIGNATURE" := sig.signature,
      "Cache-Control" := "no-cache"
    ]
  }

  /** The status check and body decoding of `_make_request`. */
  function Decode(resp: HttpResponse): (r: Result<Json>)
    ensures resp.status != 200 && resp.status != 201 ==> r == Err(RequestFailedPrefix + resp.text)
    ensures r.Ok? <==> (resp.status == 200 || resp.status == 201) && resp.body.Some?
    ensures r.Ok? ==> r.value == resp.body.value
  {
    if resp.status != 200 && resp.status != 201 then Err(RequestFailedPrefix + resp.text)
    else Body(resp)
  }

  /** The `amount` of a balance or trade, through `float(...)`. */
  function Amount(row: Json, parse: FloatParser): Result<real> {
    var a :- Index(row, "amount");
    ToFloat(a, parse)
  }

  /** One iteration of the loop in `get_balances`: `None` for a balance whose
      amount is not positive, otherwise the position, after one ticker request. */
  function BalanceOutcome(balance: Json, fetch: Fetch, parse: FloatParser): (r: Result<Option<Position>>)
    ensures r.Ok? ==> Amount(balance, parse).Ok?
    ensures r.Ok? ==> (r.value.Some? <==> Amount(balance, parse).value > 0.0)
    ensures r.Ok? && r.value.Some? ==>
              var p := r.value.value;
              && Index(balance, "currency") == Ok(Str(p.assetSymbol))
              && p.assetType == Crypto
              && p.quantity == Amount(balance, parse).value
              && p.platform == Gemini
              && Get(balance, "avg_price", Num(0.0)).Ok?
              && ToFloat(Get(balance, "avg_price", Num(0.0)).value, parse) == Ok(p.averagePrice)
              && Decode(fetch("pubticker/" + p.assetSymbol + "usd", map[])).Ok?
              && var ticker := Decode(fetch("pubticker/" + p.assetSymbol + "usd", map[])).value;
                 Index(ticker, "last").Ok? && ToFloat(Index(ticker, "last").value, parse) == Ok(p.currentPrice)
  {
    var amount :- Amount(balance, parse);
    if amount <= 0.0 then Ok(None)
    else
      var currency :- Index(balance, "currency");
      var symbol :- AsText(currency);
      var ticker :- Decode(fetch("pubticker/" + symbol + "usd", map[]));
      var last :- Index(ticker, "last");
      var price :- ToFloat(last, parse);
      var avg :- Get(balance, "avg_price", Num(0.0));
      var average :- ToFloat(avg, parse);
      Ok(Some(Position(symbol, Crypto, amount, price, average, Gemini)))
  }

  /** `get_balances`. */
  function GetBalances(fetch: Fetch, parse: FloatParser): (r: Result<seq<Position>>)
    ensures r.Err? ==> Strings.StartsWith(r.msg, BalancesFailedPrefix)
    ensures fetch("balances", map[]).status != 200 && fetch("balances", map[]).status != 201 ==>
              r == Err(BalancesFailedPrefix + RequestFailedPrefix + fetch("balances", map[]).text)
  {
    BalanceRows(fetch, parse).WithPrefix(BalancesFailedPrefix)
  }

  /** The loop of `get_balances` up to the filter: one outcome per balance,
      in order; the first failing balance aborts the loop. */
  function BalanceOutcomes(rows: seq<Json>, fetch: Fetch, parse: FloatParser): (r: Result<seq<Option<Position>>>)
    ensures r.Ok? ==> |r.value| == |rows|
    ensures r.Ok? ==> forall i :: 0 <= i < |rows| ==> BalanceOutcome(rows[i], fetch, parse) == Ok(r.value[i])
    ensures r.Err? ==> exists i :: 0 <= i < |rows| && BalanceOutcome(rows[i], fetch, parse) == Err(r.msg)
                                   && forall j :: 0 <= j < i ==> BalanceOutcome(rows[j], fetch, parse).Ok?
  {
    if |rows| == 0 then Ok([])
    else
      var first :- BalanceOutcome(rows[0], fetch, parse);
      var rest :- BalanceOutcomes(rows[1..], fetch, parse);
      Ok([first] + rest)
  }

  function BalanceRows(fetch: Fetch, parse: FloatParser): Result<seq<Position>> {
    var balances :- Decode(fetch("balances", map[]));
    var rows :- Rows(balances);
    var outcomes :- BalanceOutcomes(rows, fetch, parse);
    Ok(Collect.Somes(outcomes))
  }

  /** Only balances with a positive amount become positions, in their input
      order, each through `BalanceOutcome`. */
  lemma BalancesKeepPositiveInOrder(fetch: Fetch, parse: FloatParser, rows: seq<Json>)
    requires Decode(fetch("balances", map[])) == Ok(Arr(rows))
    requires GetBalances(fetch, parse).Ok?
    ensures var ps := GetBalances(fetch, parse).value;
            exists idx: seq<nat> ::
              && |idx| == |ps|
              && (forall a, b :: 0 <= a < b < |idx| ==> idx[a] < idx[b])
              && (forall k :: 0 <= k < |idx| ==>
                    idx[k] < |rows| && BalanceOutcome(rows[idx[k]], fetch, parse) == Ok(Some(ps[k])))
              && (forall i :: 0 <= i < |rows| ==>
                    Amount(rows[i], parse).Ok? && (i in idx <==> Amount(rows[i], parse).value > 0.0))
  {
    var outcomes := BalanceOutcomes(rows, fetch, parse).value;
    assert GetBalances(fetch, parse).value == Collect.Somes(outcomes);
    OutcomesInOrder(fetch, parse, rows, outcomes);
  }

  lemma OutcomesInOrder(fetch: Fetch, parse: FloatParser, rows: seq<Json>, outcomes: seq<Option<Position>>)
    requires |outcomes| == |rows|
    requires forall i :: 0 <= i < |rows| ==> BalanceOutcome(rows[i], fetch, parse) == Ok(outcomes[i])
    ensures var idx, ps := Collect.SomeIndices(outcomes), Collect.Somes(outcomes);
            && |idx| == |ps|
            && (forall a, b :: 0 <= a < b < |idx| ==> idx[a] < idx[b])
            && (forall k :: 0 <= k < |idx| ==>
                  idx[k] < |rows| && BalanceOutcome(rows[idx[k]], fetch, parse) == Ok(Some(ps[k])))
            && (forall i :: 0 <= i < |rows| ==>
                  Amount(rows[i], parse).Ok? && (i in idx <==> Amount(rows[i], parse).value > 0.0))
  {
    Collect.SomesAtIndices(outcomes);
  }

  /** The payload of `get_trades`: a "symbol" entry only for a non-empty
      symbol filter. */
  function TradesPayload(symbol: Option<string>): (r: Payload)
    ensures "symbol" in r <==> symbol.Some? && symbol.value != ""
    ensures "symbol" in r ==> r["symbol"] == symbol.value + "USD"
    ensures r.Keys <= {"symbol"}
  {
    if symbol.Some? && symbol.value != "" then map["symbol" := symbol.value + "USD"] else map[]
  }

  /** One iteration of the loop in `get_trades`. */
  function TradeOutcome(trade: Json, parse: FloatParser): (r: Result<TradeRecord>)
    ensures r.Ok? ==> Amount(trade, parse).Ok?
    ensures r.Ok? ==> (r.value.transactionType == "buy" <==> Amount(trade, parse).value > 0.0)
    ensures r.Ok? ==> (r.value.transactionType == "sell" <==> Amount(trade, parse).value <= 0.0)
    ensures r.Ok? ==> r.value.quantity >= 0.0
    ensures r.Ok? ==> (r.value.quantity == Amount(trade, parse).value || r.value.quantity == -Amount(trade, parse).value)
    ensures r.Ok? ==> exists s :: Index(trade, "symbol") == Ok(Str(s)) && r.value.assetSymbol == Strings.Take(s, 3)
    ensures r.Ok? ==> Index(trade, "price").Ok? && ToFloat(Index(trade, "price").value, parse) == Ok(r.value.price)
    ensures r.Ok? ==> r.value.platform == Gemini && r.value.timestamp.Epoch?
    ensures r.Ok? ==> Index(trade, "timestamp").Ok? &&
                      ToFloat(Index(trade, "timestamp").value, parse) == Ok(r.value.timestamp.seconds)
  {
    var amount :- Amount(trade, parse);
    var kind := if amount > 0.0 then "buy" else "sell";
    var symbolValue :- Index(trade, "symbol");
    var symbol :- AsText(symbolValue);
    var priceValue :- Index(trade, "price");
    var price :- ToFloat(priceValue, parse);
    var timeValue :- Index(trade, "timestamp");
    var seconds :- ToFloat(timeValue, parse);
    var quantity := if amount < 0.0 then -amount else amount;
    Ok(TradeRecord(kind, Strings.Take(symbol, 3), quantity, price, Epoch(seconds), Gemini))
  }

  /** `get_trades`. */
  function GetTrades(symbol: Option<string>, fetch: Fetch, parse: FloatParser): (r: Result<seq<TradeRecord>>)
    ensures r.Err? ==> Strings.StartsWith(r.msg, TradesFailedPrefix)
  {
    TradeRows(symbol, fetch, parse).WithPrefix(TradesFailedPrefix)
  }

  function TradeStep(parse: FloatParser): Json -> Result<TradeRecord> {
    t => TradeOutcome(t, parse)
  }

  function TradeRows(symbol: Option<string>, fetch: Fetch, parse: FloatParser): Result<seq<TradeRecord>> {
    var trades :- Decode(fetch("mytrades", TradesPayload(symbol)));
    var rows :- Rows(trades);
    Collect.MapResult(rows, TradeStep(parse))
  }

  /** Trades map one-to-one and in order; no quantity is negative. */
  lemma TradesOneToOne(symbol: Option<string>, fetch: Fetch, parse: FloatParser, rows: seq<Json>)
    requires Decode(fetch("mytrades", TradesPayload(symbol))) == Ok(Arr(rows))
    requires GetTrades(symbol, fetch, parse).Ok?
    ensures var ts := GetTrades(symbol, fetch, parse).value;
            && |ts| == |rows|
            && (forall i :: 0 <= i < |rows| ==> TradeOutcome(rows[i], parse) == Ok(ts[i]))
            && (forall i :: 0 <= i < |rows| ==> ts[i].quantity >= 0.0)
  {
    var f := TradeStep(parse);
    var ts := GetTrades(symbol, fetch, parse).value;
    assert Collect.MapResult(rows, f) == Ok(ts);
    forall i | 0 <= i < |rows|
      ensures TradeOutcome(rows[i], parse) == Ok(ts[i]) && ts[i].quantity >= 0.0
    {
      assert f(rows[i]) == Ok(ts[i]);
    }
  }

  /** The first three characters of the symbol give back a symbol filter
      `s` from its trade symbol `s + "USD"` exactly when `s` has three
      characters. */
  lemma TruncationRecoversFilter(s: string)
    ensures Strings.Take(s + "USD", 3) == s <==> |s| == 3
  {
    if |s| == 3 {
      assert (s + "USD")[..3] == s;
    }
  }
}
