/** The CoinGecko price service (app/services/coingecko_service.py): the
    request parameters and the shaping of the price, history and
    multi-coin responses.

The HTTP call is the parameter `fetch`, from (url, query parameters) to a
response; `datetime.fromtimestamp` is represented by the seconds it is given.
 */
module CoinGecko {
  import opened Wrappers
  import opened JsonValues
  import Strings
  import Collect

  const BaseUrl := "https://api.coingecko.com/api/v3"
  const PriceUrl := BaseUrl + "/simple/price"
  const ApiErrorPrefix := "CoinGecko API error: "
  const MultipleFailedPrefix := "Failed to fetch multiple crypto prices: "

  type Params = map<string, string>
  type Fetch = (string, Params) -> HttpResponse

  function NotFoundText(coinId: string): string {
    "Crypto " + coinId + " not found"
  }

  function PriceFailedPrefix(coinId: string): string {
    "Failed to fetch crypto price for " + coinId + ": "
  }

  function HistoryFailedPrefix(coinId: string): string {
    "Failed to fetch price history for " + coinId + ": "
  }

  function HistoryUrl(coinId: string): string {
    BaseUrl + "/coins/" + coinId + "/market_chart"
  }

  /** The query of `/simple/price` for the comma-separated `ids`. */
  function QuoteParams(ids: string): (r: Params)
    ensures "ids" in r && r["ids"] == ids
    ensures "vs_currencies" in r && r["vs_currencies"] == "usd"
    ensures r.Keys == {"ids", "vs_currencies", "include_market_cap", "include_24hr_vol",
                       "include_24hr_change", "include_last_updated_at"}
  {
    map["ids" := ids, "vs_currencies" := "usd", "include_market_cap" := "true",
        "include_24hr_vol" := "true", "include_24hr_change" := "true",
        "include_last_updated_at" := "true"]
  }

  /** One coin's market data; the money fields are passed through as the
      response gives them. */
  datatype Quote = Quote(
    id: string,
    currentPrice: Json,
    marketCap: Json,
    volume24h: Json,
    priceChange24h: Json,
    lastUpdated: real)

  /** The record built from `data[coin_id]`. */
  function QuoteOf(coinId: string, coin: Json): (r: Result<Quote>)
    ensures r.Ok? <==> coin.Obj? && "usd" in coin.fields && "usd_market_cap" in coin.fields
                       && "usd_24h_vol" in coin.fields && "usd_24h_change" in coin.fields
                       && "last_updated_at" in coin.fields && AsNumber(coin.fields["last_updated_at"]).Ok?
    ensures r.Ok? ==> r.value == Quote(coinId, coin.fields["usd"], coin.fields["usd_market_cap"],
                                       coin.fields["usd_24h_vol"], coin.fields["usd_24h_change"],
                                       AsNumber(coin.fields["last_updated_at"]).value)
  {
    var price :- Index(coin, "usd");
    var cap :- Index(coin, "usd_market_cap");
    var volume :- Index(coin, "usd_24h_vol");
    var change :- Index(coin, "usd_24h_change");
    var updatedValue :- Index(coin, "last_updated_at");
    var updated :- AsNumber(updatedValue);
    Ok(Quote(coinId, price, cap, volume, change, updated))
  }

  function PriceBody(coinId: string, resp: HttpResponse): Result<Quote> {
    if resp.status != 200 then Err(ApiErrorPrefix + resp.text)
    else
      var data :- Body(resp);
      var present :- Contains(data, coinId);
      if !present then Err(NotFoundText(coinId))
      else
        var coin :- Index(data, coinId);
        QuoteOf(coinId, coin)
  }

  /** `get_crypto_price`. */
  function GetCryptoPrice(coinId: string, fetch: Fetch): (r: Result<Quote>)
    ensures var resp := fetch(PriceUrl, QuoteParams(coinId));
            && (resp.status != 200 ==> r == Err(PriceFailedPrefix(coinId) + ApiErrorPrefix + resp.text))
            && (resp.status == 200 && resp.body.Some? && resp.body.value.Obj? && coinId !in resp.body.value.fields
                ==> r == Err(PriceFailedPrefix(coinId) + NotFoundText(coinId)))
            && (r.Ok? ==> resp.status == 200 && resp.body.Some?
                          && resp.body.value.Obj? && coinId in resp.body.value.fields
                          && QuoteOf(coinId, resp.body.value.fields[coinId]) == r)
    ensures r.Err? ==> Strings.StartsWith(r.msg, PriceFailedPrefix(coinId))
    ensures r.Ok? ==> r.value.id == coinId
  {
    PriceBody(coinId, fetch(PriceUrl, QuoteParams(coinId))).WithPrefix(PriceFailedPrefix(coinId))
  }

  /** The query of `/coins/{id}/market_chart`. */
  function HistoryParams(days: int): (r: Params)
    ensures "days" in r && r["days"] == Strings.IntToString(days)
    ensures r.Keys == {"vs_currency", "days", "interval"}
  {
    map["vs_currency" := "usd", "days" := Strings.IntToString(days), "interval" := "daily"]
  }

  /** One day of history: seconds since the epoch and the price as given. */
  datatype PricePoint = PricePoint(timestamp: real, price: Json)

  /** One `[milliseconds, price]` pair. */
  function PointOf(pair: Json): (r: Result<PricePoint>)
    ensures r.Ok? <==> pair.Arr? && |pair.items| >= 2 && AsNumber(pair.items[0]).Ok?
    ensures r.Ok? ==> r.value.timestamp * 1000.0 == AsNumber(pair.items[0]).value
    ensures r.Ok? ==> r.value.price == pair.items[1]
  {
    var msValue :- At(pair, 0);
    var ms :- AsNumber(msValue);
    var price :- At(pair, 1);
    Ok(PricePoint(ms / 1000.0, price))
  }

  function PointStep(): Json -> Result<PricePoint> {
    pair => PointOf(pair)
  }

  function HistoryBody(resp: HttpResponse): Result<seq<PricePoint>> {
    if resp.status != 200 then Err(ApiErrorPrefix + resp.text)
    else
      var data :- Body(resp);
      var prices :- Index(data, "prices");
      var rows :- Rows(prices);
      Collect.MapResult(rows, PointStep())
  }

  /** `get_crypto_history`. */
  function GetCryptoHistory(coinId: string, days: int, fetch: Fetch): (r: Result<seq<PricePoint>>)
    ensures var resp := fetch(HistoryUrl(coinId), HistoryParams(days));
            resp.status != 200 ==> r == Err(HistoryFailedPrefix(coinId) + ApiErrorPrefix + resp.text)
    ensures r.Err? ==> Strings.StartsWith(r.msg, HistoryFailedPrefix(coinId))
  {
    HistoryBody(fetch(HistoryUrl(coinId), HistoryParams(days))).WithPrefix(HistoryFailedPrefix(coinId))
  }

  /** History has one point per pair, in order, with the time in seconds. */
  lemma HistoryOneToOne(coinId: string, days: int, fetch: Fetch, rows: seq<Json>)
    requires fetch(HistoryUrl(coinId), HistoryParams(days)).status == 200
    requires fetch(HistoryUrl(coinId), HistoryParams(days)).body.Some?
    requires Index(fetch(HistoryUrl(coinId), HistoryParams(days)).body.value, "prices") == Ok(Arr(rows))
    requires GetCryptoHistory(coinId, days, fetch).Ok?
    ensures var ps := GetCryptoHistory(coinId, days, fetch).value;
            && |ps| == |rows|
            && forall i :: 0 <= i < |rows| ==>
                 && rows[i].Arr? && |rows[i].items| >= 2
                 && ps[i].timestamp * 1000.0 == AsNumber(rows[i].items[0]).value
                 && ps[i].price == rows[i].items[1]
  {
    var f := PointStep();
    var ps := GetCryptoHistory(coinId, days, fetch).value;
    assert Collect.MapResult(rows, f) == Ok(ps);
    forall i | 0 <= i < |rows|
      ensures rows[i].Arr? && |rows[i].items| >= 2
      ensures ps[i].timestamp * 1000.0 == AsNumber(rows[i].items[0]).value
      ensures ps[i].price == rows[i].items[1]
    {
      assert f(rows[i]) == Ok(ps[i]);
    }
  }

  /** The loop of `get_multiple_cryptos` from `ids[from]` on: ids absent from
      the data are skipped, present ones are shaped. */
  function QuotesFrom(ids: seq<string>, data: Json, from: nat): (r: Result<seq<Quote>>)
    requires from <= |ids|
    ensures r.Ok? ==> |r.value| <= |ids| - from
    ensures r.Ok? ==> forall k :: 0 <= k < |r.value| ==> r.value[k].id in ids[from..]
    decreases |ids| - from
  {
    if from == |ids| then Ok([])
    else
      var present :- Contains(data, ids[from]);
      if present then
        var coin :- Index(data, ids[from]);
        var q :- QuoteOf(ids[from], coin);
        var rest :- QuotesFrom(ids, data, from + 1);
        Ok([q] + rest)
      else QuotesFrom(ids, data, from + 1)
  }

  function MultipleBody(ids: seq<string>, resp: HttpResponse): Result<seq<Quote>> {
    if resp.status != 200 then Err(ApiErrorPrefix + resp.text)
    else
      var data :- Body(resp);
      QuotesFrom(ids, data, 0)
  }

  /** `get_multiple_cryptos`: one request for all ids, joined by commas. */
  function GetMultipleCryptos(ids: seq<string>, fetch: Fetch): (r: Result<seq<Quote>>)
    ensures var resp := fetch(PriceUrl, QuoteParams(Strings.Join(ids, ',')));
            resp.status != 200 ==> r == Err(MultipleFailedPrefix + ApiErrorPrefix + resp.text)
    ensures r.Err? ==> Strings.StartsWith(r.msg, MultipleFailedPrefix)
    ensures r.Ok? ==> |r.value| <= |ids|
    ensures r.Ok? ==> forall k :: 0 <= k < |r.value| ==> r.value[k].id in ids
  {
    MultipleBody(ids, fetch(PriceUrl, QuoteParams(Strings.Join(ids, ',')))).WithPrefix(MultipleFailedPrefix)
  }

  /** The requested ids, from `from` on, that the data holds, in request order. */
  function PresentFrom(ids: seq<string>, keys: set<string>, from: nat): (r: seq<string>)
    requires from <= |ids|
    ensures forall k :: 0 <= k < |r| ==> r[k] in keys && r[k] in ids[from..]
    decreases |ids| - from
  {
    if from == |ids| then []
    else if ids[from] in keys then [ids[from]] + PresentFrom(ids, keys, from + 1)
    else PresentFrom(ids, keys, from + 1)
  }

  lemma {:induction false} QuotesFromPresent(ids: seq<string>, fields: map<string, Json>, from: nat)
    requires from <= |ids|
    requires QuotesFrom(ids, Obj(fields), from).Ok?
    ensures var qs := QuotesFrom(ids, Obj(fields), from).value;
            var present := PresentFrom(ids, fields.Keys, from);
            && |qs| == |present|
            && forall k :: 0 <= k < |qs| ==> QuoteOf(present[k], fields[present[k]]) == Ok(qs[k])
    decreases |ids| - from
  {
    if from < |ids| {
      QuotesFromPresent(ids, fields, from + 1);
    }
  }

  /** With an object body, the result holds exactly the requested ids that
      the body has, in request order; the others are dropped silently. */
  lemma MultipleKeepsPresentInOrder(ids: seq<string>, fetch: Fetch, fields: map<string, Json>)
    requires fetch(PriceUrl, QuoteParams(Strings.Join(ids, ','))).status == 200
    requires fetch(PriceUrl, QuoteParams(Strings.Join(ids, ','))).body == Some(Obj(fields))
    requires GetMultipleCryptos(ids, fetch).Ok?
    ensures var qs := GetMultipleCryptos(ids, fetch).value;
            var present := PresentFrom(ids, fields.Keys, 0);
            && |qs| == |present|
            && forall k :: 0 <= k < |qs| ==> qs[k].id == present[k] && QuoteOf(present[k], fields[present[k]]) == Ok(qs[k])
  {
    QuotesFromPresent(ids, fields, 0);
  }

  /** The `ids` parameter splits back into the requested ids, provided there
      is at least one and none holds a comma. */
  lemma RequestedIdsRecoverable(ids: seq<string>)
    requires |ids| > 0
    requires forall k :: 0 <= k < |ids| ==> ',' !in ids[k]
    ensures Strings.Split(QuoteParams(Strings.Join(ids, ','))["ids"], ',') == ids
  {
    Strings.SplitJoin(ids, ',');
  }
}
