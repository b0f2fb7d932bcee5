# portfolio-tracker, modelled in Dafny

A model of the back end of portfolio-tracker, a FastAPI service that keeps
users' investment portfolios. It covers:

- the platform clients for Gemini, Fidelity and CoinGecko, which turn upstream
  JSON into normalised positions, trades and quotes;
- the Gemini portfolio sync, which upserts one holding per position;
- the portfolio analytics: per-holding value and gain/loss, diversification,
  and the risk level;
- the portfolio and auth endpoints, including the ownership guard on every
  per-portfolio endpoint;
- the database-name extraction of `setup_db.py`.

The database is one immutable `Models.Store` value. Each table is a sequence in
insertion order, and each table's primary keys come from a counter. A query
followed by `scalar_one_or_none()` is `Models.OneOrNone` over the rows that
pass the filter: none, one, or an error when there are several.

Everything the code reaches outside itself is a parameter of the member that
uses it:

- **Network:** every HTTP response is a parameter. That is a `fetch` function
  for Gemini and CoinGecko, and the token and API responses for Fidelity.
- **Clock:** `now` in seconds, or `nowMs` in milliseconds.
- **Number parsing:** Python's `float(text)` is `parse`.
- **Security and encoding:** password hashing, verification, token encoding and
  decoding, JSON encoding, base64 and HMAC.
- **AI:** the insight and transaction-analysis generators.

Floats are `real`. Raised exceptions are `Result.Err` values that carry the
text of `str(e)`. HTTP errors are `HttpOutcome.HttpError` values that carry the
status and the detail.

| module | file | models |
|---|---|---|
| Wrappers | wrappers.dfy | Option, Result (with the prefixing `except` clauses), HttpOutcome |
| JsonValues | json_values.dfy | decoded JSON, subscripting, `.get`, `in`, iteration, `float()` |
| Collect | collect.dfy | loops whose first failure aborts them, and filtering loops |
| Strings | strings.dfy | ASCII case mapping, slicing, `join`/`split`, `replace`, `str(int)`, `%02d` |
| Models | models.dfy | the ORM entities, the store, `scalar_one_or_none`, relationship lookups |
| Gemini | gemini.dfy | `GeminiAPI` and `create_gemini_client` |
| Fidelity | fidelity.dfy | `FidelityAPI` and `create_fidelity_client` |
| CoinGecko | coingecko.dfy | `CoinGeckoService` |
| Analytics | analytics.dfy | `PortfolioAnalytics`: metrics loop, diversification, risk level |
| PortfolioSync | portfolio_sync.dfy | `PortfolioSyncService` |
| PortfolioEndpoints | portfolio_endpoints.dfy | the portfolio router and `get_current_user_id` |
| Auth | auth.dfy | `register` and `login` |
| SetupDb | setup_db.dfy | the URL pattern and connection string of `create_database` |

## Model

| member | source | states |
|---|---|---|
| Wrappers.Result.WithPrefix | app/services/gemini.py:80-81 | an `except Exception as e: raise Exception(prefix + str(e))` clause passes a success through unchanged and prefixes the text of a failure |
| JsonValues.Index | app/services/gemini.py:66 | `v[key]` succeeds exactly on a dict that holds the key and gives its value; a dict without the key raises KeyError naming the key |
| JsonValues.Get | app/services/fidelity.py:66 | `v.get(key, default)` succeeds exactly on a dict and gives the key's value or the default |
| JsonValues.At | app/services/coingecko_service.py:64-65 | `price[i]` on a data-point pair succeeds exactly on a list longer than `i` and gives its i-th element; text, which Python would also index, is treated as malformed, as it is for the pairs of a price history |
| JsonValues.Contains | app/services/coingecko_service.py:28 | `key in v` succeeds on a dict, list or string; on a dict it tests the keys |
| JsonValues.Rows | app/services/gemini.py:65 | `for x in v` over a list yields its elements; on anything else it yields no element at all or raises |
| JsonValues.ToFloat | app/services/gemini.py:66 | `float(v)` keeps a number, parses a text through `float(text)` (failing exactly when that fails), and rejects null, lists and dicts |
| JsonValues.AsNumber | app/services/coingecko_service.py:38 | a raw value used in arithmetic is accepted exactly when it is a number or a boolean |
| JsonValues.Body | app/services/gemini.py:53 | `response.json()` succeeds exactly when the body decodes, and gives that body |
| Collect.MapResult | app/services/gemini.py:96-104 | a loop whose body may raise: on success, one result per element in order; on failure, the error of the first failing element, with every earlier element succeeding |
| Collect.SomesAtIndices | app/services/gemini.py:65-77 | a filtering loop keeps exactly the present values, in order: the k-th kept value is the one at the k-th present position |
| Models.OneOrNone | app/api/v1/endpoints/portfolio.py:89 | `scalar_one_or_none()` gives nothing for no row and the row for one row, and raises for two or more |
| Models.Filter | app/models/portfolio.py:42 | `portfolio.holdings` holds exactly the holdings whose `portfolio_id` is the portfolio's |
| Models.FilterAppend | app/models/portfolio.py:42 | the relationship keeps table order: the holdings of two stretches of the table are those of the first, then those of the second |
| Models.FilterCount | app/models/portfolio.py:42 | a holding of the portfolio appears as often as in the table, any other not at all |
| Models.TransactionsOf | app/models/portfolio.py:57 | `holding.transactions` holds exactly the transactions whose `holding_id` is the holding's |
| Models.TransactionsOfAppend | app/models/portfolio.py:57 | `holding.transactions` keeps table order |
| Models.TransactionsOfCount | app/models/portfolio.py:57 | a transaction of the holding appears as often as in the table, any other not at all |
| Models.UniqueOccursOnce | app/services/portfolio_sync.py:68-74 | when (portfolio, symbol) keys are unique, the holding lookup finds at most one row |
| Models.OccursOnceUnique | app/services/portfolio_sync.py:68-74 | conversely, if every lookup finds at most one row, the keys are unique |
| Strings.Take | app/services/gemini.py:99 | `s[:n]` is a prefix of `s` with length `min(n, len(s))` |
| Strings.SplitJoin | app/services/coingecko_service.py:79 | `",".join(ids)` splits back into `ids` when there is at least one id and none contains the separator |
| Strings.ReplaceAllAbsent | setup_db.py:15 | `str.replace` leaves a text without the pattern unchanged |
| Strings.ReplaceAllFirst | setup_db.py:15 | `str.replace` keeps the text before the first occurrence, rewrites that occurrence, and continues after it |
| Strings.DecimalString | app/services/gemini.py:24 | `str(n)` is a non-empty run of decimal digits that reads back as `n` |
| Strings.Pad2 | app/services/fidelity.py:88 | `%m` and `%d` give two digits that read back as the number |
| Gemini.NewClient | app/services/gemini.py:15-19 | construction succeeds exactly when the key and the secret are both non-empty, and keeps both; otherwise the ValueError text |
| Gemini.CreateClient | app/services/gemini.py:110-116 | the factory yields no client exactly when the constructor raises; a client carries the configured key and secret |
| Gemini.Sign | app/services/gemini.py:21-30 | the signed payload keeps every caller entry except `request` and `nonce`; `request` is always `/v1/balances`, whatever the endpoint; the nonce is a run of digits that reads back as the millisecond clock; the signature is the HMAC of the encoded payload under the secret |
| Gemini.Headers | app/services/gemini.py:39-46 | the request carries the client's key, the encoded payload and its signature in the three Gemini headers |
| Gemini.Decode | app/services/gemini.py:51-53 | a status other than 200 or 201 fails with the prefixed response text; otherwise the request succeeds exactly when the body decodes, and yields that body |
| Gemini.BalanceOutcome | app/services/gemini.py:66-77 | a balance yields a position exactly when its amount parses and is positive; the position is crypto on Gemini, with the currency as symbol, the amount as quantity, `float(ticker["last"])` of the currency's ticker as current price and `avg_price` (default 0) as average |
| Gemini.BalanceOutcomes | app/services/gemini.py:65-77 | the balances loop gives one outcome per balance, in order, or the error of the first failing balance |
| Gemini.GetBalances | app/services/gemini.py:55-81 | every failure carries the balances prefix; a failed status on the balances request fails with both prefixes and the response text |
| Gemini.BalancesKeepPositiveInOrder | app/services/gemini.py:64-79 | the positions are exactly the balances with a positive amount, in input order, each built by `BalanceOutcome` |
| Gemini.OutcomesInOrder | app/services/gemini.py:65-77 | the same filter, stated for any sequence of successful per-balance outcomes |
| Gemini.TradesPayload | app/services/gemini.py:89-91 | the payload has a `symbol` entry exactly for a non-empty filter, valued filter + `USD`, and nothing else |
| Gemini.TradeOutcome | app/services/gemini.py:97-104 | a trade is a buy exactly when its amount is positive and a sell otherwise; the quantity is the amount's absolute value, so never negative; the symbol is the first three characters of the trade symbol; the price is `float(trade["price"])`; the platform is Gemini, and the timestamp is the epoch `float(trade["timestamp"])` |
| Gemini.GetTrades | app/services/gemini.py:83-108 | every failure carries the trades prefix |
| Gemini.TradesOneToOne | app/services/gemini.py:96-106 | one record per trade, in order, each built by `TradeOutcome`; no quantity is negative |
| Gemini.TruncationRecoversFilter | app/services/gemini.py:99 | cutting `symbol + "USD"` to three characters gives the symbol back exactly when it has three characters |
| Fidelity.CreateClient | app/services/fidelity.py:120-127 | a client exists exactly when both settings are non-empty, and carries them |
| Fidelity.AccessTokenAsWritten | app/services/fidelity.py:16-40 | as written: a reusable cached token is returned unchanged; every other call fails and leaves the stored expiry as it was |
| Fidelity.AsWrittenNeverYieldsToken | app/services/fidelity.py:21-39 | as written: from a cache without expiry, which is how a new client starts, no call ever yields a token and the expiry stays unset |
| Fidelity.AsWrittenFailsOnFreshToken | app/services/fidelity.py:36-39 | as written: a new client that receives a 200 response with token `t` stores `t` and still fails, with the AttributeError |
| Fidelity.AccessToken | app/services/fidelity.py:16-40 | a cached non-empty token whose expiry lies ahead is reused; a non-200 response fails with the fixed text; otherwise the fetched token is stored with an expiry one hour ahead and returned; a failure leaves the cache as it was |
| Fidelity.FetchedTokenReused | app/services/fidelity.py:21-22 | a freshly fetched non-empty token is returned unchanged, whatever the token endpoint would answer, by every call within the following hour |
| Fidelity.Request | app/services/fidelity.py:42-55 | a token failure is the request's failure; a status other than 200 or 201 fails with the prefixed text; the cache is the one the token step leaves |
| Fidelity.RequestAsWritten | app/services/fidelity.py:42-55 | as written: the token step's failure is the request's failure, and the cache is what that step leaves; whenever the step yields a token, the request agrees with the corrected one |
| Fidelity.MapAssetType | app/services/fidelity.py:108-118 | mapping succeeds exactly on text, since `.upper()` raises on a missing type, and never yields crypto |
| Fidelity.MapAssetTypeIgnoresCase | app/services/fidelity.py:118 | two names with the same upper-case form map to the same type |
| Fidelity.MapAssetTypeRoundTrip | app/services/fidelity.py:111-118 | every type with a Fidelity name is recovered from that name in upper or lower case |
| Fidelity.UnknownNameIsStock | app/services/fidelity.py:118 | a name whose upper-case form is none of the five known names maps to STOCK |
| Fidelity.PositionOutcome | app/services/fidelity.py:67-75 | a position's symbol, type, quantity and price are the entry's fields; with a positive quantity the average price times the quantity is the cost basis, otherwise it is 0; the platform is Fidelity; an entry without `securityType` fails |
| Fidelity.GetPositions | app/services/fidelity.py:57-79 | every failure, the token fetch included, carries the positions prefix; the cache is the token step's |
| Fidelity.GetPositionsAsWritten | app/services/fidelity.py:57-79 | as written: every failure carries the positions prefix; the cache is the as-written token step's |
| Fidelity.AsWrittenPositionsFailOnFreshClient | app/services/fidelity.py:36-39 | as written: a new client with a 200 token response and an empty position list fails with the prefixed AttributeError, where the corrected client yields no positions |
| Fidelity.PositionsOneToOne | app/services/fidelity.py:66-77 | for any dict body whose `positions` entry (an empty list when absent) is a list, one position per entry, in order, each built by `PositionOutcome` |
| Fidelity.MissingSecurityTypeAborts | app/services/fidelity.py:69 | for any dict body, one entry of its `positions` list without `securityType` makes the whole fetch fail |
| Fidelity.FormatDate | app/services/fidelity.py:88 | `strftime("%Y-%m-%d")` of a date with a four-digit year is ten characters |
| Fidelity.FormatDateRoundTrip | app/services/fidelity.py:88 | the `startDate` text reads back as the date it was formatted from |
| Fidelity.TransactionParams | app/services/fidelity.py:86-88 | the parameters have a `startDate` entry exactly when a date is given, and it reads back as that date; there is no other entry |
| Fidelity.TransactionOutcome | app/services/fidelity.py:95-102 | the type is the lower-cased `type` text; symbol, quantity and price come from the entry's fields; the platform is Fidelity, and the timestamp is the `transactionDate` text, kept as it is |
| Fidelity.GetTransactions | app/services/fidelity.py:81-106 | every failure, the token fetch included, carries the transactions prefix; the cache is the token step's |
| Fidelity.GetTransactionsAsWritten | app/services/fidelity.py:81-106 | as written: every failure carries the transactions prefix; the cache is the as-written token step's |
| Fidelity.AsWrittenFetchesFail | app/services/fidelity.py:16-106 | as written: a client whose expiry was never stored, as every new client's is, gets neither positions nor transactions, whatever the responses, and its expiry stays unset |
| Fidelity.TransactionsOneToOne | app/services/fidelity.py:94-104 | for any dict body whose `transactions` entry (an empty list when absent) is a list, one record per entry, in order, each built by `TransactionOutcome` |
| CoinGecko.QuoteParams | app/services/coingecko_service.py:14-21 | the price query asks for the given ids in USD, with the four market fields, and nothing else |
| CoinGecko.QuoteOf | app/services/coingecko_service.py:31-39 | a coin record is built exactly when the coin is a dict with the five fields and a numeric update time; the money fields pass through unchanged and the id is kept |
| CoinGecko.GetCryptoPrice | app/services/coingecko_service.py:8-42 | a failed status yields the prefixed API error; a body without the coin yields "not found"; a success is the coin's record; every failure carries the coin's prefix |
| CoinGecko.HistoryParams | app/services/coingecko_service.py:49-53 | the history query holds `days` as `str(days)`, the currency and the interval, and nothing else |
| CoinGecko.PointOf | app/services/coingecko_service.py:64-65 | a pair becomes a point exactly when it is a list of at least two whose first item is numeric; the time in seconds is the milliseconds over 1000, and the price is the second item |
| CoinGecko.GetCryptoHistory | app/services/coingecko_service.py:44-71 | a failed status yields the prefixed API error; every failure carries the coin's history prefix |
| CoinGecko.HistoryOneToOne | app/services/coingecko_service.py:60-68 | for any body whose `prices` entry is a list, whatever else it holds, one point per pair, in order, with the time converted to seconds and the price passed through |
| CoinGecko.QuotesFrom | app/services/coingecko_service.py:94-104 | the multi-coin loop yields at most one record per requested id, each for a requested id |
| CoinGecko.QuotesFromPresent | app/services/coingecko_service.py:94-104 | the loop yields exactly one record per requested id the body holds, in request order |
| CoinGecko.GetMultipleCryptos | app/services/coingecko_service.py:73-109 | a failed status yields the prefixed API error; every failure carries the multi-coin prefix; never more records than ids, each for a requested id |
| CoinGecko.MultipleKeepsPresentInOrder | app/services/coingecko_service.py:94-106 | with a dict body, the records are exactly the requested ids the body holds, in request order; the others are dropped silently |
| CoinGecko.RequestedIdsRecoverable | app/services/coingecko_service.py:79 | the comma-joined `ids` parameter splits back into the requested ids when none contains a comma |
| Analytics.RowOf | app/services/portfolio_analytics.py:25-40 | a holding yields a row exactly when its price is available and its average price is not zero; value = price × quantity, gain = (price − average) × quantity, and percentage × average = (price − average) × 100 |
| Analytics.CalculateHoldings | app/services/portfolio_analytics.py:20-44 | the loop collects exactly the rows of the holdings that did not raise, in order, and its running total is the sum of their values |
| Analytics.AllPricedKeepsAll | app/services/portfolio_analytics.py:24-42 | when no holding raises, there is one row per holding, in holding order |
| Analytics.FailingHoldingSkipped | app/services/portfolio_analytics.py:43-44 | a holding that raises contributes nothing, wherever it sits |
| Analytics.Allocations | app/services/portfolio_analytics.py:75-81 | one allocation per row, in order, with the row's symbol; percentage × total = value × 100 |
| Analytics.SortDescPermutes | app/services/portfolio_analytics.py:84 | the sort is a permutation of the allocations |
| Analytics.SortDescOrdered | app/services/portfolio_analytics.py:84 | the sort orders percentages from largest to smallest |
| Analytics.SortDescStable | app/services/portfolio_analytics.py:84 | the sort is stable, as Python's is under `reverse=True`: entries with equal percentages keep their input order |
| Analytics.TopHoldings | app/services/portfolio_analytics.py:84-85 | the top holdings are the min(3, n) largest allocations, largest first; they are drawn from the allocations, and every allocation left out is at most the last one kept |
| Analytics.TopHoldingsKeepTieOrder | app/services/portfolio_analytics.py:84-85 | among equal percentages, the top holdings are the first such allocations in input order |
| Analytics.Diversify | app/services/portfolio_analytics.py:69-92 | it is an error exactly when there are no rows or the total is zero; otherwise it gives the allocations, the holding count, as concentration the number of allocations strictly above 20 %, and the top holdings as above |
| Analytics.AllocationsSumTo100 | app/services/portfolio_analytics.py:75-81 | with the loop's total, the allocation percentages add up to 100 |
| Analytics.CountAboveBoundedBySum | app/services/portfolio_analytics.py:90 | with no negative allocation, each allocation above 20 % takes more than 20 of the sum |
| Analytics.CountAbove | app/services/portfolio_analytics.py:90 | the count is the number of positions whose percentage is strictly above the bound |
| Analytics.ConcentrationAtMostFour | app/services/portfolio_analytics.py:90 | non-negative allocations adding up to 100 leave room for at most four above 20 % |
| Analytics.DiversifiedConcentrationAtMostFour | app/services/portfolio_analytics.py:42-47 | with the total the metrics loop passes and no negative value, `concentration_risk` of the diversification is at most four |
| Analytics.NonNegativeShares | app/services/portfolio_analytics.py:75-81 | rows with no negative value get no negative percentage |
| Analytics.RiskLevelOf | app/services/portfolio_analytics.py:165 | High exactly above beta 1.2, Medium exactly in (0.8, 1.2], Low exactly at or below 0.8 |
| Analytics.RiskLevelMonotone | app/services/portfolio_analytics.py:165 | a larger beta never gives a lower risk level |
| PortfolioSync.InsertHolding | app/services/portfolio_sync.py:82-91 | the new Gemini row for the position is appended with the next id; earlier rows and the other tables are kept |
| PortfolioSync.UpdateHolding | app/services/portfolio_sync.py:76-80 | the found row takes the position's quantity, average price and time; every other row and every other field is kept |
| PortfolioSync.Upsert | app/services/portfolio_sync.py:68-91 | the key lookup fails exactly when two rows share the key; otherwise the one row is updated or a new row is appended; afterwards a row with the key reflects the position, and only the holdings change |
| PortfolioSync.Reconcile | app/services/portfolio_sync.py:67-93 | the loop and its commit change only the holdings table; rows are updated in place or appended for the positions' symbols, never deleted; a failure is the lookup error, and the changes made before it stay |
| PortfolioSync.UpsertKeepsUnique | app/services/portfolio_sync.py:68-91 | with unique keys an upsert cannot fail and keeps the keys unique |
| PortfolioSync.ReconcileKeepsUnique | app/services/portfolio_sync.py:67-91 | with unique keys the whole loop succeeds and keeps the keys unique |
| PortfolioSync.LastFor | app/services/portfolio_sync.py:67-80 | a reference for the winning position: one exists exactly when the symbol occurs, and it is a position with that symbol |
| PortfolioSync.LastForIsLast | app/services/portfolio_sync.py:67-80 | that position is the last one with its symbol |
| PortfolioSync.ReconcileConverges | app/services/portfolio_sync.py:67-91 | with unique keys, after the loop every symbol has a row in the portfolio that reflects its last position |
| PortfolioSync.ReconcileUpdatesOnly | app/services/portfolio_sync.py:67-80 | when every symbol already has a row, the loop inserts nothing and refreshes exactly the touched rows |
| PortfolioSync.ReconcileIdempotent | app/services/portfolio_sync.py:67-93 | a second run with the same positions at the same time changes nothing |
| PortfolioSync.ReconcileRerun | app/services/portfolio_sync.py:67-93 | a re-run with the same positions at any later time succeeds and inserts no row; every row keeps its identity, quantity and average price, and only the touched rows take the new time |
| PortfolioSync.GeminiPortfolios | app/services/portfolio_sync.py:45-51 | the lookup finds exactly the user's portfolios named "Gemini Portfolio" |
| PortfolioSync.FindOrCreatePortfolio | app/services/portfolio_sync.py:45-61 | it fails exactly when two such portfolios exist; it reuses the one found, or appends a new one with the fixed name and description; afterwards exactly one exists and it is the one returned |
| PortfolioSync.FindOrCreateIdempotent | app/services/portfolio_sync.py:45-61 | a second lookup finds the portfolio the first returned and creates nothing |
| PortfolioSync.SyncGemini | app/services/portfolio_sync.py:38-93 | without a client it fails before touching the store; users and transactions are never changed and portfolios are only appended; a failed balance fetch leaves the holdings as they were; no holding is deleted and each keeps its identity; a holding outside the user's Gemini portfolios is left as it was; new rows are Gemini rows of such a portfolio; unique (portfolio, symbol) keys stay unique; a failure is the client, lookup or balances error |
| PortfolioSync.SyncGeminiConverges | app/services/portfolio_sync.py:38-93 | on a consistent store whose balances arrive, the sync succeeds, and every balance's symbol has a row in the user's Gemini portfolio that reflects the last balance for it |
| PortfolioSync.ApplyBalances | app/services/portfolio_sync.py:67-93 | the holdings loop on the user's Gemini portfolio keeps every holding of other portfolios, adds only Gemini rows of that portfolio, and keeps keys unique |
| PortfolioSync.SyncGeminiRerun | app/services/portfolio_sync.py:38-93 | a second sync on the same balances, at any later time, leaves the portfolios as they are, inserts no holding, and changes no holding field except the update time; it succeeds when the first did |
| PortfolioSync.SyncUserPortfolios | app/services/portfolio_sync.py:15-36 | the report holds exactly one message: the success text exactly when the sync succeeded, "not configured" without a client, and otherwise the prefixed failure |
| PortfolioSync.ClientMissingNeverReported | app/services/portfolio_sync.py:26-42 | the inner client check's message never reaches the report, because the outer check runs first |
| PortfolioEndpoints.CurrentUserId | app/api/v1/endpoints/portfolio.py:21-29 | an undecodable token is a 401 with the fixed detail; a decodable one yields its `sub` claim, which may be absent |
| PortfolioEndpoints.OwnedRows | app/api/v1/endpoints/portfolio.py:64-69 | the guarded lookup finds exactly the portfolios with the requested id whose owner is the caller |
| PortfolioEndpoints.OwnedRowsAtMostOne | app/api/v1/endpoints/portfolio.py:64-70 | with distinct ids the guarded lookup finds at most one row |
| PortfolioEndpoints.OwnedPortfolio | app/api/v1/endpoints/portfolio.py:64-72 | the guard yields only a portfolio of the caller with that id; it is a 404 exactly when the caller owns no such portfolio; with distinct ids there is no other error, and any other error is the generic 500 an unhandled exception gets |
| PortfolioEndpoints.ReadPortfolio | app/api/v1/endpoints/portfolio.py:58-73 | reading succeeds exactly when the guard does, and otherwise gives the guard's error; it yields the caller's portfolio, never another user's, with exactly its holdings |
| PortfolioEndpoints.ListPortfolios | app/api/v1/endpoints/portfolio.py:46-56 | the listing holds exactly the caller's portfolios |
| PortfolioEndpoints.ListedAreReadable | app/api/v1/endpoints/portfolio.py:46-73 | every listed portfolio can be read by its owner, with its holdings |
| PortfolioEndpoints.CreatePortfolio | app/api/v1/endpoints/portfolio.py:31-44 | the new portfolio belongs to the caller, whatever the body; it is appended, nothing else changes, and the ids stay distinct and below the counter |
| PortfolioEndpoints.CreatedPortfolioReadable | app/api/v1/endpoints/portfolio.py:31-73 | the creator can read the new portfolio; any other caller gets a 404 |
| PortfolioEndpoints.NewHolding | app/api/v1/endpoints/portfolio.py:93 | the stored row carries the body's fields, the next id, the chosen portfolio id and the time |
| PortfolioEndpoints.CreateHoldingAsWritten | app/api/v1/endpoints/portfolio.py:75-97 | as written: it succeeds exactly when the guard accepts the path id and some portfolio has the body's `portfolio_id`, and stores the row under that body id; a body id naming no portfolio breaks the foreign key and answers 500; a failure changes nothing |
| PortfolioEndpoints.AsWrittenWritesForeignPortfolio | app/api/v1/endpoints/portfolio.py:82-97 | as written: user 1, posting to their own portfolio 1 a schema-valid body (platform fidelity) that names portfolio 2 of user 2, adds a holding to user 2's portfolio |
| PortfolioEndpoints.CreateHolding | app/api/v1/endpoints/portfolio.py:75-97 | it succeeds exactly when the guard does; the holding is appended to a portfolio the caller owns; a failure changes nothing |
| PortfolioEndpoints.CreateHoldingAgreesOnMatchingId | app/api/v1/endpoints/portfolio.py:93 | when the body repeats the path id, the written and the corrected endpoint behave identically |
| PortfolioEndpoints.DataOf | app/api/v1/endpoints/portfolio.py:117-130 | the data handed to the generator has the portfolio's id and name and one summary per holding, in order, with the enums by value |
| PortfolioEndpoints.Insights | app/api/v1/endpoints/portfolio.py:99-133 | it succeeds exactly when the guard does, and otherwise gives the guard's error; the answer is the generator applied to the caller's portfolio data |
| PortfolioEndpoints.Flatten | app/api/v1/endpoints/portfolio.py:152-163 | the entries are exactly one per (holding, transaction of that holding) pair, tagged with the holding's symbol |
| PortfolioEndpoints.FlattenAppend | app/api/v1/endpoints/portfolio.py:154-163 | entries follow holding order: those of earlier holdings come first |
| PortfolioEndpoints.FlattenSingle | app/api/v1/endpoints/portfolio.py:154-163 | one holding contributes one entry per transaction of its own, in table order |
| PortfolioEndpoints.FlattenOnePerTransaction | app/api/v1/endpoints/portfolio.py:152-163 | over holdings with distinct ids, there are exactly as many entries as the table has transactions of those holdings |
| PortfolioEndpoints.TransactionAnalysis | app/api/v1/endpoints/portfolio.py:135-166 | it succeeds exactly when the guard does, and otherwise gives the guard's error; the answer is the analysis of the flattened entries |
| PortfolioEndpoints.GuardsAgree | app/api/v1/endpoints/portfolio.py:83-150 | reading, creating a holding, insights and transaction analysis accept exactly the same callers |
| PortfolioEndpoints.SyncPortfolios | app/api/v1/endpoints/portfolio.py:168-179 | the endpoint returns the service's report for the caller unchanged, and the report holds one message |
| Auth.UsersByEmail | app/api/v1/endpoints/auth.py:16-18 | the lookup finds exactly the users with the email |
| Auth.UsersByEmailAtMostOne | app/models/portfolio.py:24 | with the unique email index the lookup finds at most one user |
| Auth.LookupFinds | app/api/v1/endpoints/auth.py:43-46 | on a sound user table the lookup of a user's email finds exactly that user, and its first column is their id |
| Auth.Register | app/api/v1/endpoints/auth.py:13-35 | on a sound table a 400 "already registered" comes exactly when the email is taken; otherwise one user is appended with the next id and the hash of the password, never the password itself; any failure is that 400 or the generic 500, and changes nothing |
| Auth.RegisterLookup | app/api/v1/endpoints/auth.py:16-19 | on a sound table the id found is truthy exactly when the email is taken |
| Auth.RegisterKeepsUsersSound | app/api/v1/endpoints/auth.py:26-35 | registration keeps emails unique and ids below the counter |
| Auth.LoginAsWritten | app/api/v1/endpoints/auth.py:37-53 | as written: on a sound table every login fails, and an unknown email gets the 401 |
| Auth.AsWrittenRejectsKnownUsers | app/api/v1/endpoints/auth.py:43-53 | as written: every registered user, even with the right password, gets a server error |
| Auth.Login | app/api/v1/endpoints/auth.py:37-65 | on a sound table a token is issued exactly when a user with that email exists and the password verifies; every refusal is the same 401, and off a sound table the only other failure is the generic 500; the token is a bearer token whose `sub` is the user's id, valid for 30 minutes |
| Auth.LoginLookup | app/api/v1/endpoints/auth.py:43-46 | on a sound table the login lookup finds one user exactly when the email is registered |
| Auth.RejectionsIdentical | app/api/v1/endpoints/auth.py:48-53 | an unknown email and a wrong password get the same answer |
| Auth.RegisterThenLogin | app/api/v1/endpoints/auth.py:13-65 | a new user can log in with their password right after registering, and the token names their new id |
| Auth.LoginTokenIdentifiesUser | app/api/v1/endpoints/auth.py:56-60 | when decoding inverts encoding, `get_current_user_id` on the issued token yields the user's id |
| SetupDb.MatchUrl | setup_db.py:8 | `re.match` of the URL pattern matches exactly when the matcher finds cuts |
| SetupDb.MatchSound | setup_db.py:8 | every match reported is a decomposition of the URL by the pattern: the groups admit what the pattern admits, and the match is a prefix followed by nothing or by '?' |
| SetupDb.MatchComplete | setup_db.py:8 | whenever the URL admits a decomposition, the matcher reports one with the same user and password and a host at least as long, as the greedy pattern does |
| SetupDb.CreateDatabaseTarget | setup_db.py:8-15 | as written: an invalid URL raises the fixed ValueError; otherwise the name is group 1, and the connection string replaces every occurrence of that name in the whole URL with `postgres` |
| SetupDb.ExampleMatch | setup_db.py:8 | `postgresql://db:x@h/db` matches with user `db`, password `x`, host `h`, no port and database `db` |
| SetupDb.ReplaceRewritesCredentials | setup_db.py:15 | as written: for `postgresql://db:x@h/db` the connection string becomes `postgresql://postgres:x@h/postgres`, which logs in as `postgres` instead of `db` |
| SetupDb.IntendedTarget | setup_db.py:12-15 | as intended: the same name, and a connection string that decomposes with every group of the original match except the database name, which is `postgres`, followed by the original query suffix |

## Left out

- The AI insight service (`app/services/ai_insights.py`) and the Alpaca market-data service are not part of this model. The insight and analysis generators are function parameters. The stock-price lookup of the metrics loop is the parameter `price`.
- `_calculate_historical_performance` and the beta computation of `_calculate_risk_metrics` (app/services/portfolio_analytics.py:94-164) are numpy statistics over floating-point bars. Only the risk-level classifier is modelled.
- `calculate_portfolio_metrics` beyond its holdings loop and the diversification call is not modelled: the AI call and the assembly of the result dict.
- HMAC-SHA384, base64, JSON encoding, the millisecond clock and `datetime.utcnow()` are parameters. The hashing, password verification and token encoding and decoding of `app.core.security` are parameters as well; `app.core.security` is not part of this model.
- `Portfolio.select()` / `Holding.select()` and `PortfolioModel.select()` are modelled as the intended filters, i.e. key lookups. `Portfolio` in `get_portfolios` is the response schema, whose `__table__` it reads; that listing is modelled as the intended query for the caller's portfolios, and its result shaping by the response schema is left out. The auth endpoints are modelled as written, because their `User.__table__.select()` changes what the lookup yields.
- Upper-casing and lower-casing change only ASCII letters. Python also maps other Unicode letters.
- Floats are exact reals: no rounding, no NaN, no infinities. An `int` average price of 0 and a float 0.0 both raise ZeroDivisionError.
- `\d` in the URL pattern is taken as ASCII digits. Python's `re` also accepts other Unicode decimal digits.
- Fidelity.FormatDate: only four-digit years are modelled. `%Y` of a year below 1000 is not.
- `datetime.fromisoformat` on a Fidelity `transactionDate` is not checked: any text is kept as the timestamp. `datetime.fromtimestamp` is represented by the seconds it receives.
- The texts of Python's built-in exceptions other than KeyError are summarised by fixed strings. Their exact wording is not modelled.
- The order of keys in JSON objects and the exact headers of the token request are not modelled.
- Auth: the users table is assumed to satisfy the unique index on `email` and to have serial ids starting at 1 (`UsersSound`). That is why an id of 0 never occurs, and with it the falsy-id branch of registration.
- `create_database`'s connection, the `SELECT`/`CREATE DATABASE` statements and every `print` are left out. Only the name extraction and the connection string are modelled.
- No endpoint stores a transaction, so the transactions table only ever holds what was already there.
- ORM autoflush, commit and refresh are modelled as immediate visibility of every added or changed row within a request.
- The application plumbing in `app/main.py`, `app/core/config.py` and `app/core/database.py` is not modelled. The exception is the commit-after-return behaviour of `get_db`, which `PortfolioSync.Reconcile` relies on.
- The response schemas in `app/schemas/portfolio.py` are not modelled.
- `create_coingecko_service` is not modelled: it only constructs the stateless service.
- Fidelity.AccessToken: the request for the token is not modelled. The response is a parameter, so the form data sent (grant type, client id and secret) is not part of the contract.
- Fidelity's `get_positions` request is modelled through its response alone. Only `get_transactions` keys its response on its parameters.
- Gemini.BalanceOutcome: the balance's `currency` is assumed to be JSON text. The source copies any value into the ticker path and the position; the model fails on a non-text currency.
- Gemini.TradeOutcome: the trade's `symbol` is assumed to be JSON text. The source slices any value with `[:3]` (gemini.py:99), which also succeeds on a list; the model fails on a non-text symbol.
- Fidelity.PositionOutcome: the position's `symbol` is assumed to be JSON text. The source copies any value (fidelity.py:68); the model fails on a non-text symbol.
- Fidelity.TransactionOutcome: the transaction's `symbol` is assumed to be JSON text. The source copies any value (fidelity.py:97); the model fails on a non-text symbol, and likewise on a non-text `type` or `transactionDate`.
- Fidelity.AccessToken: the `access_token` of the token response is assumed to be JSON text. The source stores and returns any value (fidelity.py:38).
- Fidelity.Request, Fidelity.GetPositions and Fidelity.GetTransactions are built on the corrected token step `Fidelity.AccessToken`. Their as-written counterparts, built on `Fidelity.AccessTokenAsWritten`, are `Fidelity.RequestAsWritten`, `Fidelity.GetPositionsAsWritten` and `Fidelity.GetTransactionsAsWritten`.
- Fidelity.CreateClient models the intended settings. `Settings` (app/core/config.py:5-28) declares no `FIDELITY_CLIENT_ID` or `FIDELITY_CLIENT_SECRET`, so the factory as written raises AttributeError unless the settings sources supply those names.
- Request bodies are assumed to have passed schema validation. In particular a holding's platform is gemini or fidelity (app/schemas/portfolio.py:7-9); FastAPI's 422 answers are not modelled.
- PortfolioEndpoints.CreatePortfolio: the caller's user row is assumed to exist. The foreign key on `portfolios.user_id` is not checked, since a token names a registered user.

## Findings

| source | as written | input that shows it | evidently intended | confidence | as-written member | corrected member |
|---|---|---|---|---|---|---|
| app/services/fidelity.py:39 | `datetime.utcnow() + datetime.timedelta(hours=1)` looks `timedelta` up on the `datetime` class, which has no such attribute. The call raises after storing the token and before storing any expiry, so the token is never reused and every Fidelity request fails | a new client and a 200 token response `{"access_token": "t"}` | store the expiry one hour ahead and return the token, so that later calls within the hour reuse it | not executed | Fidelity.AsWrittenFailsOnFreshToken | Fidelity.FetchedTokenReused |
| app/api/v1/endpoints/portfolio.py:93-97 | `HoldingModel(**holding.dict())` stores the holding under the body's `portfolio_id`, while the ownership guard checked the path's `portfolio_id` | user 1 posts to `/1/holdings`, which they own, a body naming portfolio 2 of user 2 | the holding goes to the portfolio the guard checked | not executed | PortfolioEndpoints.AsWrittenWritesForeignPortfolio | PortfolioEndpoints.CreateHolding |
| app/api/v1/endpoints/auth.py:43-48 | `User.__table__.select()` with `scalar_one_or_none()` yields the user's id, an `int`; reading `user.hashed_password` off it raises, so every registered user gets a 500 | any registered user with the right password | look up the `User` row and verify its hash | not executed | Auth.AsWrittenRejectsKnownUsers | Auth.RegisterThenLogin |
| setup_db.py:15 | `DATABASE_URL.replace(db_name, "postgres")` rewrites every occurrence of the database name, including a user, password or host that contains it | `postgresql://db:x@h/db` becomes `postgresql://postgres:x@h/postgres` | replace only the database-name group | not executed | SetupDb.ReplaceRewritesCredentials | SetupDb.IntendedTarget |
