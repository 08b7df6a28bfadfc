# enigma_capital, modelled in Dafny

enigma_capital is a personal fund's accounting pipeline. One process per venue
(Binance, Bybit, Kraken, KuCoin, Interactive Brokers Flex, Ethereum wallets,
with CoinGecko for prices) fetches a balance and a position table. A data
aggregator collects these snapshots, and once a day it sends the fund's net
liquidation value and positions to writers, which append them to CSV files or a
Google Sheet. A launcher starts the processes. A deposit/withdrawal handler
records transfers. Two portfolio studies read the resulting files:
`returns_study` computes time-weighted returns, and `share_study` runs
unit-based investor accounting.

This project models the behaviour of those parts as Dafny datatypes, functions,
classes and methods, one module per source file:

| module | file | source |
|---|---|---|
| `ProcessName` | process_name.dfy | utilities/get_process_name.py |
| `RequestHandler` | request_handler.dfy | utilities/request_handler.py |
| `Launcher` | launcher.dfy | account_data_fetcher/launcher/runner.py |
| `DataAggregator` | aggregator.dfy | account_data_fetcher/data_aggregator/data_aggregator.py |
| `PositionMerge` | positions.dfy | the position-table merge shared by the Binance and Bybit fetchers |
| `Binance` | binance.dfy | account_data_fetcher/exchanges/binance/data_fetcher.py |
| `BybitConnector` | bybit_connector.dfy | account_data_fetcher/exchanges/bybit/bybit_connector.py |
| `BybitFetcher` | bybit_fetcher.dfy | account_data_fetcher/exchanges/bybit/data_fetcher.py |
| `KrakenConnector` | kraken_connector.dfy | account_data_fetcher/exchanges/kraken/kraken_connector.py |
| `KrakenFetcher` | kraken_fetcher.dfy | account_data_fetcher/exchanges/kraken/data_fetcher.py |
| `KucoinFetcher` | kucoin.dfy | account_data_fetcher/exchanges/kucoin/data_fetcher.py |
| `IbFlexFetcher` | ib_flex.dfy | account_data_fetcher/exchanges/ib_flex/data_fetcher.py |
| `EthereumFetcher` | ethereum.dfy | account_data_fetcher/exchanges/ethereum/data_fetcher.py |
| `CoinGeckoFetcher` | coingecko.dfy | account_data_fetcher/exchanges/coingecko/data_fetcher.py |
| `CsvWriter` | csv_writer.dfy | account_data_fetcher/writers/csv/writer.py |
| `GsheetWriter` | gsheet_writer.dfy | account_data_fetcher/writers/gsheet/writer.py |
| `DepositWithdraw` | deposit_withdraw.dfy | account_data_fetcher/writers/deposit_and_withdraw_handler.py |
| `LegacyRunner` | legacy_runner.dfy | account_data_fetcher/runner.py |
| `ReturnsStudy` | returns_study.dfy | monitor/portfolio_monitor/returns_study.py |
| `ShareStudy` | share_study.dfy | monitor/portfolio_monitor/share_study.py |
| `Common` | common.dfy | shared: Option/Result, Python `round`, `int()` truncation, ASCII case mapping |

Values that come from outside the program become parameters: the clock, API
answers, statements, files already on disk, and user input. A retry or poll
loop reads its successive answers from a function of the attempt number. Code
that mutates objects in place is modelled as classes whose methods declare
what they modify. Those methods are proved against specification functions,
and the lemmas beside those functions state what the source promises.

The model follows the code where it and the project's own description differ:
- Interactive Brokers positions: the dollar value multiplies by the multiplier
  as a float, although the multiplier column holds its `int()` truncation.
- Bybit balances: only a UNIFIED account's balance is rounded to two decimals.
  Any other account's balance is `round(x)`, a whole number.
- The returns study compounds with `cumprod`, which skips a NaN daily
  return but carries an infinite one: from the first infinite return on,
  every time-weighted return is non-finite. For one exchange the returns
  are Python floats, so a zero divisor raises `ZeroDivisionError`.

## Model

| member | source | states |
|---|---|---|
| ProcessName.FailsWithoutSeparator | utilities/get_process_name.py:3-7 | `get_process_name` raises `IndexError` exactly when the path contains neither `/` nor `.` (the split yields one piece) |
| ProcessName.NameBeforeLastSeparator | utilities/get_process_name.py:3-7 | for any path `b + r + c + t` with `c` its last separator and `r` the separator-free text before it, the name is `r` |
| ProcessName.FetcherLogName | utilities/get_process_name.py:5-10 | the documented example ` ~/log/account_data_fetcher.log` names `account_data_fetcher` |
| ProcessName.EmptyPiecesKept | utilities/get_process_name.py:7 | `re.split` keeps empty pieces: `a//b` gives the empty name and `a/b.` gives `b` |
| RequestHandler.JoinsSpec | utilities/request_handler.py:10-26 | `endpoint_extension` and `api_module` put exactly one `/` or `?` between base and extension, the extension kept verbatim; an empty extension leaves a trailing `/` |
| RequestHandler.CallForSpec | utilities/request_handler.py:46-74 | exactly `get`, `post`, `put` and `delete` are accepted (anything else raises `ValueError`); URL and arguments pass through; only POST sends form data; headers are sent only on GET/POST and only when non-empty |
| RequestHandler.AnswerSpec | utilities/request_handler.py:76-91 | a raw response comes back untouched; a non-200 status gives `None`; a 200 gives the parsed body exactly when the content type is one of the three JSON types and raises otherwise |
| RequestHandler.UnknownMethodSendsNothing | utilities/request_handler.py:72-74 | an unknown method raises `ValueError` before any request is sent |
| Launcher.LowerAll | account_data_fetcher/launcher/runner.py:27-38 | the list keeps its length and each name is replaced by its lowercase form |
| Launcher.LowerAllIdempotent | account_data_fetcher/launcher/runner.py:86 | lowercasing an already lowercased list changes nothing, so names lowercased again by `launch_processes` stay as configured |
| Launcher.RekeyLower | account_data_fetcher/launcher/runner.py:54-56 | the re-keyed port and secret tables have exactly the lowercased keys of the originals |
| Launcher.RekeyLowerLastWins | account_data_fetcher/launcher/runner.py:54-56 | when keys collide after lowercasing, the value of the last such item is kept |
| Launcher.RoutesKeys | account_data_fetcher/launcher/runner.py:129-133 | a route exists exactly for each listed name that has a port, under its route name (`ib_flex`/`ib_async` become `ib` for fetchers), and carries the port of one of those names |
| Launcher.RoutesHas | account_data_fetcher/launcher/runner.py:129-133 | every listed name with a port gets a route |
| Launcher.FetcherRoutesCollapseIb | account_data_fetcher/launcher/runner.py:129-132 | no fetcher route is keyed `ib_flex` or `ib_async`, and any route other than `ib` is a listed name with a port |
| Launcher.AggregatorWaitsForConfiguredExchanges | account_data_fetcher/launcher/runner.py:118-141 | an aggregator started with this configuration publishes only once the exchanges that reported are exactly the listed exchanges that have a port, with the two IB variants counted once |
| Launcher.SecretKey | account_data_fetcher/launcher/runner.py:89-90 | any process whose lowercased name contains `ib` reads the `ib` secrets; every other process reads its own |
| Launcher.LaunchProcesses | account_data_fetcher/launcher/runner.py:76-116 | the launch loop starts processes for the lowercased names in order and stops at the first missing key, exactly as the recursive `Plan` does |
| Launcher.PlanLaunchesEveryName | account_data_fetcher/launcher/runner.py:88-113 | without a failure, every name is started in order with its own port, and dummy credentials go only to `csv` or `rsk` processes that have no secrets |
| Launcher.PlanFailureIsUnexcusedKey | account_data_fetcher/launcher/runner.py:91-110 | a launch failure names a missing key that is not excused: a secret key other than `csv`/`rsk`, or a key missing from the port table |
| DataAggregator.Restrict | account_data_fetcher/data_aggregator/data_aggregator.py:39-41 | the part of an update whose keys have been written so far: exactly the update's keys in the given set, with the update's values |
| DataAggregator.IngestEffect | account_data_fetcher/data_aggregator/data_aggregator.py:166-174 | storing a message changes only the sender's record; that record takes the message's balance, the fetch time and every column the message carries, and keeps the earlier columns the message does not mention (a first message stores its columns as they are) |
| DataAggregator.MinOf | account_data_fetcher/data_aggregator/data_aggregator.py:80-82 | `min` of a non-empty sequence is one of its elements and no larger than any of them |
| DataAggregator.ReadyIffSomeSourceStale | account_data_fetcher/data_aggregator/data_aggregator.py:72-84 | publishing is allowed exactly when the exchanges that reported are exactly the configured routes, the new-day gate is open (daily mode only), and some exchange's last fetch is at least `aggregation_interval` seconds old |
| DataAggregator.NotReadyUnlessExactSources | account_data_fetcher/data_aggregator/data_aggregator.py:73-74 | a configured exchange that has not reported, or a reporting exchange that is not configured, blocks publication |
| DataAggregator.DailyNeedsBothGates | account_data_fetcher/data_aggregator/data_aggregator.py:76-97 | in daily mode (86400 s) publishing needs a local hour of 5 or later, a local date different from the last emission's, and a fetch at least 86400 s old |
| DataAggregator.StaleSourceKeepsEmitting | account_data_fetcher/data_aggregator/data_aggregator.py:72-84 | in interval mode the gate ignores the previous emission: once one exchange is stale, every message from another configured exchange makes the aggregator publish again |
| DataAggregator.NoErrorAfterIngest | account_data_fetcher/data_aggregator/data_aggregator.py:80-82 | once a message has been stored, the `min()` over the exchanges can no longer raise `ValueError` |
| DataAggregator.Appended | account_data_fetcher/data_aggregator/data_aggregator.py:166-167 | dict insertion order: the new exchange is present, every earlier one is kept, and nothing else is added |
| DataAggregator.SecondDailyEvaluationSameDayFails | account_data_fetcher/data_aggregator/data_aggregator.py:86-100 | when the emission date stored is the UTC−5 date, the daily gate stays closed for the rest of that local day |
| DataAggregator.MissingColumn | account_data_fetcher/data_aggregator/data_aggregator.py:116-122 | the lookup of an exchange's columns raises `KeyError` exactly when one of `Symbol`, `Multiplier`, `Quantity`, `Dollar Quantity` is missing, naming the first missing one |
| DataAggregator.FlattenOkIffColumnsPresent | account_data_fetcher/data_aggregator/data_aggregator.py:113-124 | the positions object is built exactly when every exchange's table has the four data columns |
| DataAggregator.FlattenShape | account_data_fetcher/data_aggregator/data_aggregator.py:116-122 | every row carries the emission date and the name of an exchange that reported; the date and `Exchange` columns get one entry per `Symbol` row; when each exchange's columns are equally long, all six columns are |
| DataAggregator.Pairs | account_data_fetcher/data_aggregator/data_aggregator.py:113-114 | one balance entry per exchange, in arrival order, holding its balance |
| DataAggregator.BalanceEntriesAppend | account_data_fetcher/data_aggregator/data_aggregator.py:113-114 | without name clashes, the per-exchange assignments only append to the balance dictionary |
| DataAggregator.BalanceObjectShape | account_data_fetcher/data_aggregator/data_aggregator.py:103-114 | with no exchange named `netliq` or `date`, the balance object lists `netliq`, then `date`, then every exchange once in arrival order, and a lookup of each key gives its value |
| DataAggregator.PutAppends | account_data_fetcher/data_aggregator/data_aggregator.py:114 | assigning a key that the dict does not hold appends it last |
| DataAggregator.NetliqIsSumOfEntries | account_data_fetcher/data_aggregator/data_aggregator.py:101-114 | the published `netliq` is the sum of the per-exchange balance entries of the same object, with one entry per exchange |
| DataAggregator.FlattenErrorSticks | account_data_fetcher/data_aggregator/data_aggregator.py:113-122 | once an exchange's table lacks a column, the whole build fails with that column |
| DataAggregator.Merge | account_data_fetcher/data_aggregator/data_aggregator.py:103-124 | the loop of `__get_object_to_send` computes the snapshot `SnapshotOf` specifies (balance entries and the six position columns), or the first missing column |
| DataAggregator.ExchangeData.UpdatePosition | account_data_fetcher/data_aggregator/data_aggregator.py:39-41 | writing the update key by key leaves the old columns overridden by the update's, and balance and fetch time unchanged |
| DataAggregator.ExchangeData.Update | account_data_fetcher/data_aggregator/data_aggregator.py:49-52 | the record takes the new balance, the merged columns and the fetch time |
| DataAggregator.AggregatedData.GetObjectToSend | account_data_fetcher/data_aggregator/data_aggregator.py:99-124 | stores the emission date and `netliq`, the sum of the balances, and returns the snapshot of the current records; the records are unchanged |
| DataAggregator.AggregatedData.GetObjectIfReady | account_data_fetcher/data_aggregator/data_aggregator.py:68-70 | when not ready it returns `None` and changes nothing; when ready it publishes as `__get_object_to_send` does; the `ValueError` of an empty route set surfaces as an error |
| DataAggregator.AggregatedData.Store | account_data_fetcher/data_aggregator/data_aggregator.py:166-174 | the records become `Ingest` of the message; a new exchange is appended to the insertion order; date and `netliq` are untouched |
| DataAggregator.AggregatedData.AddExchange | account_data_fetcher/data_aggregator/data_aggregator.py:166-171 | a first message creates the exchange's record from the message and appends the exchange last |
| DataAggregator.AggregatedData.RefreshExchange | account_data_fetcher/data_aggregator/data_aggregator.py:173-174 | a later message updates that exchange's record in place; no other record changes |
| DataAggregator.AggregatedData.Receive | account_data_fetcher/data_aggregator/data_aggregator.py:159-178 | one pass of the receive loop: store the message, then publish exactly when `__can_send` holds on the updated records |
| DataAggregator.ExchangeData.constructor | account_data_fetcher/data_aggregator/data_aggregator.py:166-170 | an exchange's first message creates its record with the message's balance, its columns and the fetch time |
| DataAggregator.ExchangeData.UpdateBalance | account_data_fetcher/data_aggregator/data_aggregator.py:54-55 | only the balance changes, to the new value |
| DataAggregator.AggregatedData.constructor | account_data_fetcher/data_aggregator/data_aggregator.py:60-66 | the aggregate starts with the interval and routes given, no emission date, a `netliq` of 0 and no exchange |
| PositionMerge.Merge | account_data_fetcher/exchanges/binance/data_fetcher.py:105-122 | the merged table is well formed (one quantity, dollar and multiplier per symbol) |
| PositionMerge.MergeSymbols | account_data_fetcher/exchanges/binance/data_fetcher.py:105-122 | the merged symbols are distinct, are exactly the symbols of the input rows, and every multiplier is 1 |
| PositionMerge.MergeOrder | account_data_fetcher/exchanges/binance/data_fetcher.py:105-122 | a symbol appears in the merged table at the place of its first appearance in the input rows |
| PositionMerge.MergeSums | account_data_fetcher/exchanges/binance/data_fetcher.py:105-122 | the quantity and the dollar value of a merged symbol are the sums over all input rows with that symbol |
| PositionMerge.AbsorbRow | account_data_fetcher/exchanges/binance/data_fetcher.py:110-120 | one row is added into the running table: summed into an existing symbol, or appended as a new one |
| PositionMerge.MergeGroup | account_data_fetcher/exchanges/binance/data_fetcher.py:109-121 | merging one more table into the running result equals merging all rows seen so far |
| PositionMerge.MergeGroups | account_data_fetcher/exchanges/binance/data_fetcher.py:105-122 | merging the tables one after the other equals merging the concatenation of their rows |
| Binance.SpotLookupsRequested | account_data_fetcher/exchanges/binance/data_fetcher.py:124-135 | an asset outside the requested price set contributes the same whatever the price map holds, so every price consulted was asked for |
| Binance.AssetDollars | account_data_fetcher/exchanges/binance/data_fetcher.py:138-155 | one asset adds its free amount when stable, price × free when priced, and nothing when below both thresholds, an NFT or unpriced |
| Binance.ConvertBalancesToDollars | account_data_fetcher/exchanges/binance/data_fetcher.py:124-157 | the spot balance is the sum of the per-asset contributions, rounded to 3 decimals |
| Binance.MarginLookupsRequested | account_data_fetcher/exchanges/binance/data_fetcher.py:159-170 | a margin side outside the requested price set contributes independently of the price map |
| Binance.SideDollars | account_data_fetcher/exchanges/binance/data_fetcher.py:176-188 | one non-zero margin side adds its net asset when stable, price × net asset when priced, else nothing |
| Binance.ConvertIsolatedMargin | account_data_fetcher/exchanges/binance/data_fetcher.py:159-190 | the isolated margin balance is the sum over both sides of every pair, base first, rounded to 3 decimals |
| Binance.CrossMarginDollars | account_data_fetcher/exchanges/binance/data_fetcher.py:192-195 | the cross margin balance is within half a cent of net BTC × BTC price |
| Binance.TotalBalance | account_data_fetcher/exchanges/binance/data_fetcher.py:98-103 | the total balance is within 0.0005 of spot + isolated + cross |
| Binance.SpotHeld | account_data_fetcher/exchanges/binance/data_fetcher.py:206-208 | the spot rows are exactly the assets valued above 0.01 BTC |
| Binance.SpotTableRows | account_data_fetcher/exchanges/binance/data_fetcher.py:197-231 | row i of the spot table is the i-th held asset, with multiplier 1 and its full quantity (free + locked + freeze + withdrawing) |
| Binance.SpotPositions | account_data_fetcher/exchanges/binance/data_fetcher.py:197-231 | the spot position loop builds exactly the spot table |
| Binance.NonZero | account_data_fetcher/exchanges/binance/data_fetcher.py:244-251 | the margin rows are exactly the sides with a non-zero net asset |
| Binance.MarginTableRows | account_data_fetcher/exchanges/binance/data_fetcher.py:233-278 | row i of the margin table is the i-th non-zero side, with multiplier 1 and its net asset as quantity |
| Binance.MarginPositions | account_data_fetcher/exchanges/binance/data_fetcher.py:233-278 | the margin position loop builds the margin table over both sides of each pair |
| Binance.AllPositions | account_data_fetcher/exchanges/binance/data_fetcher.py:105-122 | all positions are the spot table, priced by its own USDT price round, and the margin table, priced by a separate round, merged by symbol |
| Binance.UsdtSymbols | account_data_fetcher/exchanges/binance/data_fetcher.py:280-281 | the requested symbols are exactly the non-stable, non-NFT assets suffixed with USDT |
| Binance.StripUsdtInverts | account_data_fetcher/exchanges/binance/data_fetcher.py:292-293 | dropping the last four characters recovers the asset from its USDT symbol |
| Binance.ChunksPartition | account_data_fetcher/exchanges/binance/data_fetcher.py:286-288 | the chunks cover the symbol list in order, each holding 1 to 100 symbols |
| Binance.CollectAppend | account_data_fetcher/exchanges/binance/data_fetcher.py:286-297 | one more chunk adds exactly its own answer to the prices collected so far |
| Binance.FailedChunkContributesNothing | account_data_fetcher/exchanges/binance/data_fetcher.py:294-296 | a chunk whose request raised leaves the collected prices as if it had not been sent |
| Binance.PricedAssetsWereRequested | account_data_fetcher/exchanges/binance/data_fetcher.py:280-297 | when answers list only requested symbols, every priced asset is a requested non-stable, non-NFT asset |
| Binance.StoreTickers | account_data_fetcher/exchanges/binance/data_fetcher.py:291-293 | each answered ticker stores its price under the stripped asset name |
| Binance.BatchUsdtPrices | account_data_fetcher/exchanges/binance/data_fetcher.py:280-297 | the requests are the chunks of the USDT symbols, the prices their collected answers, and nothing is sent when no asset qualifies |
| Binance.WithDefaults | account_data_fetcher/exchanges/binance/data_fetcher.py:84-86 | the receive window and timestamp are added only when absent, every caller argument is kept |
| Binance.Client.constructor | account_data_fetcher/exchanges/binance/data_fetcher.py:41-46 | the initial sync sets the offset to server minus local time, or leaves offset and last sync at 0 when it fails |
| Binance.Client.SyncTime | account_data_fetcher/exchanges/binance/data_fetcher.py:64-72 | a successful sync records the offset and the sync time; a failed one changes nothing |
| Binance.Client.TimestampMs | account_data_fetcher/exchanges/binance/data_fetcher.py:74-81 | a resync happens only after more than five minutes, and the timestamp is the reading plus the current offset |
| Binance.Client.SignedCall | account_data_fetcher/exchanges/binance/data_fetcher.py:83-96 | the first call sends the caller's arguments with `recvWindow` and `timestamp` filled in, the timestamp being the first reading plus the offset `_timestamp_ms` left; on -1021 the client resyncs and makes exactly one more call with only the timestamp replaced, by the second reading plus the offset after that resync and any five-minute resync; the final offset and sync time are those of this sequence; any other error is raised |
| Binance.LatestPriceQuery | account_data_fetcher/exchanges/binance/data_fetcher.py:325-330 | a single symbol takes precedence over a list, and neither is an error |
| Binance.WindowsSpec | account_data_fetcher/exchanges/binance/data_fetcher.py:365-387 | the history windows are consecutive, start at the start, end at the end, are at most 90 days and all but the last exactly 90 |
| Binance.HistoryWindows | account_data_fetcher/exchanges/binance/data_fetcher.py:369-380 | the window loop produces exactly the specified windows |
| BybitConnector.SignedKeys | account_data_fetcher/exchanges/bybit/bybit_connector.py:122-125 | exactly the keys other than `sign` whose value is not None take part in the signature |
| BybitConnector.SignedKeysSorted | account_data_fetcher/exchanges/bybit/bybit_connector.py:122-125 | dropping keys keeps the signed keys in strictly increasing (sorted) order |
| BybitConnector.Assignments | account_data_fetcher/exchanges/bybit/bybit_connector.py:123 | each signed key is written as `k=v` with its own value, in the same order |
| BybitConnector.QueryContents | account_data_fetcher/exchanges/bybit/bybit_connector.py:120-128 | the signed query lists, once each and in sorted order, exactly the non-`sign` keys with a value, each as `k=v` joined by `&` |
| BybitConnector.SignEntryIgnored | account_data_fetcher/exchanges/bybit/bybit_connector.py:120-128 | adding or changing a `sign` entry leaves the signed query unchanged |
| BybitConnector.HandleUnfold | account_data_fetcher/exchanges/bybit/bybit_connector.py:138-232 | one attempt with budget left either retries with the updated window or ends with that attempt's result |
| BybitConnector.WindowErrorsFront | account_data_fetcher/exchanges/bybit/bybit_connector.py:199-202 | counting the `10002` replies of a range from its first attempt agrees with counting from its last |
| BybitConnector.WindowAfterStep | account_data_fetcher/exchanges/bybit/bybit_connector.py:199-202 | each attempt moves the receive window by 2500 exactly when it replied `10002` |
| BybitConnector.PreimagesAt | account_data_fetcher/exchanges/bybit/bybit_connector.py:140-141 | the i-th request signs the clock reading of attempt i and the window left by the replies before it |
| BybitConnector.HandleSpec | account_data_fetcher/exchanges/bybit/bybit_connector.py:133-232 | at most `max_retries` requests are sent; running out means all were retried and exactly `max_retries` sent; otherwise the last request decides the result; the window grew 2500 per `10002` among retried requests |
| BybitConnector.SucceedsIff | account_data_fetcher/exchanges/bybit/bybit_connector.py:133-232 | the request returns a body exactly when some attempt within the budget answered `retCode` 0 with it and all earlier attempts were retried |
| BybitConnector.InvalidOnlyOutsideWhitelist | account_data_fetcher/exchanges/bybit/bybit_connector.py:190-228 | `InvalidRequestError` carries a nonzero code outside the retry whitelist, taken from the last reply |
| BybitConnector.RateLimitReply | account_data_fetcher/exchanges/bybit/bybit_connector.py:190-219 | a whitelisted `10006` reply with its reset time is retried at once; the request raises KeyError exactly when its last reply is a whitelisted `10006` without `rate_limit_reset_ms`, every earlier one having been retried |
| BybitConnector.NoForceRetry | account_data_fetcher/exchanges/bybit/bybit_connector.py:160-188 | without `force_retry` a transport error is re-raised and an undecodable body gives the 409 error, after one request |
| BybitConnector.ExhaustedBudget | account_data_fetcher/exchanges/bybit/bybit_connector.py:143-150 | when every allowed attempt fails in a retried way, the 400 error is raised after exactly `max_retries` requests |
| BybitConnector.Connector.constructor | account_data_fetcher/exchanges/bybit/bybit_connector.py:18-32 | the connector starts with a 5000 ms receive window and the default retry codes unless others are given |
| BybitConnector.Connector.Respond | account_data_fetcher/exchanges/bybit/bybit_connector.py:160-232 | one outcome stops the loop exactly when it is not retried, with its final result (a whitelisted `10006` without its reset time raising KeyError); a retried `10002` raises the window by 2500 |
| BybitConnector.Connector.PrepareAndHandleRequest | account_data_fetcher/exchanges/bybit/bybit_connector.py:133-232 | the loop's result, final window and request count are those of the retry specification, and each request signs the specified preimage |
| BybitFetcher.CoinPrice | account_data_fetcher/exchanges/bybit/data_fetcher.py:193-209 | the pairs are tried USDT, USD, USDC; only an `InvalidRequestError` moves on, so the first other reply decides: its price, the KeyError of a reply without "price", or the connector's `FailedRequestError`; there is no price exactly when all three are invalid |
| BybitFetcher.FailedLookupRaises | account_data_fetcher/exchanges/bybit/data_fetcher.py:193-198 | a `FailedRequestError` on the USDT pair escapes the lookup and the coin's valuation, whatever USD and USDC would quote |
| BybitFetcher.Kept | account_data_fetcher/exchanges/bybit/data_fetcher.py:130-140 | the listed coins are input coins worth more than 100 dollars |
| BybitFetcher.CoinTable | account_data_fetcher/exchanges/bybit/data_fetcher.py:120-164 | a wallet's position table is well formed whenever it is produced |
| BybitFetcher.CoinTableSpec | account_data_fetcher/exchanges/bybit/data_fetcher.py:120-164 | the table fails exactly when some coin cannot be priced (its lookup raises, or finds no pair); otherwise row i is the i-th coin worth over 100 dollars, with multiplier 1, its quantity rounded to 3 and its dollar value |
| BybitFetcher.UnifiedRowsArePricedHoldings | account_data_fetcher/exchanges/bybit/data_fetcher.py:142-164 | no stable coin (DAI included) and no non-positive quantity appears among the unified wallet's positions, and each row is worth over 100 dollars |
| BybitFetcher.SpotPositions | account_data_fetcher/exchanges/bybit/data_fetcher.py:120-140 | the spot position loop builds the spot wallet's table or fails as specified |
| BybitFetcher.UnifiedPositions | account_data_fetcher/exchanges/bybit/data_fetcher.py:142-164 | the unified position loop builds the unified wallet's table or fails as specified |
| BybitFetcher.ErrorSticks | account_data_fetcher/exchanges/bybit/data_fetcher.py:130-136 | once one coin fails to price, the coins after it do not change the outcome |
| BybitFetcher.HeldDerivatives | account_data_fetcher/exchanges/bybit/data_fetcher.py:176-177 | the derivative rows come from positions whose size field is not empty |
| BybitFetcher.DerivativeTableRows | account_data_fetcher/exchanges/bybit/data_fetcher.py:166-183 | row i is the i-th held position: size rounded to 3 and position value plus realised and unrealised PnL rounded to 3 |
| BybitFetcher.DerivativesPositions | account_data_fetcher/exchanges/bybit/data_fetcher.py:166-183 | the derivative position loop builds exactly the derivative table |
| BybitFetcher.FetchPositions | account_data_fetcher/exchanges/bybit/data_fetcher.py:60-108 | a unified account merges derivatives then the unified wallet, any other merges the spot wallet then derivatives, summed by symbol |
| BybitFetcher.SpecificPositions | account_data_fetcher/exchanges/bybit/data_fetcher.py:110-118 | SPOT, FUTURE and UNIFIED give their own table; any other market raises TypeError (`NotImplemented` is not callable) |
| BybitFetcher.SpotNetliqErr | account_data_fetcher/exchanges/bybit/data_fetcher.py:40-56 | the spot value fails exactly when some non-zero, non-stable coin's price lookup raises or finds no pair |
| BybitFetcher.SpotNetliqStables | account_data_fetcher/exchanges/bybit/data_fetcher.py:50-56 | when every coin is a stable the spot value is the total of their balances |
| BybitFetcher.StableAtFace | account_data_fetcher/exchanges/bybit/data_fetcher.py:53-54 | a stable coin counts at its balance |
| BybitFetcher.SpotNetliqFaceValue | account_data_fetcher/exchanges/bybit/data_fetcher.py:44-56 | coins that all count at face value add up to their total balance |
| BybitFetcher.NetliqErrorSticks | account_data_fetcher/exchanges/bybit/data_fetcher.py:44-56 | once one coin fails to price, the spot value stays that error |
| BybitFetcher.GetBalances | account_data_fetcher/exchanges/bybit/data_fetcher.py:24-58 | a unified account reports its equity; otherwise derivative equity plus the spot value, rounded to a whole number, with either error passed on |
| BybitFetcher.FetchBalance | account_data_fetcher/exchanges/bybit/data_fetcher.py:20-22 | the balance is the unified equity rounded to 2, or for any other account the derivative equity plus the spot wallet's value rounded to a whole number and then to 2; the error is that of the first source that fails, and it fails exactly when a source fails |
| CoinGeckoFetcher.VitaRuleIsGeneralRule | account_data_fetcher/exchanges/coingecko/data_fetcher.py:86-88 | the VITA special case files the entry exactly where the general rule would |
| CoinGeckoFetcher.MapsSymbols | account_data_fetcher/exchanges/coingecko/data_fetcher.py:79-91 | the symbols mapped are exactly the filed symbols of the coin-list entries |
| CoinGeckoFetcher.MapsIds | account_data_fetcher/exchanges/coingecko/data_fetcher.py:79-91 | the ids mapped are exactly the upper-cased ids of the entries |
| CoinGeckoFetcher.MapsDomain | account_data_fetcher/exchanges/coingecko/data_fetcher.py:79-91 | each map's values are keys of the other map |
| CoinGeckoFetcher.LastEntryWins | account_data_fetcher/exchanges/coingecko/data_fetcher.py:79-91 | a symbol maps to the id of the last entry filed under it |
| CoinGeckoFetcher.MapsRoundTrip | account_data_fetcher/exchanges/coingecko/data_fetcher.py:79-91 | with distinct ids, the id a symbol maps to maps back to that symbol |
| CoinGeckoFetcher.SharedIdBreaksRoundTrip | account_data_fetcher/exchanges/coingecko/data_fetcher.py:79-91 | two entries sharing an id leave the first symbol pointing at an id that maps back to the second |
| CoinGeckoFetcher.BuildMaps | account_data_fetcher/exchanges/coingecko/data_fetcher.py:77-94 | the map-building loop produces exactly the specified maps |
| CoinGeckoFetcher.LoadSpec | account_data_fetcher/exchanges/coingecko/data_fetcher.py:60-105 | the load takes the first non-empty list of two attempts, pauses 60 s only after a failed first attempt, and leaves both maps empty when neither succeeds |
| CoinGeckoFetcher.IdsToFetch | account_data_fetcher/exchanges/coingecko/data_fetcher.py:32 | at most one id per requested symbol, each an id of the map |
| CoinGeckoFetcher.IdsToFetchSpec | account_data_fetcher/exchanges/coingecko/data_fetcher.py:32-35 | no id is fetched exactly when no requested symbol is mapped, and every mapped symbol's id is fetched |
| CoinGeckoFetcher.LowerAll | account_data_fetcher/exchanges/coingecko/data_fetcher.py:39 | each id is lower-cased in place |
| CoinGeckoFetcher.LowerJoin | account_data_fetcher/exchanges/coingecko/data_fetcher.py:39 | lower-casing the comma-joined ids equals joining the lower-cased ids |
| CoinGeckoFetcher.PricesBySymbolKeys | account_data_fetcher/exchanges/coingecko/data_fetcher.py:51-55 | the symbols priced are exactly those the answer's ids map back to |
| CoinGeckoFetcher.PricesBySymbolLast | account_data_fetcher/exchanges/coingecko/data_fetcher.py:51-55 | each priced symbol carries the prices of the last answered id mapping back to it |
| CoinGeckoFetcher.MapBack | account_data_fetcher/exchanges/coingecko/data_fetcher.py:51-55 | the back-mapping loop produces exactly the specified price map |
| CoinGeckoFetcher.PricesRequest | account_data_fetcher/exchanges/coingecko/data_fetcher.py:32-41 | a request goes out exactly when some requested symbol is mapped, naming the lower-cased ids of the mapped symbols |
| CoinGeckoFetcher.PricesAnswer | account_data_fetcher/exchanges/coingecko/data_fetcher.py:43-58 | every returned symbol is a mapped symbol some answered id maps back to; a client error returns nothing |
| CoinGeckoFetcher.EchoedIdMapsBack | account_data_fetcher/exchanges/coingecko/data_fetcher.py:39-55 | with distinct ids, the lower-cased id sent for a symbol maps back to that symbol |
| CoinGeckoFetcher.DataFetcher.constructor | account_data_fetcher/exchanges/coingecko/data_fetcher.py:15-22 | the fetcher starts with neither map loaded |
| CoinGeckoFetcher.DataFetcher.GetIdPerSymbol | account_data_fetcher/exchanges/coingecko/data_fetcher.py:60-105 | loading sets both maps to the load's result and reports its pauses |
| CoinGeckoFetcher.DataFetcher.GetPrices | account_data_fetcher/exchanges/coingecko/data_fetcher.py:24-58 | the maps are loaded only on first use and the answer is the specified price query over them |
| Common.RoundClose | account_data_fetcher/exchanges/binance/data_fetcher.py:103 | `round(x, n)` lands within half a unit of the n-th decimal of x |
| Common.RoundWhole | account_data_fetcher/exchanges/bybit/data_fetcher.py:20-22 | rounding a whole number to any number of decimals leaves it unchanged |
| CsvWriter.ReadIndexed | account_data_fetcher/writers/csv/writer.py:39 | reading with `date` as index keeps one index cell and one data row per file row, over the other columns |
| CsvWriter.AddColumnsSpec | account_data_fetcher/writers/csv/writer.py:40-41 | each added column is appended to the columns with a 0 in every existing row, the index unchanged |
| CsvWriter.EqualColumnsMisaligned | account_data_fetcher/writers/csv/writer.py:54-57 | with the header `date,netliq` and a row arriving as `netliq, date`, the source writes the value under `date` |
| CsvWriter.AsWrittenAgreesInHeaderOrder | account_data_fetcher/writers/csv/writer.py:54-57 | a row arriving in the header's own order is written the same way by the source and by the header layout |
| CsvWriter.NewFileAligned | account_data_fetcher/writers/csv/writer.py:59-60 | a new balance file holds the one row with each key's cell under its own column |
| CsvWriter.RewriteShape | account_data_fetcher/writers/csv/writer.py:38-45 | the rewrite gives `date`, the old columns and the added ones; the old rows padded with zeros, then the new row |
| CsvWriter.RewriteCell | account_data_fetcher/writers/csv/writer.py:43-45 | after the rewrite the new row has each key's cell under its column |
| CsvWriter.RewriteKeepsCell | account_data_fetcher/writers/csv/writer.py:39-45 | the rewrite keeps each old row's cell under each old column |
| CsvWriter.RewriteZeroCell | account_data_fetcher/writers/csv/writer.py:40-41 | the rewrite puts 0 under each added column of an old row |
| CsvWriter.RewriteKeepsRows | account_data_fetcher/writers/csv/writer.py:38-45 | every old row survives the rewrite: old columns keep their cells and added columns hold 0 |
| CsvWriter.BalanceUpdateSpec | account_data_fetcher/writers/csv/writer.py:20-60 | the update fails only without `date` (or when a rewrite has no `date` column); otherwise exactly one row is added, no old column is lost, and each key's cell lies under its own column |
| CsvWriter.SubsetRowPadsZero | account_data_fetcher/writers/csv/writer.py:47-52 | a row lacking some header columns is appended in header order with 0 under the missing ones |
| CsvWriter.PositionUpdateSpec | account_data_fetcher/writers/csv/writer.py:65-88 | the update fails exactly on an empty file or a different column set; otherwise the header is kept (or written) and one row per index below the shortest column is appended |
| CsvWriter.PositionCellAt | account_data_fetcher/writers/csv/writer.py:78-88 | when the header lists the columns in incoming order, each appended cell lies under its own column |
| CsvWriter.Writer.constructor | account_data_fetcher/writers/csv/writer.py:13-18 | the writer starts with the two files as found |
| CsvWriter.Writer.UpdateBalances | account_data_fetcher/writers/csv/writer.py:20-63 | the balance file becomes the corrected update (each value under its own column, see Findings), or is left as it was with the error reported; the position file is untouched |
| CsvWriter.Writer.UpdatePositions | account_data_fetcher/writers/csv/writer.py:65-91 | the position file becomes the specified update, or is left as it was with the error reported; the balance file is untouched |
| DepositWithdraw.ExchangeAnswerSpec | account_data_fetcher/writers/deposit_and_withdraw_handler.py:134-164 | an empty answer means no exchange; any other is refused exactly when its upper case is not supported, and an accepted one is returned upper-cased |
| DepositWithdraw.LowerCaseAccepted | account_data_fetcher/writers/deposit_and_withdraw_handler.py:141-148 | a supported name typed in lower case is accepted and given back upper-cased |
| DepositWithdraw.DayRoundTrip | account_data_fetcher/writers/deposit_and_withdraw_handler.py:111-129 | a two-digit day reads back as itself under `%d` |
| DepositWithdraw.MonthRoundTrip | account_data_fetcher/writers/deposit_and_withdraw_handler.py:111-129 | a two-digit month reads back as itself under `%m` |
| DepositWithdraw.YearRoundTrip | account_data_fetcher/writers/deposit_and_withdraw_handler.py:111-129 | a four-digit year reads back as itself under `%Y` |
| DepositWithdraw.ParseFields | account_data_fetcher/writers/deposit_and_withdraw_handler.py:117-132 | text made of three slash-free fields is parsed field by field |
| DepositWithdraw.FormatParses | account_data_fetcher/writers/deposit_and_withdraw_handler.py:110-113 | today's date as the handler writes it is a valid date and reads back as the same day |
| DepositWithdraw.CalendarChecked | account_data_fetcher/writers/deposit_and_withdraw_handler.py:117-132 | 29/02/2024 is valid, while 29/02/2023 and 31/04/2024 are not |
| DepositWithdraw.LeapDayAccepted | account_data_fetcher/writers/deposit_and_withdraw_handler.py:117-132 | February 29th of a leap year is accepted |
| DepositWithdraw.DaysOutsideMonthRefused | account_data_fetcher/writers/deposit_and_withdraw_handler.py:117-132 | a day past the end of its month is refused: February 29th of a common year, April 31st |
| DepositWithdraw.ShortFieldsAccepted | account_data_fetcher/writers/deposit_and_withdraw_handler.py:117-132 | single-digit fields and a space-padded day are read as `strptime` reads them |
| DepositWithdraw.MalformedRefused | account_data_fetcher/writers/deposit_and_withdraw_handler.py:117-132 | a two-digit year and a thirteenth month are refused |
| DepositWithdraw.GetDateSpec | account_data_fetcher/writers/deposit_and_withdraw_handler.py:102-115 | the answer is refused exactly when it is typed and not a valid date; every accepted date is valid and a typed one is kept as typed |
| DepositWithdraw.NewRecordValid | account_data_fetcher/writers/deposit_and_withdraw_handler.py:87-100 | a record that is built has a valid date and only supported exchanges, and building fails exactly when some answer is refused |
| DepositWithdraw.Rows | account_data_fetcher/writers/deposit_and_withdraw_handler.py:38-42 | one written line per record, each the record's own line |
| DepositWithdraw.HeaderOnce | account_data_fetcher/writers/deposit_and_withdraw_handler.py:28-57 | starting from a missing or empty file, any number of writes leave the header followed by one line per record |
| DepositWithdraw.ExistingFileNoHeader | account_data_fetcher/writers/deposit_and_withdraw_handler.py:36-42 | a file already holding lines only gets the records' lines |
| DepositWithdraw.Ledger.constructor | account_data_fetcher/writers/deposit_and_withdraw_handler.py:44-57 | the ledger starts with the folder's files as found |
| DepositWithdraw.Ledger.WriteRecord | account_data_fetcher/writers/deposit_and_withdraw_handler.py:28-42 | writing a record replaces only that file, with the record appended after the header when the file was not found |
| EthereumFetcher.CallsLength | account_data_fetcher/exchanges/ethereum/data_fetcher.py:195-204 | the multicall holds one call per coin and holder |
| EthereumFetcher.CallAt | account_data_fetcher/exchanges/ethereum/data_fetcher.py:197-201 | call number c × holders + a asks for holder a's balance of coin c (coin-major order) |
| EthereumFetcher.QueryMultiCall | account_data_fetcher/exchanges/ethereum/data_fetcher.py:195-204 | the nested loops build exactly the specified calls |
| EthereumFetcher.ScaledPositive | account_data_fetcher/exchanges/ethereum/data_fetcher.py:188-191 | a coin's balance is positive exactly when some holder's answer is positive, and is 0 otherwise |
| EthereumFetcher.ScaledPositiveTotal | account_data_fetcher/exchanges/ethereum/data_fetcher.py:186-192 | a coin's balance is its total positive wei over 10 to the coin's decimals |
| EthereumFetcher.OffsetIsProduct | account_data_fetcher/exchanges/ethereum/data_fetcher.py:185-192 | the running counter reaches coin c's answers at c × holders |
| EthereumFetcher.TokenBalancesDefined | account_data_fetcher/exchanges/ethereum/data_fetcher.py:181-193 | reading the answers fails exactly when there are too few of them or a coin with a positive balance has no decimals entry |
| EthereumFetcher.TokenBalancesDomain | account_data_fetcher/exchanges/ethereum/data_fetcher.py:186-191 | only configured coins are stored |
| EthereumFetcher.TokenBalancesKeys | account_data_fetcher/exchanges/ethereum/data_fetcher.py:181-193 | the balance map is well formed and holds exactly the coins with a positive balance, in configuration order |
| EthereumFetcher.TokenBalancesValues | account_data_fetcher/exchanges/ethereum/data_fetcher.py:186-192 | each stored coin holds its positive wei summed over holders and scaled by its decimals |
| EthereumFetcher.TokenBalancesPositive | account_data_fetcher/exchanges/ethereum/data_fetcher.py:189-191 | every stored token balance is positive |
| EthereumFetcher.ReadCoin | account_data_fetcher/exchanges/ethereum/data_fetcher.py:187-192 | the inner loop reads one coin's answers exactly as specified |
| EthereumFetcher.TokenBalancesByCoin | account_data_fetcher/exchanges/ethereum/data_fetcher.py:181-193 | the token loop with its running counter yields exactly the specified balance map |
| EthereumFetcher.BalancesFailSticks | account_data_fetcher/exchanges/ethereum/data_fetcher.py:181-193 | once a coin's read fails, the whole read fails |
| EthereumFetcher.EthBalance | account_data_fetcher/exchanges/ethereum/data_fetcher.py:174-179 | the native balance is every holder's wei summed over 10 to ETH's decimals, failing exactly without that entry |
| EthereumFetcher.SyncBalancesSpec | account_data_fetcher/exchanges/ethereum/data_fetcher.py:163-172 | any failure gives the empty dictionary; otherwise the map is well formed and ETH holds the native balance |
| EthereumFetcher.TotalBalanceByCoinSync | account_data_fetcher/exchanges/ethereum/data_fetcher.py:163-172 | the synchronous read yields exactly the specified dictionary |
| EthereumFetcher.CoinsToFetchSpec | account_data_fetcher/exchanges/ethereum/data_fetcher.py:148 | a price is requested exactly for the coins that are not USD-like and have a positive balance |
| EthereumFetcher.Dollars | account_data_fetcher/exchanges/ethereum/data_fetcher.py:108-113 | one dollar value per coin, in key order |
| EthereumFetcher.AllUsdAtFaceValue | account_data_fetcher/exchanges/ethereum/data_fetcher.py:108-115 | when every coin is USD-like the value is the plain sum of the balances, whatever the prices |
| EthereumFetcher.UnpricedAddsNothing | account_data_fetcher/exchanges/ethereum/data_fetcher.py:111-113 | a coin absent from the price cache adds nothing |
| EthereumFetcher.PositionsTableSpec | account_data_fetcher/exchanges/ethereum/data_fetcher.py:127-139 | row i is coin i with multiplier 1, its balance and its dollar value, both rounded to 3 |
| EthereumFetcher.PositionsTableAt | account_data_fetcher/exchanges/ethereum/data_fetcher.py:127-139 | one row of the position table, as above |
| EthereumFetcher.DataFetcher.constructor | account_data_fetcher/exchanges/ethereum/data_fetcher.py:40-56 | the fetcher starts with both caches empty and the configured coins, holders and decimals |
| EthereumFetcher.DataFetcher.TotalBalanceByCoin | account_data_fetcher/exchanges/ethereum/data_fetcher.py:153-161 | a fresh cache is returned as is; otherwise the chain is read and a non-empty answer is cached |
| EthereumFetcher.DataFetcher.GetPricesForCoins | account_data_fetcher/exchanges/ethereum/data_fetcher.py:143-151 | a fresh price cache is kept; otherwise it is replaced by the prices of the coins worth requesting |
| EthereumFetcher.DataFetcher.FetchBalance | account_data_fetcher/exchanges/ethereum/data_fetcher.py:99-115 | 0 for an empty balance map, otherwise the dollar value of every coin summed and rounded to 3; the balance cache is kept when fresh or when the chain answers nothing, else replaced by the new answer; the price cache is kept for an empty map or when fresh, else replaced by the prices of the coins worth requesting |
| EthereumFetcher.DataFetcher.FetchPositions | account_data_fetcher/exchanges/ethereum/data_fetcher.py:117-141 | the empty table for an empty balance map, otherwise one row per coin with its quantity and dollar value rounded to 3; the balance cache is kept when fresh or when the chain answers nothing, else replaced by the new answer; the price cache is kept for an empty map or when fresh, else replaced by the prices of the coins worth requesting |
| GsheetWriter.Reindex | account_data_fetcher/writers/gsheet/writer.py:76-77 | an old record reindexed on the merged columns keeps its own cell under each of its columns and holds 0 under the others |
| GsheetWriter.ReindexCell | account_data_fetcher/writers/gsheet/writer.py:74-77 | under the merged header an old record keeps each old cell and holds 0 under each added column |
| GsheetWriter.BalanceUpdateSpec | account_data_fetcher/writers/gsheet/writer.py:43-88 | one row is added; the old header is kept as a prefix of the new one; the new row has each key's cell under its column and 0 under absent ones; every old row keeps its cells |
| GsheetWriter.ReorderedRowAligned | account_data_fetcher/writers/gsheet/writer.py:62-66 | a row whose keys arrive in another order than the header's still lands under its own columns |
| GsheetWriter.PositionUpdateSpec | account_data_fetcher/writers/gsheet/writer.py:96-111 | the update succeeds exactly on an empty sheet or a header equal, in order, to the incoming keys; each appended cell lies under its own column |
| GsheetWriter.ReorderedHeaderRefused | account_data_fetcher/writers/gsheet/writer.py:101-103 | the same columns in another order are refused |
| GsheetWriter.Writer.constructor | account_data_fetcher/writers/gsheet/writer.py:19-25 | the writer starts with the two worksheets as found |
| GsheetWriter.Writer.UpdateBalances | account_data_fetcher/writers/gsheet/writer.py:43-91 | the balance worksheet becomes the specified update; the position worksheet is untouched |
| GsheetWriter.Writer.UpdatePositions | account_data_fetcher/writers/gsheet/writer.py:93-114 | the position worksheet becomes the specified update, or is left as it was with the error reported; the balance worksheet is untouched |
| IbFlexFetcher.FreshWindow | account_data_fetcher/exchanges/ib_flex/data_fetcher.py:87-98 | a cached statement is fresh exactly when IB's clock (UTC minus 5 hours) is less than 120 s past its report time, for the two known query types; any other type yields None |
| IbFlexFetcher.FreshEarlier | account_data_fetcher/exchanges/ib_flex/data_fetcher.py:87-98 | a statement fresh at some time was fresh at every earlier time |
| IbFlexFetcher.CurrentSpec | account_data_fetcher/exchanges/ib_flex/data_fetcher.py:36-44 | the download happens exactly when the cached statement is not fresh; a fresh one is used as it is, otherwise the first parsed statement or the error |
| IbFlexFetcher.NoRefetchWhileFresh | account_data_fetcher/exchanges/ib_flex/data_fetcher.py:36-44 | two reads within one freshness window agree, whatever a second download would return |
| IbFlexFetcher.BalanceOf | account_data_fetcher/exchanges/ib_flex/data_fetcher.py:53 | the balance is within 0.0005 of the statement's ending NAV |
| IbFlexFetcher.PositionsTable | account_data_fetcher/exchanges/ib_flex/data_fetcher.py:62-75 | the position table is well formed with one row per open position |
| IbFlexFetcher.PositionsTableRows | account_data_fetcher/exchanges/ib_flex/data_fetcher.py:69-73 | row i holds position i: its symbol, its truncated multiplier and quantity, and its dollar value |
| IbFlexFetcher.DollarClose | account_data_fetcher/exchanges/ib_flex/data_fetcher.py:73 | a position's dollar value is within 0.0005 of mark price × multiplier × truncated quantity |
| Common.Trunc | account_data_fetcher/exchanges/ib_flex/data_fetcher.py:71-72 | `int()` of a float truncates toward zero, for either sign |
| IbFlexFetcher.PollFromSpec | account_data_fetcher/exchanges/ib_flex/data_fetcher.py:134-164 | the k-th poll waits 30·k seconds; every reply before the last lets the loop go on with its pause; the last settles the outcome unless the replies ran out |
| IbFlexFetcher.TimeoutRaisedLate | account_data_fetcher/exchanges/ib_flex/data_fetcher.py:146-152 | a poll timeout escapes the loop only from the sixth poll on |
| IbFlexFetcher.PollStep | account_data_fetcher/exchanges/ib_flex/data_fetcher.py:135-164 | one poll of the loop, seen from its position k, is the specified step |
| IbFlexFetcher.RequestStatementAndPoll | account_data_fetcher/exchanges/ib_flex/data_fetcher.py:123-164 | the request and poll loop produces exactly the specified run |
| IbFlexFetcher.DataFromUnfold | account_data_fetcher/exchanges/ib_flex/data_fetcher.py:106-120 | one attempt of `get_data`: a retryable outcome pauses and goes on, any other settles the result |
| IbFlexFetcher.Decide | account_data_fetcher/exchanges/ib_flex/data_fetcher.py:107-120 | one attempt's outcome stops the loop exactly when it is not retryable, with its settled result, or gives the prescribed pause |
| IbFlexFetcher.GetData | account_data_fetcher/exchanges/ib_flex/data_fetcher.py:104-121 | the retry loop yields exactly the specified result and pauses |
| IbFlexFetcher.DataFromEnd | account_data_fetcher/exchanges/ib_flex/data_fetcher.py:104-121 | no attempt past the tenth is made; the loop gives up only after all attempts were retryable; otherwise the first non-retryable attempt settles |
| IbFlexFetcher.DataFromStep | account_data_fetcher/exchanges/ib_flex/data_fetcher.py:106-120 | a retryable attempt within the ten adds its pause; any other adds none |
| IbFlexFetcher.DataFromPause | account_data_fetcher/exchanges/ib_flex/data_fetcher.py:111-120 | each pause follows a retryable attempt and has its prescribed length |
| IbFlexFetcher.GetDataSpec | account_data_fetcher/exchanges/ib_flex/data_fetcher.py:104-121 | at most ten attempts; each pause follows code 1018 (5·attempt s) or a read timeout (15 s); otherwise the first other outcome settles |
| IbFlexFetcher.GetDataPauses | account_data_fetcher/exchanges/ib_flex/data_fetcher.py:111-120 | every pause of `get_data` follows a retryable attempt and has its prescribed length |
| IbFlexFetcher.GetDataExhausted | account_data_fetcher/exchanges/ib_flex/data_fetcher.py:121 | `get_data` gives up exactly when all ten attempts were retryable |
| IbFlexFetcher.DataFetcher.constructor | account_data_fetcher/exchanges/ib_flex/data_fetcher.py:22-27 | the adapter starts with no cached statement |
| IbFlexFetcher.DataFetcher.UpdateBalanceAndGetIbDatetime | account_data_fetcher/exchanges/ib_flex/data_fetcher.py:36-39 | the balance statement is refreshed unless fresh and its report time returned; a failed download leaves the cache |
| IbFlexFetcher.DataFetcher.UpdatePositionsAndGetIbDatetime | account_data_fetcher/exchanges/ib_flex/data_fetcher.py:41-44 | the same for the positions statement |
| IbFlexFetcher.DataFetcher.FetchBalance | account_data_fetcher/exchanges/ib_flex/data_fetcher.py:46-53 | the balance is the current statement's ending NAV rounded to 3 |
| IbFlexFetcher.DataFetcher.FetchPositions | account_data_fetcher/exchanges/ib_flex/data_fetcher.py:55-75 | the positions are the table of the current positions statement |
| IbFlexFetcher.DataFetcher.RefreshBalance | account_data_fetcher/exchanges/ib_flex/data_fetcher.py:77-80 | the balance cache takes the current statement, or is left alone on error |
| IbFlexFetcher.DataFetcher.RefreshPositions | account_data_fetcher/exchanges/ib_flex/data_fetcher.py:82-85 | the positions cache takes the current statement, or is left alone on error |
| KrakenConnector.SetParamSpec | account_data_fetcher/exchanges/kraken/kraken_connector.py:85 | after writing the nonce the key holds the new value, every other entry is kept, and nothing else is added |
| KrakenConnector.SetParamKeys | account_data_fetcher/exchanges/kraken/kraken_connector.py:85 | the parameter order changes only by appending a new key |
| KrakenConnector.SetParamTwice | account_data_fetcher/exchanges/kraken/kraken_connector.py:85 | writing the same key twice leaves only the second value |
| KrakenConnector.Pairs | account_data_fetcher/exchanges/kraken/kraken_connector.py:70 | the post data lists each parameter as `k=v` in insertion order |
| KrakenConnector.HandleSpec | account_data_fetcher/exchanges/kraken/kraken_connector.py:78-136 | at most `max_retries` requests are sent; running out means all were retried; otherwise every request but the last was retried and the last decides the result |
| KrakenConnector.FinalReply | account_data_fetcher/exchanges/kraken/kraken_connector.py:121-136 | an error list raises `InvalidRequestError` exactly when it is non-empty and holds no retry code; an empty one returns the body |
| KrakenConnector.SucceedsIff | account_data_fetcher/exchanges/kraken/kraken_connector.py:78-136 | the request returns a body exactly when some attempt within the budget answered it with no error and all earlier attempts were retried |
| KrakenConnector.NoForceRetry | account_data_fetcher/exchanges/kraken/kraken_connector.py:102-119 | without `force_retry` a transport error is re-raised and an undecodable body raises `FailedRequestError`, after one request |
| KrakenConnector.RequestsAt | account_data_fetcher/exchanges/kraken/kraken_connector.py:83-86 | attempt i sends the request built from the clock reading of attempt i |
| KrakenConnector.Prepare | account_data_fetcher/exchanges/kraken/kraken_connector.py:83-86 | a private attempt writes a fresh nonce into the parameters and signs the path with that nonce and the post data |
| KrakenConnector.Connector.constructor | account_data_fetcher/exchanges/kraken/kraken_connector.py:19-33 | the connector keeps its settings and defaults the retry codes to the rate-limit error |
| KrakenConnector.Connector.Respond | account_data_fetcher/exchanges/kraken/kraken_connector.py:96-136 | one outcome stops the loop exactly when it is not retried, with its final result |
| KrakenConnector.Connector.PrepareAndHandleRequest | account_data_fetcher/exchanges/kraken/kraken_connector.py:78-136 | the loop's result and request count are those of the retry specification, and each request carries its attempt's nonce and signature input |
| KrakenFetcher.TablesFacts | account_data_fetcher/exchanges/kraken/data_fetcher.py:49-72 | the ticker table never renames to an unpriced code, renaming is idempotent on its image, every internal-map code is a renamed non-stable key, and "USD" is a stable code that is never renamed |
| KrakenFetcher.BalanceDict.constructor | account_data_fetcher/exchanges/kraken/data_fetcher.py:140-152 | the in-place dictionary starts with the given keys (in insertion order) and values |
| KrakenFetcher.BalanceDict.Pop | account_data_fetcher/exchanges/kraken/data_fetcher.py:147 | `pop` returns the key's value and removes the key from both the key order and the values |
| KrakenFetcher.BalanceDict.Put | account_data_fetcher/exchanges/kraken/data_fetcher.py:152 | assignment overwrites an existing key in place or appends a new key at the end of the order |
| KrakenFetcher.FilterBalanceDict | account_data_fetcher/exchanges/kraken/data_fetcher.py:136-154 | the caller's dictionary is mutated into the filtered dictionary (unpriced and dust keys popped, then the ticker renames applied) and the same object is returned |
| KrakenFetcher.ScanKeys | account_data_fetcher/exchanges/kraken/data_fetcher.py:140-144 | the first loop collects exactly the keys in the ticker table to rename and exactly the unpriced or under-0.001 keys to pop |
| KrakenFetcher.PopAll | account_data_fetcher/exchanges/kraken/data_fetcher.py:146-147 | popping every collected key removes exactly that set from the dictionary, keeping the order of the rest |
| KrakenFetcher.RenameAll | account_data_fetcher/exchanges/kraken/data_fetcher.py:149-152 | the renaming loop moves each present key's value to its common ticker name, one key at a time |
| KrakenFetcher.RenameKeepsClean | account_data_fetcher/exchanges/kraken/data_fetcher.py:149-152 | renaming keeps the dictionary well formed and introduces no dust value and no unpriced code |
| KrakenFetcher.FilterClean | account_data_fetcher/exchanges/kraken/data_fetcher.py:136-154 | after filtering, no key is unpriced and no value is below 0.001 |
| KrakenFetcher.RenameKeys | account_data_fetcher/exchanges/kraken/data_fetcher.py:149-152 | a key survives renaming iff it was untouched by the renames or is the target of a renamed key present at its turn |
| KrakenFetcher.FilterKeys | account_data_fetcher/exchanges/kraken/data_fetcher.py:136-154 | the filtered keys are exactly the kept keys outside the ticker table plus the renamed names of the kept keys inside it |
| KrakenFetcher.FilterSingleKeep | account_data_fetcher/exchanges/kraken/data_fetcher.py:136-154 | a single priced, non-dust key outside the ticker table is left unchanged |
| KrakenFetcher.CoinPrice | account_data_fetcher/exchanges/kraken/data_fetcher.py:160-174 | the price is the coin's USD pair, else its USDT pair, else its USDC pair, and is absent iff none of the three is quoted |
| KrakenFetcher.DollarErrorSticks | account_data_fetcher/exchanges/kraken/data_fetcher.py:122-132 | once a token cannot be priced the valuation result is that error whatever follows |
| KrakenFetcher.DollarBalancesErr | account_data_fetcher/exchanges/kraken/data_fetcher.py:122-132 | valuation fails iff some token is neither stable nor in the no-price list and has no USD, USDT or USDC quote under its priced name |
| KrakenFetcher.DollarStepStable | account_data_fetcher/exchanges/kraken/data_fetcher.py:123-127 | a stable token adds its balance to the "USD" entry, creating it when absent, and adds no other stable name |
| KrakenFetcher.DollarStepOther | account_data_fetcher/exchanges/kraken/data_fetcher.py:128-132 | a non-stable token leaves the "USD" entry untouched and adds no stable name |
| KrakenFetcher.StablesPooled | account_data_fetcher/exchanges/kraken/data_fetcher.py:122-132 | in a successful valuation the only stable name is "USD", present iff some stable token is held, and worth the sum of the stable balances |
| KrakenFetcher.StableAmountsEmpty | account_data_fetcher/exchanges/kraken/data_fetcher.py:123-127 | with no stable token held no stable balance is pooled |
| KrakenFetcher.GetBalancePerTickerInDollars | account_data_fetcher/exchanges/kraken/data_fetcher.py:118-134 | the result is the valuation error, or the filtered dollar dictionary built over the balances in key order |
| KrakenFetcher.AddToken | account_data_fetcher/exchanges/kraken/data_fetcher.py:123-132 | one pass of the valuation loop is the valuation step: pool stables, price internal-map codes under their common name, price other priced tokens, skip unpriced codes |
| KrakenFetcher.AddKey | account_data_fetcher/exchanges/kraken/data_fetcher.py:122-132 | handling the next key extends the valuation of a key prefix by one key |
| KrakenFetcher.AccumulateDollars | account_data_fetcher/exchanges/kraken/data_fetcher.py:119-132 | the loop returns the valuation over all keys, stopping at the first token without a price |
| KrakenFetcher.GetNetliq | account_data_fetcher/exchanges/kraken/data_fetcher.py:18-22 | net liquidity is the sum of the dollar values rounded to 2 decimals, within half a cent of the exact sum |
| KrakenFetcher.KeptCoins | account_data_fetcher/exchanges/kraken/data_fetcher.py:33-38 | the coins given a row are drawn from the balance keys |
| KrakenFetcher.Positions | account_data_fetcher/exchanges/kraken/data_fetcher.py:24-44 | the position table has four columns of equal length |
| KrakenFetcher.PositionsSpec | account_data_fetcher/exchanges/kraken/data_fetcher.py:24-44 | row i is the i-th coin worth more than 100 dollars: symbol "USD" for a stable coin else the coin, multiplier 1, quantity and dollar value rounded to 3 |
| KrakenFetcher.UsdtValuation | account_data_fetcher/exchanges/kraken/data_fetcher.py:123-127 | 500 USDT is valued as a single "USD" entry of 500 |
| KrakenFetcher.UsdtPositions | account_data_fetcher/exchanges/kraken/data_fetcher.py:33-39 | with 500 USDT the position lookup as written fails with KeyError, while the intended table reports one USD row |
| KrakenFetcher.FilterSingleDust | account_data_fetcher/exchanges/kraken/data_fetcher.py:141-147 | a single key worth under 0.001 and outside the ticker table is popped, leaving the dictionary empty |
| KrakenFetcher.UnvaluedCoinNoRow | account_data_fetcher/exchanges/kraken/data_fetcher.py:24-44 | in the intended table a non-stable coin with no dollar value (popped as dust) gets no row |
| KrakenFetcher.DustHoldingRaisesKeyError | account_data_fetcher/exchanges/kraken/data_fetcher.py:33-36 | holding 0.5 SHIB priced at 0.001: the balance survives the first filter, its value 0.0005 is popped by the second, and the position lookup as written raises KeyError while the intended table is empty |
| KrakenFetcher.StableHoldingRaisesKeyError | account_data_fetcher/exchanges/kraken/data_fetcher.py:33-39 | holding 500 USDT: the balance survives filtering, its dollar value is pooled under "USD", and the position lookup as written raises KeyError |
| KrakenFetcher.GetPosition | account_data_fetcher/exchanges/kraken/data_fetcher.py:24-44 | the loop builds exactly the intended position table |
| KrakenFetcher.DataFetcher.constructor | account_data_fetcher/exchanges/kraken/data_fetcher.py:73-96 | a new fetcher holds no balance metadata |
| KrakenFetcher.DataFetcher.FetchBalance | account_data_fetcher/exchanges/kraken/data_fetcher.py:98-116 | a non-SPOT account raises NotImplementedError; a valuation error leaves the cache unchanged; otherwise the cache holds the filtered balances and filtered dollar values and the net liquidity is returned |
| KrakenFetcher.DataFetcher.FetchPositions | account_data_fetcher/exchanges/kraken/data_fetcher.py:156-157 | before any balance fetch it fails with AttributeError; afterwards it returns the corrected position table of the cached metadata (stable coins at their own balance, dust coins without a row; see Findings) |
| KucoinFetcher.CoinPrice | account_data_fetcher/exchanges/kucoin/data_fetcher.py:73-78 | the price is the reply's entry for the currency; an invalid request yields None; a reply without the currency raises KeyError; the connector's FailedRequestError passes through |
| KucoinFetcher.Balances | account_data_fetcher/exchanges/kucoin/data_fetcher.py:30-32 | the balance column lists every entry's balance, in order |
| KucoinFetcher.SpotNetliqErr | account_data_fetcher/exchanges/kucoin/data_fetcher.py:24-44 | the spot value fails iff some non-zero, non-stable coin has no usable price (None or a missing key) |
| KucoinFetcher.SpotNetliqStables | account_data_fetcher/exchanges/kucoin/data_fetcher.py:39-40 | when every coin is BUSD, USDC or USDT (any case) the spot value is the sum of the balances |
| KucoinFetcher.StableAtFace | account_data_fetcher/exchanges/kucoin/data_fetcher.py:39-40 | a stable coin adds exactly its balance |
| KucoinFetcher.SpotNetliqFaceValue | account_data_fetcher/exchanges/kucoin/data_fetcher.py:30-42 | coins that each add their own balance add up to the sum of the balances |
| KucoinFetcher.ZeroBalancesSkipped | account_data_fetcher/exchanges/kucoin/data_fetcher.py:34-35 | zero balances change neither the spot value nor whether a price lookup fails |
| KucoinFetcher.GetBalances | account_data_fetcher/exchanges/kucoin/data_fetcher.py:24-44 | the loop returns the spot value rounded to a whole number, or the first pricing error |
| KucoinFetcher.NetliqErrorSticks | account_data_fetcher/exchanges/kucoin/data_fetcher.py:30-42 | once a coin fails to price the spot value is that error whatever follows |
| KucoinFetcher.FetchBalance | account_data_fetcher/exchanges/kucoin/data_fetcher.py:20-22 | the balance fails iff the spot value does; otherwise it is the whole-number spot value, which rounding to 2 leaves unchanged |
| KucoinFetcher.Kept | account_data_fetcher/exchanges/kucoin/data_fetcher.py:59-65 | the coins given a row are wallet entries worth more than 100 dollars |
| KucoinFetcher.CoinTable | account_data_fetcher/exchanges/kucoin/data_fetcher.py:49-71 | a successful position table has four columns of equal length |
| KucoinFetcher.CoinTableErr | account_data_fetcher/exchanges/kucoin/data_fetcher.py:59-63 | the table fails iff some non-stable coin, zero balances included, has no usable price |
| KucoinFetcher.CoinTableStep | account_data_fetcher/exchanges/kucoin/data_fetcher.py:59-69 | the table over a longer list fails iff the shorter one does or the last coin is unvalued |
| KucoinFetcher.CoinTableRows | account_data_fetcher/exchanges/kucoin/data_fetcher.py:59-69 | row i is the i-th kept coin: its currency as given, multiplier 1, balance rounded to 3, and dollar value |
| KucoinFetcher.RowsAreLargeHoldings | account_data_fetcher/exchanges/kucoin/data_fetcher.py:61-65 | every row is worth more than 100 dollars, and a stable coin's dollar value equals its rounded quantity |
| KucoinFetcher.FetchPositions | account_data_fetcher/exchanges/kucoin/data_fetcher.py:46-71 | the loop returns the position table or its first pricing error, whatever the account type |
| KucoinFetcher.TableErrorSticks | account_data_fetcher/exchanges/kucoin/data_fetcher.py:59-63 | once a coin fails to price the table is that error whatever follows |
| LegacyRunner.NewDaySpec | account_data_fetcher/runner.py:108-123 | with a file, it is a new day iff the last written date and today differ in ISO week number or weekday; within one year that is iff the dates differ; the same date is never new |
| LegacyRunner.YearNotCompared | account_data_fetcher/runner.py:120-123 | the year is not compared: week 1 Monday of 2023 against week 1 Monday of 2024 is not a new day |
| LegacyRunner.IbFlexNewDaySpec | account_data_fetcher/runner.py:125-130 | the IB report day is new iff the file is missing or its last date falls on another (week, weekday) slot than the statement matching the file (balance for netliq, positions for positions) |
| LegacyRunner.ManualBalanceSpec | account_data_fetcher/runner.py:94-106 | the manual balance is 0 when the flag is off, FileNotFoundError when the flag is on and the file is missing, and otherwise the file's first value |
| LegacyRunner.PassesSpec | account_data_fetcher/runner.py:56-72 | the netliq file's existing rows are kept, at most one row is appended per pass, and no appended row falls on the same (week, weekday) slot as the row before it |
| LegacyRunner.FlexRunner.constructor | account_data_fetcher/runner.py:16-26 | the runner starts with the given netliq file rows |
| LegacyRunner.FlexRunner.PeriodicFlex | account_data_fetcher/runner.py:50-72 | the first pass and then one pass per tick leave exactly the rows and the exception of the pass sequence, stopping at the first manual-balance error |
| LegacyRunner.PassesStop | account_data_fetcher/runner.py:66-72 | once a pass raises, later ticks change nothing |
| ReturnsStudy.ExchangeOf | monitor/portfolio_monitor/returns_study.py:52-54 | a ledger row touching the exchange is labelled with that exchange |
| ReturnsStudy.Kept | monitor/portfolio_monitor/returns_study.py:51 | the kept ledger rows are exactly those whose source or destination is the exchange |
| ReturnsStudy.GroupSumAppend | monitor/portfolio_monitor/returns_study.py:60 | the grouped sum of a day's net amounts is additive over the ledger |
| ReturnsStudy.KeptAppend | monitor/portfolio_monitor/returns_study.py:51 | appending a ledger row keeps it iff it touches the exchange |
| ReturnsStudy.ExchangeNetAppend | monitor/portfolio_monitor/returns_study.py:50-64 | an exchange's net amount on a day is the sum over that day's rows touching it of the arriving amount made positive or the leaving amount with its sign |
| ReturnsStudy.ExchangeNetNone | monitor/portfolio_monitor/returns_study.py:36-39 | a day with no ledger row touching the exchange reads a net amount of 0 after the left merge and fillna |
| ReturnsStudy.PortfolioNetAppend | monitor/portfolio_monitor/returns_study.py:66-75 | the portfolio's net amount on a day is additive over the ledger, and a transfer between two exchanges adds nothing |
| ReturnsStudy.Selected | monitor/portfolio_monitor/returns_study.py:38 | the selected balance rows are exactly those dated on or after the start, and no more than the file holds |
| ReturnsStudy.SelectedOrdered | monitor/portfolio_monitor/returns_study.py:36-38 | selecting keeps the file's order: a file in date order gives selected rows in date order |
| ReturnsStudy.SelectedAll | monitor/portfolio_monitor/returns_study.py:38 | when every row is on or after the start, nothing is dropped |
| ReturnsStudy.RunStops | monitor/portfolio_monitor/returns_study.py:42 | once a call raises, later rows change neither the result nor the cache |
| ReturnsStudy.Quotient | monitor/portfolio_monitor/returns_study.py:44 | pandas' division gives a finite return iff the divisor is not 0 |
| ReturnsStudy.BlownSpec | monitor/portfolio_monitor/returns_study.py:46 | an infinity has occurred in a run of returns iff some return in it is infinite |
| ReturnsStudy.Merged | monitor/portfolio_monitor/returns_study.py:28-39 | the merge fails with KeyError iff some balance row lacks the netliq column read; otherwise its rows are, one for one and in file order, the balance rows dated on or after the start, each with that column and its day's net amount |
| ReturnsStudy.RatioSpec | monitor/portfolio_monitor/returns_study.py:83-94 | a return against capital c is a number iff c is not 0, one plus it times c is the outcome, and with positive capital it is positive iff the capital grew |
| ReturnsStudy.ReturnSpec | monitor/portfolio_monitor/returns_study.py:77-98 | each case of the daily-return rule raises ZeroDivisionError iff its capital is 0, and otherwise measures what that capital became |
| ReturnsStudy.CashOnlyDay | monitor/portfolio_monitor/returns_study.py:81-94 | a day whose change is only money moving (first deposit, a flow the netliq follows exactly, a full withdrawal, a near-empty idle account) has return 0 |
| ReturnsStudy.ReturnsIndex | monitor/portfolio_monitor/returns_study.py:42 | from an empty cache the run raises ZeroDivisionError iff some row has a zero capital against the row before it (the first row against itself); otherwise it yields each row's return in order and caches the last row |
| ReturnsStudy.PortfolioReturns | monitor/portfolio_monitor/returns_study.py:44 | the portfolio's returns have one entry per row and the first is NaN |
| ReturnsStudy.PortfolioReturnAt | monitor/portfolio_monitor/returns_study.py:44 | a later portfolio return is finite iff the previous netliq plus the day's net amount is not 0, and then one plus it times that sum is the day's netliq; a zero sum gives NaN over a zero netliq and an infinity otherwise |
| ReturnsStudy.Twr | monitor/portfolio_monitor/returns_study.py:46 | the time-weighted return column has one entry per daily return |
| ReturnsStudy.TwrAt | monitor/portfolio_monitor/returns_study.py:46 | each day's entry is non-finite when its return is not finite or some return so far is infinite, and otherwise the cumulative product of one plus the finite returns so far, less one, in percent |
| ReturnsStudy.GrowthStep | monitor/portfolio_monitor/returns_study.py:46 | one more day multiplies the cumulative growth by one plus its return, or leaves it when the return is not finite; the run has met an infinity iff it had before or this day is infinite |
| ReturnsStudy.TwrDefined | monitor/portfolio_monitor/returns_study.py:46 | a day's time-weighted return is finite iff its own return is finite and no return up to it is infinite |
| ReturnsStudy.TwrFirst | monitor/portfolio_monitor/returns_study.py:46 | a finite first return gives the first time-weighted return, its return times 100 |
| ReturnsStudy.TwrStep | monitor/portfolio_monitor/returns_study.py:46 | with two consecutive finite returns and no infinity so far, the later growth factor is the earlier one times one plus the day's return |
| ReturnsStudy.GrowthDropFirst | monitor/portfolio_monitor/returns_study.py:46 | a NaN first return leaves the growth, and whether an infinity has occurred, as if that day were absent |
| ReturnsStudy.TwrDropFirst | monitor/portfolio_monitor/returns_study.py:44-46 | the portfolio's NaN first return does not hold back later days: from day 1 on the time-weighted returns are those of the returns without day 0 |
| ReturnsStudy.TwrFlat | monitor/portfolio_monitor/returns_study.py:46 | with only zero or NaN daily returns every finite day's time-weighted return is 0 |
| ReturnsStudy.GrowthFlat | monitor/portfolio_monitor/returns_study.py:46 | zero or NaN returns leave the growth at 1 with no infinity |
| ReturnsStudy.StudiedSpec | monitor/portfolio_monitor/returns_study.py:18-48 | a missing column is KeyError; for one exchange the study raises ZeroDivisionError iff some day's capital is 0, and otherwise each day's return is measured against the row before it (the first against itself); the columns have one entry per merged row; for the portfolio the first return is NaN, its TWR non-finite, and later TWRs ignore it |
| ReturnsStudy.ReturnStudy.constructor | monitor/portfolio_monitor/returns_study.py:10-11 | a new study has an empty row cache |
| ReturnsStudy.ReturnStudy.DailyReturn | monitor/portfolio_monitor/returns_study.py:77-98 | the result is the daily-return rule against the cached row (the row itself when the cache is empty), raising ZeroDivisionError on a zero divisor; the row is cached on success, and on an error the cache holds what the call's first line set |
| ReturnsStudy.ReturnStudy.DailyReturns | monitor/portfolio_monitor/returns_study.py:42 | calling the rule on each row in turn yields the run's returns and cache, ending at the first call that raises |
| ReturnsStudy.ReturnStudy.ConstructTwr | monitor/portfolio_monitor/returns_study.py:18-48 | the cache is emptied and the result is the study of the balances and ledger from the start date |
| ShareStudy.UpdateUnitsSpec | monitor/portfolio_monitor/share_study.py:18-22 | updating units keeps the holding equal to the sum of recorded changes, keeps the old history rows, and appends a row with the change and the new running total |
| ShareStudy.Added | monitor/portfolio_monitor/share_study.py:34-38 | after adding, the lower-cased name is an investor |
| ShareStudy.TotalOfSame | monitor/portfolio_monitor/share_study.py:109 | the units outstanding depend only on the listed investors' holdings |
| ShareStudy.TotalOfChange | monitor/portfolio_monitor/share_study.py:103-109 | replacing one listed investor changes the units outstanding by the difference in that investor's units |
| ShareStudy.AddedSpec | monitor/portfolio_monitor/share_study.py:34-38 | adding keeps the book's invariant, the units outstanding and every existing investor; the keys become the old ones plus the lower-cased name, which starts with no units when new |
| ShareStudy.CreditedSpec | monitor/portfolio_monitor/share_study.py:103-109 | crediting units moves the investor and the units outstanding by the same amount and changes no one else |
| ShareStudy.UnitsSpec | monitor/portfolio_monitor/share_study.py:92-98 | a deposit buys amount / NAV units and a withdrawal sells them: units times NAV is the amount, negated for a withdrawal |
| ShareStudy.SwitchedSpec | monitor/portfolio_monitor/share_study.py:87-90 | an investor other than the owner that is not yet known switches to multi-investor mode and is added; nothing else changes |
| ShareStudy.ApplyFlowFails | monitor/portfolio_monitor/share_study.py:80-109 | a cash flow fails only on a zero NAV for a deposit or withdrawal, and a flow of the fund itself changes nothing |
| ShareStudy.ApplyFlowCredits | monitor/portfolio_monitor/share_study.py:87-109 | a deposit or withdrawal that goes through is the mode switch followed by a credit of its units to the investor it names |
| ShareStudy.ApplyFlowKeeps | monitor/portfolio_monitor/share_study.py:80-109 | a cash flow keeps the invariants, the NAV history, every existing investor and every holding but the named investor's; the mode switches exactly when a new investor appears |
| ShareStudy.ApplyFlowMoves | monitor/portfolio_monitor/share_study.py:80-109 | a deposit or withdrawal moves its units in or out of the named investor and the units outstanding alike, in either mode; a fund flow or any other row moves nothing |
| ShareStudy.CapitalisedInvestorKeyError | monitor/portfolio_monitor/share_study.py:84-107 | a deposit by "Alice" raises KeyError as written, because "alice" is stored and "Alice" looked up, while with lower-cased lookups Alice holds 10 units |
| ShareStudy.MinOf | monitor/portfolio_monitor/share_study.py:44 | the earliest balance date is one of the dates and no later than any |
| ShareStudy.SortedDaysSpec | monitor/portfolio_monitor/share_study.py:42 | de-duplicating and sorting yields each date once, in increasing order |
| ShareStudy.LatestSpec | monitor/portfolio_monitor/share_study.py:63-72 | a balance row is read at a time stamp iff one is stamped at or before it, and then it has the latest such stamp: the row of the stamp itself when there is one, else the latest strictly earlier (a ledger midnight reads the last snapshot before it) |
| ShareStudy.LatestExact | monitor/portfolio_monitor/share_study.py:63-65 | with balance rows stamped at the date itself, the first of them is read (`values[0]`) |
| ShareStudy.LatestEarlier | monitor/portfolio_monitor/share_study.py:67-69 | with no row stamped at the date, the row read is the last of the rows with the latest earlier stamp (`iloc[-1]`) |
| ShareStudy.FlowsOn | monitor/portfolio_monitor/share_study.py:79 | a day's flows are exactly the ledger rows of that date |
| ShareStudy.DaysSpec | monitor/portfolio_monitor/share_study.py:42-48 | the time stamps walked start at the earliest balance stamp, increase, are exactly the balance and ledger stamps from then on, and each has a balance row at or before it; a ledger date is the midnight starting its day, so it is walked apart from, and before, that day's snapshot |
| ShareStudy.InitialSpec | monitor/portfolio_monitor/share_study.py:48-58 | the first date leaves the owner as the only investor, holding the initial netliq in units at NAV 1, which are all the units outstanding |
| ShareStudy.ApplyFlowsValid | monitor/portfolio_monitor/share_study.py:79-109 | a day's flows keep the invariants and the NAV history, and can fail only on a zero NAV |
| ShareStudy.NavSpec | monitor/portfolio_monitor/share_study.py:73 | with units outstanding the NAV times the units is the netliq; without any it is 1 |
| ShareStudy.ApplyDaySpec | monitor/portfolio_monitor/share_study.py:62-109 | a time stamp with a balance row at or before it records one NAV from that row's netliq and the units outstanding, then applies the flows stamped there, keeping the invariants |
| ShareStudy.ApplyDaysValid | monitor/portfolio_monitor/share_study.py:62-109 | walking the time stamps keeps the invariants and records one NAV per stamp, failing only on a zero NAV |
| ShareStudy.ProcessValid | monitor/portfolio_monitor/share_study.py:41-109 | processing fails for want of a first stamp iff there is no balance row, and otherwise only on a zero NAV; on success the units outstanding are the sum of the investors' units, the owner is an investor, and one NAV is recorded per stamp walked |
| ShareStudy.MidnightFlowPricedEarlier | monitor/portfolio_monitor/share_study.py:42-79 | a deposit dated on a day that also has a snapshot is walked at that day's midnight, before the snapshot, and buys units at the NAV of the latest earlier snapshot: 1000 at 300 s, a 500 deposit on day 1 and 1600 at day 1 + 300 s give 1500 units and NAVs 1, 1 and 1600 / 1500 |
| ShareStudy.Later | monitor/portfolio_monitor/share_study.py:46 | the ledger rows kept are exactly those dated after the cut-off |
| ShareStudy.FlowsOnLater | monitor/portfolio_monitor/share_study.py:79 | a day after the cut-off has the same flows in both ledgers |
| ShareStudy.LaterDates | monitor/portfolio_monitor/share_study.py:42-46 | the ledger dates after the cut-off are the dates of the rows after it |
| ShareStudy.DaysLater | monitor/portfolio_monitor/share_study.py:42-46 | dropping ledger rows on or before the first balance date leaves the dates walked unchanged |
| ShareStudy.EarlyFlowsIgnored | monitor/portfolio_monitor/share_study.py:42-62 | ledger rows on or before the first balance date are never applied: dropping them changes nothing |
| ShareStudy.IncreasingUnique | monitor/portfolio_monitor/share_study.py:42 | two increasing listings of the same dates are equal |
| ShareStudy.DaysAgree | monitor/portfolio_monitor/share_study.py:62-79 | dates after the cut-off read the same flows from the whole ledger and from its later rows |
| ShareStudy.ApplyFlowsStop | monitor/portfolio_monitor/share_study.py:80-109 | once a flow fails, later flows of the day change nothing |
| ShareStudy.ApplyDaysStop | monitor/portfolio_monitor/share_study.py:62-109 | once a date fails, later dates change nothing |
| ShareStudy.Portfolio.constructor | monitor/portfolio_monitor/share_study.py:26-32 | a new portfolio has the owner, no investors, no units outstanding and no NAV history |
| ShareStudy.Portfolio.AddInvestor | monitor/portfolio_monitor/share_study.py:34-38 | the book becomes the book with the lower-cased name added |
| ShareStudy.Portfolio.CashFlow | monitor/portfolio_monitor/share_study.py:80-109 | one ledger row leaves the book and mode of the corrected cash-flow step (the investor credited under the lower-cased name it was added under, see Findings), or reports its error |
| ShareStudy.Portfolio.CashFlows | monitor/portfolio_monitor/share_study.py:79-109 | a day's ledger rows in order leave the book and mode of the corrected flows (see Findings), or report the first error |
| ShareStudy.Portfolio.Day | monitor/portfolio_monitor/share_study.py:62-109 | one time stamp reads its netliq, records the NAV and applies its ledger rows, as the corrected day step computes (see Findings) |
| ShareStudy.Portfolio.Open | monitor/portfolio_monitor/share_study.py:48-58 | the first date gives the owner the initial units at NAV 1 |
| ShareStudy.Portfolio.Process | monitor/portfolio_monitor/share_study.py:41-109 | on success the book is the book processed with the corrected cash-flow step (see Findings); on failure the error is its error |

## Left out

- Floating point: every amount is an exact `real`. Python's `round(x, n)` is exact round-half-to-even at n decimals (`Common.Round`), so binary rounding error is not modelled.
- Network and vendor clients are not modelled: HTTP requests, Web3 and its multicall contract, ZMQ sockets, gspread, ib_insync/ibflex, the Binance Spot client and Telegram. Their answers are parameters of the functions and methods that use them.
- Cryptography: HMAC-SHA256 (Bybit), HMAC-SHA512 and Base64 (Kraken) are not computed. Only the strings they are computed over, and the nonce, are modelled.
- The sleeps between retries and polls are not modelled. The Bybit connector sleeps only after a transport error or an unreadable body; on a `10006` reply it computes a delay for its log line but does not sleep. The clock is a parameter: `now`, the UTC−5 wall clock and the ISO week date.
- Concurrency plumbing: the asyncio queue loops of the exchange and writer base classes, `asyncio.Lock`, `to_thread` and the ZMQ receive loop. Only their message contract is kept: an exchange sends its lower-cased name, balance and positions; a writer handles balances before positions.
- Process launch is represented by the launch descriptor each process receives, not by `Popen`. Argument parsing and the dynamic imports of the process and writer factories are not modelled.
- Set iteration order: the order Python iterates a set is left open. Where the source iterates one, the model uses a fixed order: new CSV and worksheet columns in incoming order, and Kraken's renamed keys in sorted order.
- CsvWriter: the file system is a value (`NoFile`, `EmptyFile` or a header with rows), not reads and appends on disk.
- GsheetWriter: the worksheet is a value. gspread's `import_csv` upload of whole files is not modelled.
- BybitConnector: a nonzero reply is taken to carry `retMsg`; the KeyError of a reply without it, and an overflow in `time.localtime` of a huge reset time, are not modelled.
- KrakenConnector: the POST data joins `k=v` pairs as given; `urlencode`'s percent-escaping of reserved characters is not modelled, so keys and values are taken to need none.
- KuCoin connector: it repeats the Bybit retry loop, which is modelled once, in `BybitConnector`.
- TradeStation and dYdX adapters are not part of this model. They are an interactive OAuth client and thin wrappers over a vendored client.
- The legacy duplicates superseded by the `exchanges/` and `data_aggregator/` packages are not part of this model. These are the old synchronous aggregator, `offchain/`, `bybit_api/`, `interactive_brokers/`, the old Kraken and onchain fetchers, and the old returns study.
- The monitor and thesis runners, the HKMA fetchers, the Telegram and gsheet handlers and the TODO extractor are scheduling loops or I/O and are not part of this model. So are the file-system walk of the portfolio monitor's utilities and PGP encryption.
- LegacyRunner: only the FLEX loop is modelled, with its new-day predicate, manual balance and daily write. `periodic_api` and `periodic_positions` are I/O wrappers around fetchers modelled in their own modules.
- LegacyRunner: reading the manual-balance file is a parameter. `FileNotFoundError` is the only read error modelled.
- DataAggregator: `ExchangeData`'s default factory would fail, so only explicit construction is modelled.
- DepositWithdraw: `today`'s year is at least 1000, so `strftime('%d/%m/%Y')` writes four digits. Python's `strptime` also accepts non-ASCII digits; only ASCII digits are modelled.
- CoinGeckoFetcher: a failed HTTP request is an `Err` answer. The exception types the client raises are not distinguished.
- Binance: `save_historical_klines`, `get_files_in_folder` and the raw account getters are file and network I/O. `BATCH_ONLY` is fixed to its value in the source, `True`.
- IbFlexFetcher: statements are values. The XML parse and the `ibflex` types are not modelled.
- ReturnsStudy: reading and saving the CSV files and the plots are I/O and are not modelled.
- ReturnsStudy: dates are time stamps already truncated to their day, so parsing the files' dates and the start date is not modelled.
- ReturnsStudy: a time-weighted return that is not a finite number is `None`; the sign of an infinity and NaN are not told apart there.
- Merged: the left merge keeps the balance rows in their file order; the sort by date that `sort=True` adds is not modelled, and SelectedOrdered shows it changes nothing when the balance file is in date order, as the aggregator writes it.
- ShareStudy: dates are time stamps in seconds: balance rows keep their time of day and ledger rows are stamped at the midnight starting their day. Parsing the files' text is not modelled. Ledger rows of one day keep their ledger order, so the unstable `sort_values` is not modelled.
- InvestorOf: the ledger's investor name is taken as stored; the `.strip()` that `process` applies to it is not modelled, because `main` strips every name before building the portfolio.
- Latest: rows sharing a time stamp are taken in file order (the first row stamped at the date, else the last of the latest earlier rows), the order a stable sort keeps; the source's `sort_values` is not stable, so which tied row it reads is not determined.
- ShareStudy: a zero NAV for a deposit or withdrawal, which pandas would turn into an infinite unit count, is an error.
- ShareStudy: `calculate_shares`, `update_to_latest_netliq` and the plots are not modelled.
- ShareStudy: investors live in a map keyed by name, not as objects shared by reference.
- UpdateBalances: CsvWriter's method writes the corrected row (each value under its own column); the misaligned row written as the source does when the columns are equal is only in BalanceUpdateAsWritten.
- FetchPositions: Kraken's method returns the corrected table: stable coins are valued at their own balance, and a coin valued under 0.001 dollars, popped by the second `filter_balance_dict`, gets no row. The source's KeyError for either case is only in PositionsAsWritten.
- CashFlow: the investor is credited under the lower-cased name it was added under; the source's KeyError for a capitalised name is only in ApplyFlowAsWritten. So are CashFlows, Day and Process, which call it.
- CashFlows: uses the corrected cash-flow step, as CashFlow above.
- Day: uses the corrected cash-flow step, as CashFlow above.
- Process: uses the corrected cash-flow step, as CashFlow above.
- Common: case mapping is ASCII only. Python's full Unicode case mapping is not modelled.

## Findings

| source | as written | input that shows it | evidently intended | confidence | as-written member | corrected member |
|---|---|---|---|---|---|---|
| account_data_fetcher/exchanges/kraken/data_fetcher.py:33-39 | `get_position` looks up each coin's own name in the dollar map | a balance of 500 USDT, whose dollar value was pooled under "USD": the lookup raises `KeyError` | each stable coin's row is valued at its own balance, giving the row USD / 500 / 500 | high, not executed | KrakenFetcher.StableHoldingRaisesKeyError | KrakenFetcher.PositionsSpec |
| account_data_fetcher/exchanges/kraken/data_fetcher.py:33-36 | `get_position` looks up every balance coin in the dollar map, which the second `filter_balance_dict` (:130) has cleared of values under 0.001 | 0.5 SHIB priced at 0.001: its dollar value 0.0005 is popped and the lookup raises `KeyError` | a coin worth under 0.001 dollars gets no row, as it is far under the 100-dollar bound | medium, not executed | KrakenFetcher.DustHoldingRaisesKeyError | KrakenFetcher.UnvaluedCoinNoRow |
| account_data_fetcher/writers/csv/writer.py:54-57 | when the incoming columns equal the file's, the row is written with the incoming dictionary's key order as field names | header `date,netliq`, incoming `{netliq: 1.0, date: today}`: the data row is `1.0,today` under `date,netliq` | each value written under its own column | high, not executed | CsvWriter.EqualColumnsMisaligned | CsvWriter.BalanceUpdateSpec |
| monitor/portfolio_monitor/share_study.py:84-107 | an investor is added under the lower-cased name but credited under the name as written | a deposit by `Alice` in multi-investor mode: `investors["Alice"]` raises `KeyError` | the investor is credited under the key it was added under | high, not executed | ShareStudy.CapitalisedInvestorKeyError | ShareStudy.ApplyFlowMoves |
