/** The Binance adapter: valuation of the spot, isolated-margin and
    cross-margin balances, spot and margin position tables, batched USDT price
    lookup, the server-time offset used to sign requests, the one-shot retry on
    error -1021, and the 90-day windows of the deposit/withdraw history.
    API answers and clock readings are parameters. `BATCH_ONLY` is set in the
    source, so assets without a batch price take the batch-only branches. */
module Binance {
  import opened Common
  import PositionMerge

  const Stables: set<string> := {"USDT", "USDC", "BUSD", "FDUSD", "TUSD"}
  const RecvWindowMs: int := 60000
  const SyncIntervalMs: int := 300000
  const ChunkSize: nat := 100
  /** 90 days in milliseconds. */
  const HistoryWindowMs: int := 7776000000
  const InvalidTimestamp: int := -1021
  const RecvWindowKey: string := "recvWindow"
  const TimestampKey: string := "timestamp"

  predicate IsNft(asset: string)
  {
    Contains(asset, "NFT")
  }

  /** One entry of `user_asset`. */
  datatype UserAsset = UserAsset(asset: string, free: real, locked: real, freeze: real, withdrawing: real, btcValuation: real)

  /** One side (base or quote) of an isolated-margin pair. */
  datatype Side = Side(asset: string, netAsset: real)
  datatype IsolatedPair = IsolatedPair(base: Side, quote: Side)

  function SidesOf(pairs: seq<IsolatedPair>): (s: seq<Side>)
    ensures |s| == 2 * |pairs|
    ensures forall i :: 0 <= i < |pairs| ==> s[2 * i] == pairs[i].base && s[2 * i + 1] == pairs[i].quote
  {
    if pairs == [] then [] else [pairs[0].base, pairs[0].quote] + SidesOf(pairs[1..])
  }

  // ---------------------------------------------------------------------------
  // Spot balance

  predicate CountsTowardBalance(b: UserAsset)
  {
    b.btcValuation > 0.1 || b.free > 100.0
  }

  /** What one asset adds to the spot balance. */
  function BalanceContribution(b: UserAsset, prices: map<string, real>): real
  {
    if !CountsTowardBalance(b) then 0.0
    else if b.asset in Stables then b.free
    else if IsNft(b.asset) then 0.0
    else if b.asset in prices then prices[b.asset] * b.free
    else 0.0
  }

  function BalanceContributions(bs: seq<UserAsset>, prices: map<string, real>): (r: seq<real>)
    ensures |r| == |bs| && forall i :: 0 <= i < |bs| ==> r[i] == BalanceContribution(bs[i], prices)
  {
    if bs == [] then [] else BalanceContributions(bs[..|bs| - 1], prices) + [BalanceContribution(bs[|bs| - 1], prices)]
  }

  /** The assets whose batch price the spot valuation asks for. */
  function AssetsToPrice(bs: seq<UserAsset>): set<string>
  {
    set i | 0 <= i < |bs| && CountsTowardBalance(bs[i]) && bs[i].asset !in Stables && !IsNft(bs[i].asset) :: bs[i].asset
  }

  /** Every price the valuation consults was requested: the contribution of an
      asset outside the request set does not depend on the price map. */
  lemma SpotLookupsRequested(bs: seq<UserAsset>, prices: map<string, real>, i: nat)
    requires i < |bs| && bs[i].asset !in AssetsToPrice(bs)
    ensures BalanceContribution(bs[i], prices) == BalanceContribution(bs[i], map[])
  {
  }

  /** One turn of the spot valuation loop. */
  method AssetDollars(b: UserAsset, prices: map<string, real>) returns (c: real)
    ensures c == BalanceContribution(b, prices)
  {
    c := 0.0;
    if b.btcValuation > 0.1 || b.free > 100.0 {
      if b.asset in Stables {
        c := b.free;
      } else if !IsNft(b.asset) && b.asset in prices {
        c := prices[b.asset] * b.free;
      }
    }
  }

  /** `convert_balances_to_dollars`: qualifying stables at face value, priced
      assets at price × free, NFT and unpriced assets skipped, total rounded to 3. */
  method ConvertBalancesToDollars(bs: seq<UserAsset>, prices: map<string, real>) returns (r: real)
    ensures r == Round(Sum(BalanceContributions(bs, prices)), 3)
  {
    ghost var cs := BalanceContributions(bs, prices);
    var total := 0.0;
    var i := 0;
    while i < |bs|
      invariant 0 <= i <= |bs|
      invariant total == Sum(cs[..i])
    {
      var c := AssetDollars(bs[i], prices);
      SumPrefixStep(cs, i);
      total := total + c;
      i := i + 1;
    }
    assert cs[..i] == cs;
    r := Round(total, 3);
  }

  // ---------------------------------------------------------------------------
  // Isolated and cross margin balance

  function MarginContribution(s: Side, prices: map<string, real>): real
  {
    if s.netAsset == 0.0 then 0.0
    else if s.asset in Stables then s.netAsset
    else if s.asset in prices then prices[s.asset] * s.netAsset
    else 0.0
  }

  function MarginContributions(sides: seq<Side>, prices: map<string, real>): (r: seq<real>)
    ensures |r| == |sides| && forall i :: 0 <= i < |sides| ==> r[i] == MarginContribution(sides[i], prices)
  {
    if sides == [] then [] else MarginContributions(sides[..|sides| - 1], prices) + [MarginContribution(sides[|sides| - 1], prices)]
  }

  function MarginAssetsToPrice(sides: seq<Side>): set<string>
  {
    set i | 0 <= i < |sides| && sides[i].netAsset != 0.0 && sides[i].asset !in Stables :: sides[i].asset
  }

  lemma MarginLookupsRequested(sides: seq<Side>, prices: map<string, real>, i: nat)
    requires i < |sides| && sides[i].asset !in MarginAssetsToPrice(sides)
    ensures MarginContribution(sides[i], prices) == MarginContribution(sides[i], map[])
  {
  }

  /** One turn of the isolated margin valuation loop. */
  method SideDollars(s: Side, prices: map<string, real>) returns (c: real)
    ensures c == MarginContribution(s, prices)
  {
    c := 0.0;
    if s.netAsset != 0.0 {
      if s.asset in Stables {
        c := s.netAsset;
      } else if s.asset in prices {
        c := prices[s.asset] * s.netAsset;
      }
    }
  }

  /** `convert_isolated_margin_balance_to_dollars`: non-zero sides, stables at
      face value, unpriced assets skipped, rounded to 3. */
  method ConvertIsolatedMargin(pairs: seq<IsolatedPair>, prices: map<string, real>) returns (r: real)
    ensures r == Round(Sum(MarginContributions(SidesOf(pairs), prices)), 3)
  {
    var sides := SidesOf(pairs);
    ghost var cs := MarginContributions(sides, prices);
    var total := 0.0;
    var i := 0;
    while i < |sides|
      invariant 0 <= i <= |sides|
      invariant total == Sum(cs[..i])
    {
      var c := SideDollars(sides[i], prices);
      SumPrefixStep(cs, i);
      total := total + c;
      i := i + 1;
    }
    assert cs[..i] == cs;
    r := Round(total, 3);
  }

  /** `convert_cross_margin_balance_to_dollars`. */
  function CrossMarginDollars(netAssetBtc: real, btcUsdt: real): (r: real)
    ensures netAssetBtc * btcUsdt - 0.005 <= r <= netAssetBtc * btcUsdt + 0.005
  {
    RoundClose(netAssetBtc * btcUsdt, 2);
    Round(netAssetBtc * btcUsdt, 2)
  }

  /** `_get_total_balance_sync`. */
  function TotalBalance(spot: real, isolated: real, cross: real): (r: real)
    ensures spot + isolated + cross - 0.0005 <= r <= spot + isolated + cross + 0.0005
  {
    RoundClose(spot + isolated + cross, 3);
    Round(spot + isolated + cross, 3)
  }

  // ---------------------------------------------------------------------------
  // Positions

  function SpotQuantity(a: UserAsset): real
  {
    a.free + a.locked + a.freeze + a.withdrawing
  }

  /** Dollar value of a spot row before rounding: stables at quantity, an
      unpriced asset at 0. */
  function SpotDollar(a: UserAsset, prices: map<string, real>): real
  {
    if a.asset in Stables then SpotQuantity(a)
    else if a.asset in prices then prices[a.asset] * SpotQuantity(a)
    else 0.0
  }

  function SpotHeld(assets: seq<UserAsset>): (r: seq<UserAsset>)
    ensures forall a :: a in r ==> a in assets && a.btcValuation > 0.01
    ensures forall i :: 0 <= i < |assets| && assets[i].btcValuation > 0.01 ==> assets[i] in r
  {
    if assets == [] then []
    else SpotHeld(assets[..|assets| - 1]) + (if assets[|assets| - 1].btcValuation > 0.01 then [assets[|assets| - 1]] else [])
  }

  /** The spot position table: one row per asset worth more than 0.01 BTC. */
  function SpotTable(assets: seq<UserAsset>, prices: map<string, real>): (t: Table)
    ensures t.Valid()
  {
    if assets == [] then EmptyTable
    else
      var t0 := SpotTable(assets[..|assets| - 1], prices);
      var a := assets[|assets| - 1];
      if a.btcValuation > 0.01 then t0.Append(a.asset, 1, SpotQuantity(a), Round(SpotDollar(a, prices), 3)) else t0
  }

  /** Row `i` of the spot table is the `i`-th held asset, with multiplier 1, its
      full quantity (free, locked, frozen and being withdrawn) and its dollar value
      rounded to 3. */
  lemma {:induction false} SpotTableRows(assets: seq<UserAsset>, prices: map<string, real>)
    ensures var t := SpotTable(assets, prices);
      |t.symbol| == |SpotHeld(assets)|
      && forall i :: 0 <= i < |t.symbol| ==>
           var a := SpotHeld(assets)[i];
           t.symbol[i] == a.asset && t.multiplier[i] == 1 && t.quantity[i] == SpotQuantity(a)
           && t.dollar[i] == Round(SpotDollar(a, prices), 3)
    decreases |assets|
  {
    if assets != [] {
      SpotTableRows(assets[..|assets| - 1], prices);
    }
  }

  /** `get_spot_positions`. */
  method SpotPositions(assets: seq<UserAsset>, prices: map<string, real>) returns (t: Table)
    ensures t == SpotTable(assets, prices)
  {
    t := EmptyTable;
    var i := 0;
    while i < |assets|
      invariant 0 <= i <= |assets|
      invariant t == SpotTable(assets[..i], prices)
    {
      assert assets[..i + 1][..i] == assets[..i];
      var ua := assets[i];
      if ua.btcValuation > 0.01 {
        var qty := ua.free + ua.locked + ua.freeze + ua.withdrawing;
        var dollar: real;
        if ua.asset in Stables {
          dollar := qty;
        } else if ua.asset in prices {
          dollar := prices[ua.asset] * qty;
        } else {
          dollar := 0.0;
        }
        assert dollar == SpotDollar(ua, prices);
        t := t.Append(ua.asset, 1, qty, Round(dollar, 3));
      }
      i := i + 1;
    }
    assert assets[..i] == assets;
  }

  /** Dollar value of a margin row before rounding: stables and unpriced assets
      at their net units. */
  function MarginDollar(s: Side, prices: map<string, real>): real
  {
    if s.asset in Stables then s.netAsset
    else if s.asset in prices then prices[s.asset] * s.netAsset
    else s.netAsset
  }

  function NonZero(sides: seq<Side>): (r: seq<Side>)
    ensures forall s :: s in r ==> s in sides && s.netAsset != 0.0
    ensures forall i :: 0 <= i < |sides| && sides[i].netAsset != 0.0 ==> sides[i] in r
  {
    if sides == [] then []
    else NonZero(sides[..|sides| - 1]) + (if sides[|sides| - 1].netAsset != 0.0 then [sides[|sides| - 1]] else [])
  }

  /** The margin position table: one row per non-zero side. */
  function MarginTable(sides: seq<Side>, prices: map<string, real>): (t: Table)
    ensures t.Valid()
  {
    if sides == [] then EmptyTable
    else
      var t0 := MarginTable(sides[..|sides| - 1], prices);
      var s := sides[|sides| - 1];
      if s.netAsset != 0.0 then t0.Append(s.asset, 1, s.netAsset, Round(MarginDollar(s, prices), 3)) else t0
  }

  /** Row `i` of the margin table is the `i`-th non-zero side, with multiplier 1,
      its net units and its dollar value rounded to 3. */
  lemma {:induction false} MarginTableRows(sides: seq<Side>, prices: map<string, real>)
    ensures var t := MarginTable(sides, prices);
      |t.symbol| == |NonZero(sides)|
      && forall i :: 0 <= i < |t.symbol| ==>
           var s := NonZero(sides)[i];
           t.symbol[i] == s.asset && t.multiplier[i] == 1 && t.quantity[i] == s.netAsset
           && t.dollar[i] == Round(MarginDollar(s, prices), 3)
    decreases |sides|
  {
    if sides != [] {
      MarginTableRows(sides[..|sides| - 1], prices);
    }
  }

  /** `get_margin_positions`: both sides of each isolated pair, base first. */
  method MarginPositions(pairs: seq<IsolatedPair>, prices: map<string, real>) returns (t: Table)
    ensures t == MarginTable(SidesOf(pairs), prices)
  {
    var sides := SidesOf(pairs);
    t := EmptyTable;
    var i := 0;
    while i < |sides|
      invariant 0 <= i <= |sides|
      invariant t == MarginTable(sides[..i], prices)
    {
      assert sides[..i + 1][..i] == sides[..i];
      var side := sides[i];
      if side.netAsset != 0.0 {
        var dollar: real;
        if side.asset in Stables {
          dollar := side.netAsset;
        } else if side.asset in prices {
          dollar := prices[side.asset] * side.netAsset;
        } else {
          dollar := side.netAsset;
        }
        assert dollar == MarginDollar(side, prices);
        t := t.Append(side.asset, 1, side.netAsset, Round(dollar, 3));
      }
      i := i + 1;
    }
    assert sides[..i] == sides;
  }

  /** `_get_all_positions_sync`: the spot rows, then the margin rows, merged by
      symbol. Each table is priced by its own `_batch_usdt_prices` round, so
      the two price maps are separate parameters. */
  method AllPositions(assets: seq<UserAsset>, pairs: seq<IsolatedPair>,
                      spotPrices: map<string, real>, marginPrices: map<string, real>) returns (t: Table)
    ensures t == PositionMerge.Merge(PositionMerge.AllRows([SpotTable(assets, spotPrices),
                                                            MarginTable(SidesOf(pairs), marginPrices)]))
  {
    var spot := SpotPositions(assets, spotPrices);
    var margin := MarginPositions(pairs, marginPrices);
    t := PositionMerge.MergeGroups([spot, margin]);
  }

  // ---------------------------------------------------------------------------
  // Batched USDT prices

  datatype Ticker = Ticker(symbol: string, price: real)

  /** The `<asset>USDT` symbols of the assets that are neither stable nor NFT. */
  function UsdtSymbols(assets: seq<string>): (r: seq<string>)
    ensures forall s :: s in r ==> exists a :: a in assets && a !in Stables && !IsNft(a) && s == a + "USDT"
    ensures forall a :: a in assets && a !in Stables && !IsNft(a) ==> a + "USDT" in r
  {
    if assets == [] then []
    else
      var a := assets[|assets| - 1];
      UsdtSymbols(assets[..|assets| - 1]) + (if a !in Stables && !IsNft(a) then [a + "USDT"] else [])
  }

  /** `sym[:-4]`. */
  function StripUsdt(sym: string): string
  {
    if |sym| >= 4 then sym[..|sym| - 4] else ""
  }

  lemma StripUsdtInverts(a: string)
    ensures StripUsdt(a + "USDT") == a
  {
    assert (a + "USDT")[..|a|] == a;
  }

  /** Consecutive slices of at most `n` symbols. */
  function Chunks(s: seq<string>, n: nat): seq<seq<string>>
    requires n > 0
    decreases |s|
  {
    if s == [] then []
    else if |s| <= n then [s]
    else [s[..n]] + Chunks(s[n..], n)
  }

  function Concat(cs: seq<seq<string>>): seq<string>
  {
    if cs == [] then [] else cs[0] + Concat(cs[1..])
  }

  /** The chunks cover the list exactly, in order, each with 1 to `n` symbols. */
  lemma {:induction false} ChunksPartition(s: seq<string>, n: nat)
    requires n > 0
    ensures Concat(Chunks(s, n)) == s
    ensures forall c :: c in Chunks(s, n) ==> 0 < |c| <= n
    decreases |s|
  {
    if |s| > n {
      ChunksPartition(s[n..], n);
      var rest := Chunks(s[n..], n);
      var cs := [s[..n]] + rest;
      assert Chunks(s, n) == cs;
      assert cs[1..] == rest;
      assert Concat(cs) == s[..n] + Concat(rest);
      assert s[..n] + s[n..] == s;
      assert forall c :: c in cs ==> c == s[..n] || c in rest;
    } else if s != [] {
      assert [s][1..] == [];
    }
  }

  /** The price map after applying one answer (None: the call raised). */
  function AddAnswer(acc: map<string, real>, answer: Option<seq<Ticker>>): map<string, real>
  {
    match answer
    case None => acc
    case Some(items) => AddTickers(acc, items)
  }

  function AddTickers(acc: map<string, real>, items: seq<Ticker>): map<string, real>
  {
    if items == [] then acc else AddTickers(acc, items[..|items| - 1])[StripUsdt(items[|items| - 1].symbol) := items[|items| - 1].price]
  }

  function Collect(acc: map<string, real>, chunks: seq<seq<string>>, respond: seq<string> -> Option<seq<Ticker>>): map<string, real>
    decreases |chunks|
  {
    if chunks == [] then acc else Collect(AddAnswer(acc, respond(chunks[0])), chunks[1..], respond)
  }

  lemma {:induction false} CollectAppend(acc: map<string, real>, a: seq<seq<string>>, c: seq<string>, respond: seq<string> -> Option<seq<Ticker>>)
    ensures Collect(acc, a + [c], respond) == AddAnswer(Collect(acc, a, respond), respond(c))
    decreases |a|
  {
    if a == [] {
      assert [c][1..] == [];
    } else {
      assert (a + [c])[1..] == a[1..] + [c];
      CollectAppend(AddAnswer(acc, respond(a[0])), a[1..], c, respond);
    }
  }

  /** A chunk whose request raised contributes nothing. */
  lemma {:induction false} FailedChunkContributesNothing(acc: map<string, real>, a: seq<seq<string>>, c: seq<string>,
                                                         b: seq<seq<string>>, respond: seq<string> -> Option<seq<Ticker>>)
    requires respond(c) == None
    ensures Collect(acc, a + [c] + b, respond) == Collect(acc, a + b, respond)
    decreases |a|
  {
    if a == [] {
      assert ([c] + b)[0] == c && ([c] + b)[1..] == b;
      assert a + [c] + b == [c] + b;
      assert a + b == b;
    } else {
      assert (a + [c] + b)[0] == a[0] && (a + [c] + b)[1..] == a[1..] + [c] + b;
      assert (a + b)[0] == a[0] && (a + b)[1..] == a[1..] + b;
      FailedChunkContributesNothing(AddAnswer(acc, respond(a[0])), a[1..], c, b, respond);
    }
  }

  /** When every answer lists only symbols that were asked for, every priced asset
      is an eligible requested asset. */
  lemma {:induction false} PricedAssetsWereRequested(acc: map<string, real>, chunks: seq<seq<string>>,
                                                     respond: seq<string> -> Option<seq<Ticker>>, assets: seq<string>)
    requires forall c :: c in chunks ==> forall s :: s in c ==> s in UsdtSymbols(assets)
    requires forall c :: c in chunks && respond(c).Some? ==> forall t :: t in respond(c).value ==> t.symbol in c
    requires forall k :: k in acc ==> k in assets && k !in Stables && !IsNft(k)
    ensures forall k :: k in Collect(acc, chunks, respond) ==> k in assets && k !in Stables && !IsNft(k)
    decreases |chunks|
  {
    if chunks != [] {
      var next := AddAnswer(acc, respond(chunks[0]));
      assert chunks[0] in chunks;
      assert forall c :: c in chunks[1..] ==> c in chunks;
      if respond(chunks[0]).Some? {
        TickersFromRequest(acc, respond(chunks[0]).value, assets);
      }
      PricedAssetsWereRequested(next, chunks[1..], respond, assets);
    }
  }

  lemma {:induction false} TickersFromRequest(acc: map<string, real>, items: seq<Ticker>, assets: seq<string>)
    requires forall t :: t in items ==> t.symbol in UsdtSymbols(assets)
    requires forall k :: k in acc ==> k in assets && k !in Stables && !IsNft(k)
    ensures forall k :: k in AddTickers(acc, items) ==> k in assets && k !in Stables && !IsNft(k)
    decreases |items|
  {
    if items != [] {
      var t := items[|items| - 1];
      TickersFromRequest(acc, items[..|items| - 1], assets);
      var a :| a in assets && a !in Stables && !IsNft(a) && t.symbol == a + "USDT";
      StripUsdtInverts(a);
    }
  }

  /** The chunks from index `i` on: the next chunk, then the chunks after it. */
  lemma ChunksFrom(symbols: seq<string>, i: nat, end: nat)
    requires i < |symbols| && end == (if i + ChunkSize < |symbols| then i + ChunkSize else |symbols|)
    ensures Chunks(symbols[i..], ChunkSize) == [symbols[i..end]] + Chunks(symbols[end..], ChunkSize)
  {
    if |symbols[i..]| <= ChunkSize {
      assert symbols[i..end] == symbols[i..];
      assert symbols[end..] == [];
    } else {
      assert symbols[i..][..ChunkSize] == symbols[i..end];
      assert symbols[i..][ChunkSize..] == symbols[end..];
    }
  }

  /** The inner loop of `_batch_usdt_prices`: each answered symbol, stripped
      of `USDT`, gets its price. */
  method StoreTickers(acc: map<string, real>, items: seq<Ticker>) returns (prices: map<string, real>)
    ensures prices == AddTickers(acc, items)
  {
    prices := acc;
    var j := 0;
    while j < |items|
      invariant 0 <= j <= |items|
      invariant prices == AddTickers(acc, items[..j])
    {
      assert items[..j + 1][..j] == items[..j];
      prices := prices[StripUsdt(items[j].symbol) := items[j].price];
      j := j + 1;
    }
    assert items[..j] == items;
  }

  /** `_batch_usdt_prices`: no eligible asset means no request and `{}`; otherwise
      one request per chunk of 100 symbols, each answer's symbols mapped back to
      their asset. `calls` lists the requests made. */
  method BatchUsdtPrices(assets: seq<string>, respond: seq<string> -> Option<seq<Ticker>>)
    returns (prices: map<string, real>, calls: seq<seq<string>>)
    ensures calls == Chunks(UsdtSymbols(assets), ChunkSize)
    ensures prices == Collect(map[], calls, respond)
    ensures UsdtSymbols(assets) == [] ==> calls == [] && prices == map[]
  {
    var symbols := UsdtSymbols(assets);
    if symbols == [] {
      return map[], [];
    }
    prices := map[];
    calls := [];
    var i := 0;
    while i < |symbols|
      invariant 0 <= i <= |symbols|
      invariant Chunks(symbols, ChunkSize) == calls + Chunks(symbols[i..], ChunkSize)
      invariant prices == Collect(map[], calls, respond)
      decreases |symbols| - i
    {
      var end := if i + ChunkSize < |symbols| then i + ChunkSize else |symbols|;
      var chunk := symbols[i..end];
      ghost var rest := Chunks(symbols[end..], ChunkSize);
      assert Chunks(symbols, ChunkSize) == (calls + [chunk]) + rest by {
        ChunksFrom(symbols, i, end);
        assert calls + ([chunk] + rest) == (calls + [chunk]) + rest;
      }
      var answer := respond(chunk);
      match answer {
        case None =>
        case Some(items) =>
          prices := StoreTickers(prices, items);
      }
      CollectAppend(map[], calls, chunk, respond);
      calls := calls + [chunk];
      i := end;
    }
    assert symbols[i..] == [];
  }

  // ---------------------------------------------------------------------------
  // Signed requests

  /** A keyword argument value of a signed call. */
  datatype Arg = IntArg(n: int) | TextArg(s: string)

  /** `kwargs.setdefault(...)` for the receive window and the timestamp. */
  function WithDefaults(kwargs: map<string, Arg>, timestamp: int): (r: map<string, Arg>)
    ensures r.Keys == kwargs.Keys + {RecvWindowKey, TimestampKey}
    ensures forall k :: k in kwargs ==> r[k] == kwargs[k]
    ensures RecvWindowKey !in kwargs ==> r[RecvWindowKey] == IntArg(RecvWindowMs)
    ensures TimestampKey !in kwargs ==> r[TimestampKey] == IntArg(timestamp)
  {
    var a := if RecvWindowKey in kwargs then kwargs else kwargs[RecvWindowKey := IntArg(RecvWindowMs)];
    if TimestampKey in a then a else a[TimestampKey := IntArg(timestamp)]
  }

  /** A reply of the signed endpoint. */
  datatype Reply = Answer(body: string) | ClientError(code: int)

  /** One `_now_ms` reading and, should a resync happen, the server time and the
      second local reading it takes (`None`: the server call raised). */
  datatype Tick = Tick(now: int, serverTime: Option<int>, syncLocal: int)

  predicate NeedsResync(now: int, lastSync: int)
  {
    now - lastSync > SyncIntervalMs
  }

  /** The offset and last sync time after a successful or failed
      `_sync_time_with_binance`. */
  function AfterSync(serverTime: Option<int>, local: int, offset: int, lastSync: int): (int, int)
  {
    if serverTime.Some? then (serverTime.value - local, local) else (offset, lastSync)
  }

  /** The offset and last sync time after `_timestamp_ms` reads `tick`. */
  function AfterTimestamp(tick: Tick, offset: int, lastSync: int): (int, int)
  {
    if NeedsResync(tick.now, lastSync) then AfterSync(tick.serverTime, tick.syncLocal, offset, lastSync) else (offset, lastSync)
  }

  class Client {
    /** Server time minus local time. */
    var offsetMs: int
    var lastSyncMs: int

    /** The constructor's initial sync. */
    constructor (serverTime: Option<int>, local: int)
      ensures serverTime.Some? ==> offsetMs == serverTime.value - local && lastSyncMs == local
      ensures serverTime.None? ==> offsetMs == 0 && lastSyncMs == 0
    {
      offsetMs := 0;
      lastSyncMs := 0;
      if serverTime.Some? {
        offsetMs := serverTime.value - local;
        lastSyncMs := local;
      }
    }

    /** `_sync_time_with_binance`: a failure is logged and leaves the state. */
    method SyncTime(serverTime: Option<int>, local: int)
      modifies this
      ensures serverTime.Some? ==> offsetMs == serverTime.value - local && lastSyncMs == local
      ensures serverTime.None? ==> offsetMs == old(offsetMs) && lastSyncMs == old(lastSyncMs)
    {
      if serverTime.Some? {
        offsetMs := serverTime.value - local;
        lastSyncMs := local;
      }
    }

    /** `_timestamp_ms`: resync only when the last sync is more than five minutes
        old, then return the reading shifted by the (possibly new) offset. */
    method TimestampMs(tick: Tick) returns (ts: int)
      modifies this
      ensures NeedsResync(tick.now, old(lastSyncMs)) && tick.serverTime.Some? ==>
        offsetMs == tick.serverTime.value - tick.syncLocal && lastSyncMs == tick.syncLocal
      ensures !(NeedsResync(tick.now, old(lastSyncMs)) && tick.serverTime.Some?) ==>
        offsetMs == old(offsetMs) && lastSyncMs == old(lastSyncMs)
      ensures ts == tick.now + offsetMs
    {
      var now := tick.now;
      if now - lastSyncMs > SyncIntervalMs {
        SyncTime(tick.serverTime, tick.syncLocal);
      }
      ts := now + offsetMs;
    }

    /** `_signed_call`: fill in the defaults (the timestamp is computed even when
        the caller gave one), call once, and on -1021 resync, replace the
        timestamp and call exactly once more. `sent` lists the arguments of each
        call made. */
    method SignedCall(kwargs: map<string, Arg>, first: Tick, resync: Tick, second: Tick,
                      firstReply: Reply, secondReply: Reply)
      returns (r: Result<string, int>, sent: seq<map<string, Arg>>)
      modifies this
      ensures 1 <= |sent| <= 2
      ensures sent[0].Keys == kwargs.Keys + {RecvWindowKey, TimestampKey}
      ensures forall k :: k in kwargs ==> sent[0][k] == kwargs[k]
      ensures firstReply.Answer? ==> |sent| == 1 && r == Ok(firstReply.body)
      ensures firstReply.ClientError? && firstReply.code != InvalidTimestamp ==> |sent| == 1 && r == Err(firstReply.code)
      ensures firstReply == ClientError(InvalidTimestamp) ==>
        |sent| == 2 && sent[1].Keys == sent[0].Keys
        && (forall k :: k in sent[0] && k != TimestampKey ==> sent[1][k] == sent[0][k])
        && sent[1][TimestampKey] == IntArg(second.now + offsetMs)
        && r == (match secondReply case Answer(b) => Ok(b) case ClientError(c) => Err(c))
      ensures var s1 := AfterTimestamp(first, old(offsetMs), old(lastSyncMs));
        sent[0] == WithDefaults(kwargs, first.now + s1.0)
        && (firstReply != ClientError(InvalidTimestamp) ==> (offsetMs, lastSyncMs) == s1)
        && (firstReply == ClientError(InvalidTimestamp) ==>
              var s3 := AfterTimestamp(second, AfterSync(resync.serverTime, resync.syncLocal, s1.0, s1.1).0,
                                       AfterSync(resync.serverTime, resync.syncLocal, s1.0, s1.1).1);
              (offsetMs, lastSyncMs) == s3 && sent[1] == sent[0][TimestampKey := IntArg(second.now + s3.0)])
    {
      var ts := TimestampMs(first);
      var args := WithDefaults(kwargs, ts);
      sent := [args];
      match firstReply {
        case Answer(b) =>
          r := Ok(b);
        case ClientError(code) =>
          if code == InvalidTimestamp {
            SyncTime(resync.serverTime, resync.syncLocal);
            var ts2 := TimestampMs(second);
            args := args[TimestampKey := IntArg(ts2)];
            sent := sent + [args];
            r := match secondReply case Answer(b) => Ok(b) case ClientError(c) => Err(c);
          } else {
            r := Err(code);
          }
      }
    }
  }

  /** `get_latest_price`: a single symbol takes precedence over a symbol list;
      neither is a `ValueError`. */
  datatype PriceQuery = Single(symbol: string) | Batch(symbols: seq<string>)

  function LatestPriceQuery(symbol: Option<string>, symbols: Option<seq<string>>): (r: Result<PriceQuery, string>)
    ensures r.Err? <==> symbol.None? && symbols.None?
    ensures symbol.Some? ==> r == Ok(Single(symbol.value))
    ensures symbol.None? && symbols.Some? ==> r == Ok(Batch(symbols.value))
  {
    if symbol.Some? then Ok(Single(symbol.value))
    else if symbols.Some? then Ok(Batch(symbols.value))
    else Err("ValueError")
  }

  // ---------------------------------------------------------------------------
  // History windows

  /** The end of the window starting at `start`: 90 days on, clipped to `end`. */
  function Stop(start: int, end: int): int
  {
    if start + HistoryWindowMs < end then start + HistoryWindowMs else end
  }

  /** The request windows of `get_deposit_history` / `get_withdraw_history`
      from `start` to `end`, each 90 days long but the last, clipped to `end`. */
  function Windows(start: int, end: int): seq<(int, int)>
    decreases end - start
  {
    if start >= end then []
    else [(start, Stop(start, end))] + Windows(Stop(start, end), end)
  }

  /** The windows are consecutive, each at most 90 days long and all but the
      last exactly 90 days, starting at `start` and ending at `end`; there are
      none when `start >= end`. */
  lemma {:induction false} WindowsSpec(start: int, end: int)
    ensures var ws := Windows(start, end);
      (start >= end <==> ws == [])
      && (ws != [] ==> ws[0].0 == start && ws[|ws| - 1].1 == end)
      && (forall i :: 0 <= i < |ws| ==> ws[i].0 < ws[i].1 <= ws[i].0 + HistoryWindowMs)
      && (forall i :: 0 <= i < |ws| - 1 ==> ws[i].1 == ws[i + 1].0)
      && (forall i :: 0 <= i < |ws| - 1 ==> ws[i].1 - ws[i].0 == HistoryWindowMs)
    decreases end - start
  {
    if start < end {
      var stop := Stop(start, end);
      WindowsSpec(stop, end);
      var ws := Windows(start, end);
      var rest := Windows(stop, end);
      assert ws == [(start, stop)] + rest;
      assert forall i :: 1 <= i < |ws| ==> ws[i] == rest[i - 1];
    }
  }

  /** The window loop of `get_deposit_history` / `get_withdraw_history`. */
  method HistoryWindows(start: int, end: int) returns (windows: seq<(int, int)>)
    ensures windows == Windows(start, end)
  {
    var curStart := start;
    var curEnd := if curStart + HistoryWindowMs < end then curStart + HistoryWindowMs else end;
    windows := [];
    while curStart < end
      invariant curEnd == Stop(curStart, end)
      invariant windows + Windows(curStart, end) == Windows(start, end)
      decreases end - curStart
    {
      ghost var rest := Windows(curEnd, end);
      assert windows + ([(curStart, curEnd)] + rest) == (windows + [(curStart, curEnd)]) + rest;
      windows := windows + [(curStart, curEnd)];
      curStart := curEnd;
      curEnd := if curStart + HistoryWindowMs < end then curStart + HistoryWindowMs else end;
    }
    assert windows + [] == windows;
  }
}
