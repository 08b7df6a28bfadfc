/** The Bybit adapter: account balance (unified, or derivatives plus a spot
    wallet valued coin by coin), the spot, unified-wallet and linear-derivative
    position tables, their merge by symbol, and the three-pair price fallback.
    The connector's answers are parameters: a coin list, the derivative equity
    (`Err` is a re-raised `InvalidRequestError`) and `quote`, the connector's
    reply to a last-traded-price request for one pair. */
module BybitFetcher {
  import opened Common
  import PositionMerge

  const UnifiedAccount: string := "UNIFIED"
  const SpotStables: set<string> := {"BUSD", "USDC", "USDT"}
  const UnifiedStables: set<string> := {"BUSD", "USDC", "USDT", "DAI"}
  const MinPositionDollars: real := 100.0
  /** Multiplying a value by the `None` of a failed price lookup. */
  const TypeError: string := "TypeError"
  /** `raise NotImplemented(...)` calls a constant that is not callable. */
  const UnknownMarket: string := TypeError

  /** Indexing a price reply that holds no "price". */
  const KeyError: string := "KeyError"
  /** The connector's own error (retries exceeded, or a body that is not JSON). */
  const FailedRequestError: string := "FailedRequestError"

  /** The connector's reply to `get_last_traded_price` for one pair: a reply
      holding a price, one without a "price" entry, `InvalidRequestError`
      (the only error `__get_coin_price` catches) or the connector's
      `FailedRequestError`. */
  datatype PriceReply = Quoted(price: real) | Priceless | Invalid | Failed

  /** What `float(reply["price"])` gives for one reply: the price, `None` to
      go on with the next pair, or the exception that escapes. */
  function Answer(reply: PriceReply): Result<Option<real>, string>
  {
    match reply
    case Quoted(p) => Ok(Some(p))
    case Priceless => Err(KeyError)
    case Invalid => Ok(None)
    case Failed => Err(FailedRequestError)
  }

  /** The pairs `__get_coin_price` tries, in order. */
  function PricePairs(coin: string): seq<string>
  {
    [coin + "USDT", coin + "USD", coin + "USDC"]
  }

  /** `__get_coin_price`: the USDT pair, then USD, then USDC. Only an invalid
      request moves on to the next pair; the first other reply decides, and
      `None` comes back when all three are invalid. */
  function CoinPrice(coin: string, quote: string -> PriceReply): (r: Result<Option<real>, string>)
    ensures r == Ok(None) <==> forall j :: 0 <= j < 3 ==> quote(PricePairs(coin)[j]).Invalid?
    ensures forall j :: 0 <= j < 3 && !quote(PricePairs(coin)[j]).Invalid? &&
                        (forall i :: 0 <= i < j ==> quote(PricePairs(coin)[i]).Invalid?)
                        ==> r == Answer(quote(PricePairs(coin)[j]))
  {
    var pairs := PricePairs(coin);
    if !quote(pairs[0]).Invalid? then Answer(quote(pairs[0]))
    else if !quote(pairs[1]).Invalid? then Answer(quote(pairs[1]))
    else Answer(quote(pairs[2]))
  }

  /** A failed USDT lookup raises, whatever the other pairs would answer. */
  lemma FailedLookupRaises(coin: string, quote: string -> PriceReply)
    requires quote(coin + "USDT").Failed?
    ensures CoinPrice(coin, quote) == Err(FailedRequestError)
    ensures forall q :: Priced(q, coin, quote) == Err(FailedRequestError)
  {
    assert PricePairs(coin)[0] == coin + "USDT";
  }

  /** One entry of `get_all_coin_balance`. */
  datatype CoinBalance = CoinBalance(coin: string, walletBalance: real)

  /** Which wallet a coin list comes from. */
  datatype Wallet = Spot | UnifiedWallet

  /** `quantity * price`: the lookup's own error, or a TypeError when it gave
      `None`. */
  function Priced(q: real, coin: string, quote: string -> PriceReply): Result<real, string>
  {
    match CoinPrice(coin, quote)
    case Err(e) => Err(e)
    case Ok(None) => Err(TypeError)
    case Ok(Some(p)) => Ok(Mul(q, p))
  }

  /** The dollar value the position loops compute for one coin: spot stables at
      their quantity; in the unified wallet stables (DAI included) and
      non-positive quantities at 0. */
  function CoinValue(c: CoinBalance, w: Wallet, quote: string -> PriceReply): Result<real, string>
  {
    var q := Round(c.walletBalance, 3);
    match w
    case Spot =>
      if Upper(c.coin) in SpotStables then Ok(q) else Priced(q, c.coin, quote)
    case UnifiedWallet =>
      if !(q > 0.0) then Ok(0.0)
      else if Upper(c.coin) in UnifiedStables then Ok(0.0)
      else Priced(q, c.coin, quote)
  }

  predicate Listed(c: CoinBalance, w: Wallet, quote: string -> PriceReply)
  {
    CoinValue(c, w, quote).Ok? && CoinValue(c, w, quote).value > MinPositionDollars
  }

  /** The coins that get a row. */
  function Kept(coins: seq<CoinBalance>, w: Wallet, quote: string -> PriceReply): (r: seq<CoinBalance>)
    ensures forall c :: c in r ==> c in coins && Listed(c, w, quote)
  {
    if coins == [] then []
    else
      var c := coins[|coins| - 1];
      Kept(coins[..|coins| - 1], w, quote) + (if Listed(c, w, quote) then [c] else [])
  }

  /** The position table of one wallet, or the error the first unpriced coin
      raises. */
  function CoinTable(coins: seq<CoinBalance>, w: Wallet, quote: string -> PriceReply): (r: Result<Table, string>)
    ensures r.Ok? ==> r.value.Valid()
  {
    if coins == [] then Ok(EmptyTable)
    else
      var c := coins[|coins| - 1];
      match CoinTable(coins[..|coins| - 1], w, quote)
      case Err(e) => Err(e)
      case Ok(t) =>
        match CoinValue(c, w, quote)
        case Err(e) => Err(e)
        case Ok(d) => if d > MinPositionDollars then Ok(t.Append(c.coin, 1, Round(c.walletBalance, 3), d)) else Ok(t)
  }

  /** The table fails exactly when some coin cannot be priced; otherwise row `i`
      is the `i`-th coin worth more than 100 dollars, with multiplier 1, its
      quantity rounded to 3 and its dollar value. */
  lemma {:induction false} CoinTableSpec(coins: seq<CoinBalance>, w: Wallet, quote: string -> PriceReply)
    ensures CoinTable(coins, w, quote).Err? <==> exists j :: 0 <= j < |coins| && CoinValue(coins[j], w, quote).Err?
    ensures CoinTable(coins, w, quote).Ok? ==>
      var t := CoinTable(coins, w, quote).value;
      |t.symbol| == |Kept(coins, w, quote)|
      && forall i :: 0 <= i < |t.symbol| ==>
           var c := Kept(coins, w, quote)[i];
           t.symbol[i] == c.coin && t.multiplier[i] == 1 && t.quantity[i] == Round(c.walletBalance, 3)
           && Ok(t.dollar[i]) == CoinValue(c, w, quote)
  {
    CoinTableErr(coins, w, quote);
    CoinTableRows(coins, w, quote);
  }

  lemma CoinTableErr(coins: seq<CoinBalance>, w: Wallet, quote: string -> PriceReply)
    ensures CoinTable(coins, w, quote).Err? <==> exists j :: 0 <= j < |coins| && CoinValue(coins[j], w, quote).Err?
  {
    var unvalued := c => CoinValue(c, w, quote).Err?;
    CoinTableAny(coins, w, quote);
    AnyOfSpec(coins, unvalued);
    assert forall j :: 0 <= j < |coins| ==> (unvalued(coins[j]) <==> CoinValue(coins[j], w, quote).Err?);
  }

  lemma {:induction false} CoinTableAny(coins: seq<CoinBalance>, w: Wallet, quote: string -> PriceReply)
    ensures CoinTable(coins, w, quote).Err? <==> AnyOf(coins, c => CoinValue(c, w, quote).Err?)
    decreases |coins|
  {
    if coins != [] {
      CoinTableAny(coins[..|coins| - 1], w, quote);
    }
  }

  lemma {:induction false} CoinTableRows(coins: seq<CoinBalance>, w: Wallet, quote: string -> PriceReply)
    ensures CoinTable(coins, w, quote).Ok? ==>
      var t := CoinTable(coins, w, quote).value;
      |t.symbol| == |Kept(coins, w, quote)|
      && forall i :: 0 <= i < |t.symbol| ==>
           var c := Kept(coins, w, quote)[i];
           t.symbol[i] == c.coin && t.multiplier[i] == 1 && t.quantity[i] == Round(c.walletBalance, 3)
           && Ok(t.dollar[i]) == CoinValue(c, w, quote)
    decreases |coins|
  {
    if coins != [] {
      CoinTableRows(coins[..|coins| - 1], w, quote);
    }
  }

  /** A stable coin or a non-positive quantity never appears among the unified
      wallet's positions, and every listed row is worth more than 100 dollars. */
  lemma UnifiedRowsArePricedHoldings(coins: seq<CoinBalance>, quote: string -> PriceReply)
    requires CoinTable(coins, UnifiedWallet, quote).Ok?
    ensures var t := CoinTable(coins, UnifiedWallet, quote).value;
      forall i :: 0 <= i < |t.symbol| ==>
        Upper(t.symbol[i]) !in UnifiedStables && t.quantity[i] > 0.0 && t.dollar[i] > MinPositionDollars
  {
    CoinTableSpec(coins, UnifiedWallet, quote);
    var t := CoinTable(coins, UnifiedWallet, quote).value;
    forall i | 0 <= i < |t.symbol|
      ensures Upper(t.symbol[i]) !in UnifiedStables && t.quantity[i] > 0.0 && t.dollar[i] > MinPositionDollars
    {
      var c := Kept(coins, UnifiedWallet, quote)[i];
      assert c in Kept(coins, UnifiedWallet, quote);
    }
  }

  /** `__get_spot_positions`. */
  method SpotPositions(coins: seq<CoinBalance>, quote: string -> PriceReply) returns (r: Result<Table, string>)
    ensures r == CoinTable(coins, Spot, quote)
  {
    var t := EmptyTable;
    var i := 0;
    while i < |coins|
      invariant 0 <= i <= |coins|
      invariant CoinTable(coins[..i], Spot, quote) == Ok(t)
    {
      assert coins[..i + 1][..i] == coins[..i];
      var c := coins[i];
      var quantity := Round(c.walletBalance, 3);
      var dollar: real;
      if Upper(c.coin) in SpotStables {
        dollar := quantity;
      } else {
        var price := CoinPrice(c.coin, quote);
        if price.Err? || price.value.None? {
          ErrorSticks(coins, i + 1, Spot, quote);
          return Err(if price.Err? then price.error else TypeError);
        }
        dollar := Mul(quantity, price.value.value);
        assert Priced(quantity, c.coin, quote) == Ok(dollar);
      }
      assert CoinValue(c, Spot, quote) == Ok(dollar);
      if dollar > MinPositionDollars {
        t := t.Append(c.coin, 1, quantity, dollar);
      }
      i := i + 1;
    }
    assert coins[..i] == coins;
    return Ok(t);
  }

  /** `__get_unified_positions`. */
  method UnifiedPositions(coins: seq<CoinBalance>, quote: string -> PriceReply) returns (r: Result<Table, string>)
    ensures r == CoinTable(coins, UnifiedWallet, quote)
  {
    var t := EmptyTable;
    var i := 0;
    while i < |coins|
      invariant 0 <= i <= |coins|
      invariant CoinTable(coins[..i], UnifiedWallet, quote) == Ok(t)
    {
      assert coins[..i + 1][..i] == coins[..i];
      var c := coins[i];
      var quantity := Round(c.walletBalance, 3);
      var dollar := 0.0;
      if quantity > 0.0 {
        if Upper(c.coin) in UnifiedStables {
          dollar := 0.0;
        } else {
          var price := CoinPrice(c.coin, quote);
          if price.Err? || price.value.None? {
            ErrorSticks(coins, i + 1, UnifiedWallet, quote);
            return Err(if price.Err? then price.error else TypeError);
          }
          dollar := Mul(quantity, price.value.value);
          assert Priced(quantity, c.coin, quote) == Ok(dollar);
        }
      }
      assert CoinValue(c, UnifiedWallet, quote) == Ok(dollar);
      if dollar > MinPositionDollars {
        t := t.Append(c.coin, 1, quantity, dollar);
      }
      i := i + 1;
    }
    assert coins[..i] == coins;
    return Ok(t);
  }

  lemma {:induction false} ErrorSticks(coins: seq<CoinBalance>, k: nat, w: Wallet, quote: string -> PriceReply)
    requires k <= |coins| && CoinTable(coins[..k], w, quote).Err?
    ensures CoinTable(coins, w, quote) == CoinTable(coins[..k], w, quote)
    decreases |coins| - k
  {
    if k < |coins| {
      assert coins[..k + 1][..k] == coins[..k];
      ErrorSticks(coins, k + 1, w, quote);
    } else {
      assert coins[..k] == coins;
    }
  }

  // ---------------------------------------------------------------------------
  // Derivatives

  /** One linear position; `sizeText` is the raw `size` field, `size` its value. */
  datatype Derivative = Derivative(symbol: string, sizeText: string, size: real,
                                   positionValue: real, cumRealisedPnl: real, unrealisedPnl: real)

  /** `if position["size"]`: the field is a string, so only the empty string is
      skipped. */
  predicate Held(p: Derivative)
  {
    p.sizeText != ""
  }

  function HeldDerivatives(ps: seq<Derivative>): (r: seq<Derivative>)
    ensures forall p :: p in r ==> p in ps && Held(p)
  {
    if ps == [] then []
    else HeldDerivatives(ps[..|ps| - 1]) + (if Held(ps[|ps| - 1]) then [ps[|ps| - 1]] else [])
  }

  function DerivativeDollars(p: Derivative): real
  {
    Round(p.positionValue + p.cumRealisedPnl + p.unrealisedPnl, 3)
  }

  function DerivativeTable(ps: seq<Derivative>): (t: Table)
    ensures t.Valid()
  {
    if ps == [] then EmptyTable
    else
      var t := DerivativeTable(ps[..|ps| - 1]);
      var p := ps[|ps| - 1];
      if Held(p) then t.Append(p.symbol, 1, Round(p.size, 3), DerivativeDollars(p)) else t
  }

  /** Row `i` is the `i`-th held position: its size rounded to 3 and its position
      value plus realised and unrealised PnL, rounded to 3. */
  lemma {:induction false} DerivativeTableRows(ps: seq<Derivative>)
    ensures var t := DerivativeTable(ps);
      |t.symbol| == |HeldDerivatives(ps)|
      && forall i :: 0 <= i < |t.symbol| ==>
           var p := HeldDerivatives(ps)[i];
           t.symbol[i] == p.symbol && t.multiplier[i] == 1 && t.quantity[i] == Round(p.size, 3)
           && t.dollar[i] == Round(p.positionValue + p.cumRealisedPnl + p.unrealisedPnl, 3)
    decreases |ps|
  {
    if ps != [] {
      DerivativeTableRows(ps[..|ps| - 1]);
    }
  }

  /** `__get_derivatives_positions` over the linear USDT-settled positions. */
  method DerivativesPositions(ps: seq<Derivative>) returns (t: Table)
    ensures t == DerivativeTable(ps)
  {
    t := EmptyTable;
    var i := 0;
    while i < |ps|
      invariant 0 <= i <= |ps|
      invariant t == DerivativeTable(ps[..i])
    {
      assert ps[..i + 1][..i] == ps[..i];
      var p := ps[i];
      if p.sizeText != "" {
        t := t.Append(p.symbol, 1, Round(p.size, 3), Round(p.positionValue + p.cumRealisedPnl + p.unrealisedPnl, 3));
      }
      i := i + 1;
    }
    assert ps[..i] == ps;
  }

  // ---------------------------------------------------------------------------
  // Merged positions

  /** `fetch_positions`: derivatives then unified wallet for a unified account,
      spot wallet then derivatives otherwise, merged by symbol. */
  method FetchPositions(accountType: string, spotCoins: seq<CoinBalance>, unifiedCoins: seq<CoinBalance>,
                        ps: seq<Derivative>, quote: string -> PriceReply) returns (r: Result<Table, string>)
    ensures accountType == UnifiedAccount ==>
      r == (match CoinTable(unifiedCoins, UnifiedWallet, quote)
            case Err(e) => Err(e)
            case Ok(u) => Ok(PositionMerge.Merge(PositionMerge.AllRows([DerivativeTable(ps), u]))))
    ensures accountType != UnifiedAccount ==>
      r == (match CoinTable(spotCoins, Spot, quote)
            case Err(e) => Err(e)
            case Ok(s) => Ok(PositionMerge.Merge(PositionMerge.AllRows([s, DerivativeTable(ps)]))))
  {
    if accountType == UnifiedAccount {
      var future := DerivativesPositions(ps);
      var unified := UnifiedPositions(unifiedCoins, quote);
      if unified.Err? {
        return Err(unified.error);
      }
      var merged := PositionMerge.MergeGroups([future, unified.value]);
      r := Ok(merged);
    } else {
      var spot := SpotPositions(spotCoins, quote);
      if spot.Err? {
        return Err(spot.error);
      }
      var future := DerivativesPositions(ps);
      var merged := PositionMerge.MergeGroups([spot.value, future]);
      r := Ok(merged);
    }
  }

  /** `fetch_specific_positions`: any market other than SPOT, FUTURE or UNIFIED
      raises. */
  function SpecificPositions(market: string, spotCoins: seq<CoinBalance>, unifiedCoins: seq<CoinBalance>,
                             ps: seq<Derivative>, quote: string -> PriceReply): (r: Result<Table, string>)
    ensures market !in {"SPOT", "FUTURE", "UNIFIED"} ==> r == Err(UnknownMarket)
    ensures market == "FUTURE" ==> r.Ok? && r.value.Valid()
    ensures market == "SPOT" ==> r == CoinTable(spotCoins, Spot, quote)
    ensures market == "UNIFIED" ==> r == CoinTable(unifiedCoins, UnifiedWallet, quote)
  {
    if market == "SPOT" then CoinTable(spotCoins, Spot, quote)
    else if market == "FUTURE" then Ok(DerivativeTable(ps))
    else if market == "UNIFIED" then CoinTable(unifiedCoins, UnifiedWallet, quote)
    else Err(UnknownMarket)
  }

  // ---------------------------------------------------------------------------
  // Balance

  /** What one spot coin adds to the spot net liquidation value: zero balances
      are skipped, stables count at face value. */
  function SpotContribution(c: CoinBalance, quote: string -> PriceReply): Result<real, string>
  {
    if c.walletBalance == 0.0 then Ok(0.0)
    else if Upper(c.coin) in SpotStables then Ok(c.walletBalance)
    else Priced(c.walletBalance, c.coin, quote)
  }

  function SpotNetliq(coins: seq<CoinBalance>, quote: string -> PriceReply): Result<real, string>
  {
    if coins == [] then Ok(0.0)
    else
      Accrue(SpotNetliq(coins[..|coins| - 1], quote), SpotContribution(coins[|coins| - 1], quote))
  }

  /** A non-zero, non-stable coin whose price lookup raised or found no pair. */
  predicate Unpriced(c: CoinBalance, quote: string -> PriceReply)
  {
    c.walletBalance != 0.0 && Upper(c.coin) !in SpotStables && !(CoinPrice(c.coin, quote).Ok? && CoinPrice(c.coin, quote).value.Some?)
  }

  /** The spot value fails exactly when some coin is unpriced. */
  lemma {:induction false} SpotNetliqErr(coins: seq<CoinBalance>, quote: string -> PriceReply)
    ensures SpotNetliq(coins, quote).Err? <==> exists j :: 0 <= j < |coins| && Unpriced(coins[j], quote)
    decreases |coins|
  {
    if coins != [] {
      var init := coins[..|coins| - 1];
      var c := coins[|coins| - 1];
      SpotNetliqErr(init, quote);
      assert SpotNetliq(coins, quote).Err? <==> SpotNetliq(init, quote).Err? || Unpriced(c, quote);
      if exists j :: 0 <= j < |init| && Unpriced(init[j], quote) {
        var j :| 0 <= j < |init| && Unpriced(init[j], quote);
        assert coins[j] == init[j];
      }
      if exists j :: 0 <= j < |coins| && Unpriced(coins[j], quote) {
        var j :| 0 <= j < |coins| && Unpriced(coins[j], quote);
        if j < |init| {
          assert init[j] == coins[j];
        }
      }
    }
  }

  /** When every coin is a stable, the spot value is their total balance. */
  lemma SpotNetliqStables(coins: seq<CoinBalance>, quote: string -> PriceReply)
    requires forall j :: 0 <= j < |coins| ==> Upper(coins[j].coin) in SpotStables
    ensures SpotNetliq(coins, quote) == Ok(Sum(Balances(coins)))
  {
    forall j | 0 <= j < |coins|
      ensures SpotContribution(coins[j], quote) == Ok(coins[j].walletBalance)
    {
      StableAtFace(coins[j], quote);
    }
    SpotNetliqFaceValue(coins, quote);
  }

  /** A stable coin counts at its balance. */
  lemma StableAtFace(c: CoinBalance, quote: string -> PriceReply)
    requires Upper(c.coin) in SpotStables
    ensures SpotContribution(c, quote) == Ok(c.walletBalance)
  {
  }

  /** Coins that all count at face value add up to their total balance. */
  lemma {:induction false} SpotNetliqFaceValue(coins: seq<CoinBalance>, quote: string -> PriceReply)
    requires forall j :: 0 <= j < |coins| ==> SpotContribution(coins[j], quote) == Ok(coins[j].walletBalance)
    ensures SpotNetliq(coins, quote) == Ok(Sum(Balances(coins)))
    decreases |coins|
  {
    if coins != [] {
      var init := coins[..|coins| - 1];
      var c := coins[|coins| - 1];
      var total := Sum(Balances(init));
      assert SpotNetliq(init, quote) == Ok(total) by {
        assert forall j :: 0 <= j < |init| ==> init[j] == coins[j];
        SpotNetliqFaceValue(init, quote);
      }
      assert Sum(Balances(coins)) == total + c.walletBalance by {
        var bs := Balances(coins);
        assert bs[..|bs| - 1] == Balances(init);
      }
      assert SpotNetliq(coins, quote) == Accrue(Ok(total), SpotContribution(c, quote));
    }
  }

  function Balances(coins: seq<CoinBalance>): (r: seq<real>)
    ensures |r| == |coins| && forall i :: 0 <= i < |coins| ==> r[i] == coins[i].walletBalance
  {
    if coins == [] then [] else Balances(coins[..|coins| - 1]) + [coins[|coins| - 1].walletBalance]
  }

  /** `__get_balances`: the unified equity as reported, or derivative equity plus
      spot value rounded to a whole number (`round` without digits). */
  method GetBalances(accountType: string, derivativeEquity: Result<real, string>, spotCoins: seq<CoinBalance>,
                     quote: string -> PriceReply) returns (r: Result<real, string>)
    ensures accountType == UnifiedAccount ==> r == derivativeEquity
    ensures accountType != UnifiedAccount ==>
      r == (match derivativeEquity
            case Err(e) => Err(e)
            case Ok(d) =>
              match SpotNetliq(spotCoins, quote)
              case Err(e) => Err(e)
              case Ok(s) => Ok(RoundToInt(s + d) as real))
  {
    if accountType == UnifiedAccount {
      return derivativeEquity;
    }
    if derivativeEquity.Err? {
      return Err(derivativeEquity.error);
    }
    var derivative := derivativeEquity.value;
    var spotNetliq := 0.0;
    var i := 0;
    while i < |spotCoins|
      invariant 0 <= i <= |spotCoins|
      invariant SpotNetliq(spotCoins[..i], quote) == Ok(spotNetliq)
    {
      assert spotCoins[..i + 1][..i] == spotCoins[..i];
      var c := spotCoins[i];
      var value := 0.0;
      if c.walletBalance != 0.0 {
        if Upper(c.coin) in SpotStables {
          value := c.walletBalance;
        } else {
          var price := CoinPrice(c.coin, quote);
          if price.Err? || price.value.None? {
            NetliqErrorSticks(spotCoins, i + 1, quote);
            return Err(if price.Err? then price.error else TypeError);
          }
          value := Mul(c.walletBalance, price.value.value);
        }
      }
      assert SpotContribution(c, quote) == Ok(value);
      spotNetliq := spotNetliq + value;
      i := i + 1;
    }
    assert spotCoins[..i] == spotCoins;
    r := Ok(RoundToInt(spotNetliq + derivative) as real);
  }

  lemma {:induction false} NetliqErrorSticks(coins: seq<CoinBalance>, k: nat, quote: string -> PriceReply)
    requires k <= |coins| && SpotNetliq(coins[..k], quote).Err?
    ensures SpotNetliq(coins, quote) == SpotNetliq(coins[..k], quote)
    decreases |coins| - k
  {
    if k < |coins| {
      assert coins[..k + 1][..k] == coins[..k];
      NetliqErrorSticks(coins, k + 1, quote);
    } else {
      assert coins[..k] == coins;
    }
  }

  /** `fetch_balance`: the balance rounded to 2 decimals. */
  method FetchBalance(accountType: string, derivativeEquity: Result<real, string>, spotCoins: seq<CoinBalance>,
                      quote: string -> PriceReply) returns (r: Result<real, string>)
    ensures accountType == UnifiedAccount ==>
      r == (match derivativeEquity
            case Err(e) => Err(e)
            case Ok(d) => Ok(Round(d, 2)))
    ensures accountType != UnifiedAccount ==>
      r == (match derivativeEquity
            case Err(e) => Err(e)
            case Ok(d) =>
              match SpotNetliq(spotCoins, quote)
              case Err(e) => Err(e)
              case Ok(s) => Ok(Round(RoundToInt(s + d) as real, 2)))
    ensures accountType == UnifiedAccount && derivativeEquity.Ok? ==> r == Ok(Round(derivativeEquity.value, 2))
    ensures r.Err? <==> (accountType == UnifiedAccount && derivativeEquity.Err?)
                        || (accountType != UnifiedAccount && (derivativeEquity.Err? || SpotNetliq(spotCoins, quote).Err?))
    ensures accountType != UnifiedAccount && r.Ok? ==> r.value == RoundToInt(r.value) as real
  {
    var b := GetBalances(accountType, derivativeEquity, spotCoins, quote);
    if b.Err? {
      return b;
    }
    r := Ok(Round(b.value, 2));
    if accountType != UnifiedAccount {
      RoundWhole(RoundToInt(b.value), 2);
    }
  }
}
