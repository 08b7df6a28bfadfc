/** The KuCoin adapter: the spot balance (stables at face value, other coins at
    their last traded price, rounded to a whole number), the spot position
    table and the single-call price lookup. The connector's answers are
    parameters: the wallet's coin list and `lastTraded`, the reply to
    `get_last_traded_price` for one currency. */
module KucoinFetcher {
  import opened Common

  const Stables: set<string> := {"BUSD", "USDC", "USDT"}
  const MinPositionDollars: real := 100.0
  /** Indexing the price reply with a currency it does not hold. */
  const KeyError: string := "KeyError"
  /** Multiplying a balance by the `None` of a failed price lookup. */
  const TypeError: string := "TypeError"
  /** The connector's own error (retries exceeded, or a body that is not JSON). */
  const FailedRequestError: string := "FailedRequestError"

  /** One entry of `get_wallet_balance`. */
  datatype CoinBalance = CoinBalance(currency: string, balance: real)

  /** The connector's reply to a price request: prices keyed by currency,
      `InvalidRequestError`, or a `FailedRequestError`, which is not caught. */
  datatype PriceReply = Prices(prices: map<string, real>) | Invalid | Failed

  /** `__get_coin_price`: one request keyed by the currency; `None` when the
      request is invalid, a `KeyError` when the reply does not hold it, and
      the connector's `FailedRequestError` passed on. */
  function CoinPrice(symbol: string, lastTraded: string -> PriceReply): (r: Result<Option<real>, string>)
    ensures r == Ok(None) <==> lastTraded(symbol).Invalid?
    ensures r.Err? <==> (lastTraded(symbol).Prices? && symbol !in lastTraded(symbol).prices) || lastTraded(symbol).Failed?
    ensures r == Err(FailedRequestError) <==> lastTraded(symbol).Failed?
    ensures r.Ok? && r.value.Some? ==> lastTraded(symbol).Prices? && r.value.value == lastTraded(symbol).prices[symbol]
  {
    match lastTraded(symbol)
    case Invalid => Ok(None)
    case Failed => Err(FailedRequestError)
    case Prices(m) => if symbol in m then Ok(Some(m[symbol])) else Err(KeyError)
  }

  /** `amount * __get_coin_price(currency)`. */
  function Priced(amount: real, currency: string, lastTraded: string -> PriceReply): Result<real, string>
  {
    match CoinPrice(currency, lastTraded)
    case Err(e) => Err(e)
    case Ok(None) => Err(TypeError)
    case Ok(Some(p)) => Ok(Mul(amount, p))
  }

  // ---------------------------------------------------------------------------
  // Balance

  /** What one coin adds to the spot value: a zero balance is skipped, a stable
      counts at face value, any other coin at its price. */
  function Contribution(c: CoinBalance, lastTraded: string -> PriceReply): Result<real, string>
  {
    if c.balance == 0.0 then Ok(0.0)
    else if Upper(c.currency) in Stables then Ok(c.balance)
    else Priced(c.balance, c.currency, lastTraded)
  }

  function SpotNetliq(coins: seq<CoinBalance>, lastTraded: string -> PriceReply): Result<real, string>
  {
    if coins == [] then Ok(0.0)
    else Accrue(SpotNetliq(coins[..|coins| - 1], lastTraded), Contribution(coins[|coins| - 1], lastTraded))
  }

  function Balances(coins: seq<CoinBalance>): (r: seq<real>)
    ensures |r| == |coins| && forall i :: 0 <= i < |coins| ==> r[i] == coins[i].balance
  {
    if coins == [] then [] else Balances(coins[..|coins| - 1]) + [coins[|coins| - 1].balance]
  }

  /** The coins with a non-zero balance, in order. */
  function NonZero(coins: seq<CoinBalance>): seq<CoinBalance>
  {
    if coins == [] then []
    else
      var c := coins[|coins| - 1];
      NonZero(coins[..|coins| - 1]) + (if c.balance != 0.0 then [c] else [])
  }

  /** A non-zero, non-stable coin with no usable price. */
  predicate Unpriced(c: CoinBalance, lastTraded: string -> PriceReply)
  {
    c.balance != 0.0 && Upper(c.currency) !in Stables && Priced(c.balance, c.currency, lastTraded).Err?
  }

  /** The spot value fails exactly when some coin is unpriced. */
  lemma {:induction false} SpotNetliqErr(coins: seq<CoinBalance>, lastTraded: string -> PriceReply)
    ensures SpotNetliq(coins, lastTraded).Err? <==> exists j :: 0 <= j < |coins| && Unpriced(coins[j], lastTraded)
    decreases |coins|
  {
    if coins != [] {
      var init := coins[..|coins| - 1];
      var c := coins[|coins| - 1];
      SpotNetliqErr(init, lastTraded);
      assert SpotNetliq(coins, lastTraded).Err? <==> SpotNetliq(init, lastTraded).Err? || Unpriced(c, lastTraded);
      if exists j :: 0 <= j < |init| && Unpriced(init[j], lastTraded) {
        var j :| 0 <= j < |init| && Unpriced(init[j], lastTraded);
        assert coins[j] == init[j];
      }
      if exists j :: 0 <= j < |coins| && Unpriced(coins[j], lastTraded) {
        var j :| 0 <= j < |coins| && Unpriced(coins[j], lastTraded);
        if j < |init| {
          assert init[j] == coins[j];
        }
      }
    }
  }

  /** When every coin is a stable, the spot value is their total balance. */
  lemma SpotNetliqStables(coins: seq<CoinBalance>, lastTraded: string -> PriceReply)
    requires forall j :: 0 <= j < |coins| ==> Upper(coins[j].currency) in Stables
    ensures SpotNetliq(coins, lastTraded) == Ok(Sum(Balances(coins)))
  {
    forall j | 0 <= j < |coins|
      ensures Contribution(coins[j], lastTraded) == Ok(coins[j].balance)
    {
      StableAtFace(coins[j], lastTraded);
    }
    SpotNetliqFaceValue(coins, lastTraded);
  }

  /** A stable coin counts at its balance. */
  lemma StableAtFace(c: CoinBalance, lastTraded: string -> PriceReply)
    requires Upper(c.currency) in Stables
    ensures Contribution(c, lastTraded) == Ok(c.balance)
  {
  }

  /** Coins that all count at face value add up to their total balance. */
  lemma {:induction false} SpotNetliqFaceValue(coins: seq<CoinBalance>, lastTraded: string -> PriceReply)
    requires forall j :: 0 <= j < |coins| ==> Contribution(coins[j], lastTraded) == Ok(coins[j].balance)
    ensures SpotNetliq(coins, lastTraded) == Ok(Sum(Balances(coins)))
    decreases |coins|
  {
    if coins != [] {
      var init := coins[..|coins| - 1];
      var c := coins[|coins| - 1];
      var total := Sum(Balances(init));
      assert SpotNetliq(init, lastTraded) == Ok(total) by {
        assert forall j :: 0 <= j < |init| ==> init[j] == coins[j];
        SpotNetliqFaceValue(init, lastTraded);
      }
      assert Sum(Balances(coins)) == total + c.balance by {
        var bs := Balances(coins);
        assert bs[..|bs| - 1] == Balances(init);
      }
      assert SpotNetliq(coins, lastTraded) == Accrue(Ok(total), Contribution(c, lastTraded));
    }
  }

  /** Zero balances change nothing: not the value, and not whether a price is
      ever looked up. */
  lemma {:induction false} ZeroBalancesSkipped(coins: seq<CoinBalance>, lastTraded: string -> PriceReply)
    ensures SpotNetliq(coins, lastTraded) == SpotNetliq(NonZero(coins), lastTraded)
    decreases |coins|
  {
    if coins != [] {
      var init := coins[..|coins| - 1];
      var c := coins[|coins| - 1];
      ZeroBalancesSkipped(init, lastTraded);
      assert SpotNetliq(coins, lastTraded) == Accrue(SpotNetliq(init, lastTraded), Contribution(c, lastTraded));
      if c.balance != 0.0 {
        var nz := NonZero(init) + [c];
        assert NonZero(coins) == nz;
        assert nz[..|nz| - 1] == NonZero(init);
      } else {
        assert NonZero(coins) == NonZero(init);
        assert Contribution(c, lastTraded) == Ok(0.0);
      }
    }
  }

  /** `__get_balances`: the spot value rounded to a whole number. */
  method GetBalances(coins: seq<CoinBalance>, lastTraded: string -> PriceReply) returns (r: Result<int, string>)
    ensures r == (match SpotNetliq(coins, lastTraded)
                  case Err(e) => Err(e)
                  case Ok(s) => Ok(RoundToInt(s)))
  {
    var spotNetliq := 0.0;
    var i := 0;
    while i < |coins|
      invariant 0 <= i <= |coins|
      invariant SpotNetliq(coins[..i], lastTraded) == Ok(spotNetliq)
    {
      assert coins[..i + 1][..i] == coins[..i];
      var c := coins[i];
      var value := 0.0;
      if c.balance != 0.0 {
        if Upper(c.currency) in Stables {
          value := c.balance;
        } else {
          var price := CoinPrice(c.currency, lastTraded);
          if price.Err? || price.value.None? {
            NetliqErrorSticks(coins, i + 1, lastTraded);
            return Err(if price.Err? then price.error else TypeError);
          }
          value := Mul(c.balance, price.value.value);
        }
      }
      assert Contribution(c, lastTraded) == Ok(value);
      spotNetliq := spotNetliq + value;
      i := i + 1;
    }
    assert coins[..i] == coins;
    r := Ok(RoundToInt(spotNetliq));
  }

  lemma {:induction false} NetliqErrorSticks(coins: seq<CoinBalance>, k: nat, lastTraded: string -> PriceReply)
    requires k <= |coins| && SpotNetliq(coins[..k], lastTraded).Err?
    ensures SpotNetliq(coins, lastTraded) == SpotNetliq(coins[..k], lastTraded)
    decreases |coins| - k
  {
    if k < |coins| {
      assert coins[..k + 1][..k] == coins[..k];
      NetliqErrorSticks(coins, k + 1, lastTraded);
    } else {
      assert coins[..k] == coins;
    }
  }

  /** `fetch_balance`: the whole-number spot value, which rounding to 2 decimals
      leaves unchanged; the account type is not used. */
  method FetchBalance(accountType: string, coins: seq<CoinBalance>, lastTraded: string -> PriceReply)
    returns (r: Result<real, string>)
    ensures r.Err? <==> SpotNetliq(coins, lastTraded).Err?
    ensures r.Ok? ==> r.value == RoundToInt(SpotNetliq(coins, lastTraded).value) as real
  {
    var b := GetBalances(coins, lastTraded);
    if b.Err? {
      return Err(b.error);
    }
    RoundWhole(b.value, 2);
    r := Ok(Round(b.value as real, 2));
  }

  // ---------------------------------------------------------------------------
  // Positions

  /** The dollar value of one coin's row: its balance rounded to 3, at face
      value for a stable and at its price otherwise. */
  function CoinValue(c: CoinBalance, lastTraded: string -> PriceReply): Result<real, string>
  {
    var q := Round(c.balance, 3);
    if Upper(c.currency) in Stables then Ok(q) else Priced(q, c.currency, lastTraded)
  }

  predicate Listed(c: CoinBalance, lastTraded: string -> PriceReply)
  {
    CoinValue(c, lastTraded).Ok? && CoinValue(c, lastTraded).value > MinPositionDollars
  }

  /** The coins that get a row. */
  function Kept(coins: seq<CoinBalance>, lastTraded: string -> PriceReply): (r: seq<CoinBalance>)
    ensures forall c :: c in r ==> c in coins && Listed(c, lastTraded)
  {
    if coins == [] then []
    else
      var c := coins[|coins| - 1];
      Kept(coins[..|coins| - 1], lastTraded) + (if Listed(c, lastTraded) then [c] else [])
  }

  function CoinTable(coins: seq<CoinBalance>, lastTraded: string -> PriceReply): (r: Result<Table, string>)
    ensures r.Ok? ==> r.value.Valid()
  {
    if coins == [] then Ok(EmptyTable)
    else
      var c := coins[|coins| - 1];
      match CoinTable(coins[..|coins| - 1], lastTraded)
      case Err(e) => Err(e)
      case Ok(t) =>
        match CoinValue(c, lastTraded)
        case Err(e) => Err(e)
        case Ok(d) => if d > MinPositionDollars then Ok(t.Append(c.currency, 1, Round(c.balance, 3), d)) else Ok(t)
  }

  /** A non-stable coin (zero balances included) with no usable price. */
  predicate Unvalued(c: CoinBalance, lastTraded: string -> PriceReply)
  {
    Upper(c.currency) !in Stables && Priced(Round(c.balance, 3), c.currency, lastTraded).Err?
  }

  /** The table fails exactly when some coin is unvalued. */
  lemma CoinTableErr(coins: seq<CoinBalance>, lastTraded: string -> PriceReply)
    ensures CoinTable(coins, lastTraded).Err? <==> exists j :: 0 <= j < |coins| && Unvalued(coins[j], lastTraded)
  {
    var unvalued := c => Unvalued(c, lastTraded);
    CoinTableAny(coins, lastTraded);
    AnyOfSpec(coins, unvalued);
    assert forall j :: 0 <= j < |coins| ==> (unvalued(coins[j]) <==> Unvalued(coins[j], lastTraded));
  }

  lemma {:induction false} CoinTableAny(coins: seq<CoinBalance>, lastTraded: string -> PriceReply)
    ensures CoinTable(coins, lastTraded).Err? <==> AnyOf(coins, c => Unvalued(c, lastTraded))
    decreases |coins|
  {
    if coins != [] {
      CoinTableAny(coins[..|coins| - 1], lastTraded);
      CoinTableStep(coins, lastTraded);
    }
  }

  lemma CoinTableStep(coins: seq<CoinBalance>, lastTraded: string -> PriceReply)
    requires coins != []
    ensures CoinTable(coins, lastTraded).Err? <==>
      CoinTable(coins[..|coins| - 1], lastTraded).Err? || Unvalued(coins[|coins| - 1], lastTraded)
  {
  }

  /** Without failure, row `i` is the `i`-th coin worth more than 100 dollars,
      with multiplier 1, its balance rounded to 3 and its dollar value. */
  lemma {:induction false} CoinTableRows(coins: seq<CoinBalance>, lastTraded: string -> PriceReply)
    ensures CoinTable(coins, lastTraded).Ok? ==>
      var t := CoinTable(coins, lastTraded).value;
      |t.symbol| == |Kept(coins, lastTraded)|
      && forall i :: 0 <= i < |t.symbol| ==>
           var c := Kept(coins, lastTraded)[i];
           t.symbol[i] == c.currency && t.multiplier[i] == 1 && t.quantity[i] == Round(c.balance, 3)
           && Ok(t.dollar[i]) == CoinValue(c, lastTraded)
    decreases |coins|
  {
    if coins != [] {
      CoinTableRows(coins[..|coins| - 1], lastTraded);
    }
  }

  /** Every row is worth more than 100 dollars, and a stable's row is valued at
      its quantity. */
  lemma RowsAreLargeHoldings(coins: seq<CoinBalance>, lastTraded: string -> PriceReply)
    requires CoinTable(coins, lastTraded).Ok?
    ensures var t := CoinTable(coins, lastTraded).value;
      forall i :: 0 <= i < |t.symbol| ==>
        t.dollar[i] > MinPositionDollars && (Upper(t.symbol[i]) in Stables ==> t.dollar[i] == t.quantity[i])
  {
    CoinTableRows(coins, lastTraded);
    var t := CoinTable(coins, lastTraded).value;
    forall i | 0 <= i < |t.symbol|
      ensures t.dollar[i] > MinPositionDollars && (Upper(t.symbol[i]) in Stables ==> t.dollar[i] == t.quantity[i])
    {
      var c := Kept(coins, lastTraded)[i];
      assert c in Kept(coins, lastTraded);
    }
  }

  /** `fetch_positions` / `__get_spot_positions`: the account type is not used. */
  method FetchPositions(accountType: string, coins: seq<CoinBalance>, lastTraded: string -> PriceReply)
    returns (r: Result<Table, string>)
    ensures r == CoinTable(coins, lastTraded)
  {
    var t := EmptyTable;
    var i := 0;
    while i < |coins|
      invariant 0 <= i <= |coins|
      invariant CoinTable(coins[..i], lastTraded) == Ok(t)
    {
      assert coins[..i + 1][..i] == coins[..i];
      var c := coins[i];
      var quantity := Round(c.balance, 3);
      var dollar: real;
      if Upper(c.currency) in Stables {
        dollar := quantity;
      } else {
        var price := CoinPrice(c.currency, lastTraded);
        if price.Err? || price.value.None? {
          TableErrorSticks(coins, i + 1, lastTraded);
          return Err(if price.Err? then price.error else TypeError);
        }
        dollar := Mul(quantity, price.value.value);
      }
      assert CoinValue(c, lastTraded) == Ok(dollar);
      if dollar > MinPositionDollars {
        t := t.Append(c.currency, 1, quantity, dollar);
      }
      i := i + 1;
    }
    assert coins[..i] == coins;
    return Ok(t);
  }

  lemma {:induction false} TableErrorSticks(coins: seq<CoinBalance>, k: nat, lastTraded: string -> PriceReply)
    requires k <= |coins| && CoinTable(coins[..k], lastTraded).Err?
    ensures CoinTable(coins, lastTraded) == CoinTable(coins[..k], lastTraded)
    decreases |coins| - k
  {
    if k < |coins| {
      assert coins[..k + 1][..k] == coins[..k];
      TableErrorSticks(coins, k + 1, lastTraded);
    } else {
      assert coins[..k] == coins;
    }
  }
}
