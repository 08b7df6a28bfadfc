/** The Kraken adapter: the balance dictionary is filtered and renamed in place,
    valued in dollars (all stable coins pooled under "USD"), and cached as
    balance metadata from which the net liquidation value and the position
    table are read. The connector's answers are parameters: the raw balance
    dictionary and `ticker`, the last close price of a pair (`None` when the
    ticker dictionary has no such pair). */
module KrakenFetcher {
  import opened Common

  const Stables: set<string> := {"USDC", "USDT", "DAI", "USD", "ZUSD"}
  const Usd: string := "USD"
  const TickerToOthers: map<string, string> := map[
    "ZEUR" := "EUR", "USDC" := "USD", "GNO" := "GNO", "XXBT" := "BTC", "XICN" := "ICN",
    "XXRP" := "XRP", "ZUSD" := "USD", "XETH" := "ETH", "ZGBP" := "GBP", "XETC" := "ETC",
    "XDAO" := "DAO", "XREP" := "REP", "ADA" := "ADA", "XXLM" := "XLM", "BCH" := "BCH",
    "ETHW" := "ETHW", "QTUM" := "QTUM", "IMX" := "IMX"]
  const InternalMap: map<string, string> := map["XXBT" := "XBTC"]
  const NoPrice: set<string> := {"ZGBP", "ZEUR"}
  const Dust: real := 0.001
  const MinPositionDollars: real := 100.0
  const SpotAccount: string := "SPOT"

  const KeyError: string := "KeyError"
  /** Multiplying a balance by the `None` of a missing price. */
  const TypeError: string := "TypeError"
  const NotImplementedError: string := "NotImplementedError"
  /** `None.get_position()` before any balance was fetched. */
  const AttributeError: string := "AttributeError"

  /** Facts about the constant tables that the proofs use. */
  lemma TablesFacts()
    ensures forall k :: k in TickerToOthers ==> TickerToOthers[k] !in NoPrice
    ensures forall k :: k in TickerToOthers && TickerToOthers[k] in TickerToOthers ==> TickerToOthers[k] == k
    ensures forall k :: k in InternalMap ==> k in TickerToOthers && k !in Stables && k !in NoPrice
    ensures forall k :: k in InternalMap ==> TickerToOthers[k] !in Stables
    ensures Usd in Stables && Usd !in TickerToOthers
  {
  }

  /** A dictionary updated in place. */
  class BalanceDict {
    var keys: seq<string>
    var values: map<string, real>

    function Snapshot(): Dict
      reads this
    {
      Dict(keys, values)
    }

    constructor (d: Dict)
      ensures Snapshot() == d
    {
      keys := d.keys;
      values := d.values;
    }

    method Pop(k: string) returns (v: real)
      requires k in values
      modifies this
      ensures v == old(values[k])
      ensures Snapshot() == old(Snapshot()).Pop(k)
    {
      v := values[k];
      keys := Without(keys, {k});
      values := values - {k};
    }

    method Put(k: string, v: real)
      modifies this
      ensures Snapshot() == old(Snapshot()).Put(k, v)
    {
      if k !in values {
        keys := keys + [k];
      }
      values := values[k := v];
    }
  }

  // ---------------------------------------------------------------------------
  // filter_balance_dict

  /** Keys that are popped: no price available, or under 0.001. */
  function EraseSet(d: Dict): set<string>
  {
    set k | k in d.values && (k in NoPrice || d.values[k] < Dust)
  }

  /** Keys that are renamed through the ticker map. */
  function ModifySet(d: Dict): set<string>
  {
    set k | k in d.values && k in TickerToOthers
  }

  function Erase(d: Dict, e: set<string>): Dict
  {
    Dict(Without(d.keys, e), d.values - e)
  }

  lemma ErasePop(d: Dict, e: set<string>, k: string)
    ensures Erase(d, e).Pop(k) == Erase(d, e + {k})
  {
    WithoutTwice(d.keys, e, {k});
    assert (d.values - e) - {k} == d.values - (e + {k});
  }

  /** One turn of the renaming loop. */
  function RenameStep(d: Dict, key: string): Dict
  {
    if key in d.values && key in TickerToOthers then d.Pop(key).Put(TickerToOthers[key], d.values[key]) else d
  }

  function Rename(d: Dict, order: seq<string>): Dict
  {
    if order == [] then d else RenameStep(Rename(d, order[..|order| - 1]), order[|order| - 1])
  }

  /** The dictionary `filter_balance_dict` leaves behind. Python iterates the set
      of keys to rename in hash order; the model takes them in sorted order. */
  function Filtered(d: Dict): Dict
  {
    Rename(Erase(d, EraseSet(d)), SortedKeys(ModifySet(d)))
  }

  /** `filter_balance_dict`: pops and renames keys of the caller's dictionary and
      returns that same dictionary. */
  method FilterBalanceDict(balances: BalanceDict) returns (r: BalanceDict)
    requires balances.Snapshot().Valid()
    modifies balances
    ensures r == balances
    ensures balances.Snapshot() == Filtered(old(balances.Snapshot()))
  {
    var keyToModify, keyToErase := ScanKeys(balances.Snapshot());
    PopAll(balances, keyToErase);
    SortedKeysSpec(keyToModify);
    RenameAll(balances, SortedKeys(keyToModify));
    return balances;
  }

  /** The first loop of `filter_balance_dict`: which keys to rename, which to pop. */
  method ScanKeys(d: Dict) returns (keyToModify: set<string>, keyToErase: set<string>)
    requires d.Valid()
    ensures keyToModify == ModifySet(d) && keyToErase == EraseSet(d)
  {
    keyToModify := {};
    keyToErase := {};
    var i := 0;
    while i < |d.keys|
      invariant 0 <= i <= |d.keys|
      invariant keyToModify == set k | k in d.keys[..i] && k in TickerToOthers
      invariant keyToErase == set k | k in d.keys[..i] && (k in NoPrice || d.values[k] < Dust)
    {
      var key := d.keys[i];
      assert d.keys[..i + 1] == d.keys[..i] + [key];
      if key in TickerToOthers {
        keyToModify := keyToModify + {key};
      }
      if key in NoPrice || d.values[key] < Dust {
        keyToErase := keyToErase + {key};
      }
      i := i + 1;
    }
    assert d.keys[..i] == d.keys;
  }

  /** The second loop: pop every key of `keyToErase`, in any order. */
  method PopAll(balances: BalanceDict, keyToErase: set<string>)
    requires keyToErase <= balances.values.Keys
    modifies balances
    ensures balances.Snapshot() == Erase(old(balances.Snapshot()), keyToErase)
  {
    ghost var d := balances.Snapshot();
    var toErase := keyToErase;
    WithoutNothing(d.keys);
    assert d.values - {} == d.values;
    assert keyToErase - toErase == {};
    assert Erase(d, {}) == d;
    while toErase != {}
      invariant toErase <= keyToErase
      invariant balances.Snapshot() == Erase(d, keyToErase - toErase)
      decreases |toErase|
    {
      var key :| key in toErase;
      ErasePop(d, keyToErase - toErase, key);
      assert keyToErase - toErase + {key} == keyToErase - (toErase - {key});
      var _ := balances.Pop(key);
      toErase := toErase - {key};
    }
    assert keyToErase - toErase == keyToErase;
  }

  /** The third loop: rename the keys of `order` that are still present. */
  method RenameAll(balances: BalanceDict, order: seq<string>)
    requires forall k :: k in order ==> k in TickerToOthers
    modifies balances
    ensures balances.Snapshot() == Rename(old(balances.Snapshot()), order)
  {
    ghost var e := balances.Snapshot();
    var j := 0;
    while j < |order|
      invariant 0 <= j <= |order|
      invariant balances.Snapshot() == Rename(e, order[..j])
    {
      assert order[..j + 1][..j] == order[..j];
      var key := order[j];
      if key in balances.values {
        var balance := balances.Pop(key);
        balances.Put(TickerToOthers[key], balance);
      }
      j := j + 1;
    }
    assert order[..j] == order;
  }

  /** No surviving value is below 0.001 and no key without a price remains. */
  predicate Clean(d: Dict)
  {
    forall k :: k in d.values ==> d.values[k] >= Dust && k !in NoPrice
  }

  lemma {:induction false} RenameKeepsClean(d: Dict, order: seq<string>)
    requires d.Valid() && Clean(d)
    ensures Rename(d, order).Valid() && Clean(Rename(d, order))
  {
    if order != [] {
      RenameKeepsClean(d, order[..|order| - 1]);
      TablesFacts();
    }
  }

  /** Filtering leaves a well-formed dictionary with no dust and no unpriced key. */
  lemma FilterClean(d: Dict)
    requires d.Valid()
    ensures Filtered(d).Valid() && Clean(Filtered(d))
  {
    var e := Erase(d, EraseSet(d));
    WithoutDistinct(d.keys, EraseSet(d));
    assert e.Valid() && Clean(e);
    RenameKeepsClean(e, SortedKeys(ModifySet(d)));
  }

  /** `k` is left by renaming the keys of `order` in `d`: an untouched key of
      `d`, or the new name of a renamed one. */
  predicate RenamedKey(d: Dict, order: seq<string>, k: string)
  {
    (k in d.values && k !in order)
    || exists j :: j in order && j in d.values && j in TickerToOthers && TickerToOthers[j] == k
  }

  lemma {:induction false} RenameKeys(d: Dict, order: seq<string>)
    requires Distinct(order) && forall j :: j in order ==> j in TickerToOthers
    ensures forall k :: k in Rename(d, order).values <==> RenamedKey(d, order, k)
  {
    if order != [] {
      var init := order[..|order| - 1];
      var key := order[|order| - 1];
      assert Distinct(init) by {
        forall a, b | 0 <= a < b < |init|
          ensures init[a] != init[b]
        {
          assert init[a] == order[a] && init[b] == order[b];
        }
      }
      assert key !in init;
      assert forall j :: j in order <==> j in init || j == key;
      RenameKeys(d, init);
      TablesFacts();
      var r := Rename(d, init);
      assert key in r.values <==> key in d.values;
      forall k
        ensures k in Rename(d, order).values <==> RenamedKey(d, order, k)
      {
        if k in Rename(d, order).values {
          if key in d.values && k == TickerToOthers[key] {
            assert key in order;
          }
        }
      }
    }
  }

  /** A key survives filtering exactly when it is an original key that was
      neither erased nor renamed, or the new name of a renamed key that was not
      erased. */
  lemma FilterKeys(d: Dict)
    requires d.Valid()
    ensures forall k :: k in Filtered(d).values <==>
      (k in d.values && k !in EraseSet(d) && k !in TickerToOthers)
      || exists j :: j in d.values && j !in EraseSet(d) && j in TickerToOthers && TickerToOthers[j] == k
  {
    var e := Erase(d, EraseSet(d));
    var order := SortedKeys(ModifySet(d));
    SortedKeysSpec(ModifySet(d));
    assert Distinct(order) by {
      forall a, b | 0 <= a < b < |order|
        ensures order[a] != order[b]
      {
        LessIrreflexive(order[a]);
      }
    }
    RenameKeys(e, order);
  }

  // ---------------------------------------------------------------------------
  // Valuation

  /** `__get_coin_price`: the USD pair, then USDT, then USDC. */
  function CoinPrice(coin: string, ticker: string -> Option<real>): (p: Option<real>)
    ensures p.None? <==> ticker(coin + "USD").None? && ticker(coin + "USDT").None? && ticker(coin + "USDC").None?
    ensures ticker(coin + "USD").Some? ==> p == ticker(coin + "USD")
    ensures ticker(coin + "USD").None? && ticker(coin + "USDT").Some? ==> p == ticker(coin + "USDT")
    ensures p.Some? ==> p == ticker(coin + "USD") || p == ticker(coin + "USDT") || p == ticker(coin + "USDC")
  {
    if ticker(coin + "USD").Some? then ticker(coin + "USD")
    else if ticker(coin + "USDT").Some? then ticker(coin + "USDT")
    else ticker(coin + "USDC")
  }

  /** The name a token is priced under. */
  function PriceName(token: string): string
  {
    if token in InternalMap then InternalMap[token] else token
  }

  /** A token the valuation loop cannot price. */
  predicate Unpriced(token: string, ticker: string -> Option<real>)
  {
    token !in Stables && token !in NoPrice && CoinPrice(PriceName(token), ticker).None?
  }

  /** One turn of the valuation loop. */
  function DollarStep(acc: Dict, token: string, balance: real, ticker: string -> Option<real>): Result<Dict, string>
  {
    if token in Stables then
      Ok(if Usd in acc.values then acc.Put(Usd, acc.values[Usd] + balance) else acc.Put(Usd, balance))
    else if token in InternalMap then
      match CoinPrice(InternalMap[token], ticker)
      case None => Err(TypeError)
      case Some(p) => Ok(acc.Put(if token in TickerToOthers then TickerToOthers[token] else token, Mul(balance, p)))
    else if token !in NoPrice then
      match CoinPrice(token, ticker)
      case None => Err(TypeError)
      case Some(p) => Ok(acc.Put(token, Mul(balance, p)))
    else Ok(acc)
  }

  /** The dollar dictionary built over `keys`, before its final filtering. */
  function DollarBalances(keys: seq<string>, balances: map<string, real>, ticker: string -> Option<real>): (r: Result<Dict, string>)
    requires forall k :: k in keys ==> k in balances
    ensures r.Ok? ==> r.value.Valid()
  {
    if keys == [] then Ok(Dict([], map[]))
    else
      var token := keys[|keys| - 1];
      match DollarBalances(keys[..|keys| - 1], balances, ticker)
      case Err(e) => Err(e)
      case Ok(acc) => DollarStep(acc, token, balances[token], ticker)
  }

  lemma {:induction false} DollarErrorSticks(keys: seq<string>, k: nat, balances: map<string, real>, ticker: string -> Option<real>)
    requires k <= |keys| && forall x :: x in keys ==> x in balances
    requires DollarBalances(keys[..k], balances, ticker).Err?
    ensures DollarBalances(keys, balances, ticker) == DollarBalances(keys[..k], balances, ticker)
    decreases |keys| - k
  {
    if k < |keys| {
      assert keys[..k + 1][..k] == keys[..k];
      assert DollarBalances(keys[..k + 1], balances, ticker) == DollarBalances(keys[..k], balances, ticker);
      DollarErrorSticks(keys, k + 1, balances, ticker);
    } else {
      assert keys[..k] == keys;
    }
  }

  /** The balances of the stable tokens, in key order. */
  function StableAmounts(keys: seq<string>, balances: map<string, real>): seq<real>
    requires forall k :: k in keys ==> k in balances
  {
    if keys == [] then []
    else
      var token := keys[|keys| - 1];
      StableAmounts(keys[..|keys| - 1], balances) + (if token in Stables then [balances[token]] else [])
  }

  /** Valuation fails exactly when some token cannot be priced. */
  lemma DollarBalancesErr(keys: seq<string>, balances: map<string, real>, ticker: string -> Option<real>)
    requires forall k :: k in keys ==> k in balances
    ensures DollarBalances(keys, balances, ticker).Err? <==> exists j :: 0 <= j < |keys| && Unpriced(keys[j], ticker)
  {
    var unpriced := k => Unpriced(k, ticker);
    DollarBalancesAny(keys, balances, ticker);
    AnyOfSpec(keys, unpriced);
    assert forall j :: 0 <= j < |keys| ==> (unpriced(keys[j]) <==> Unpriced(keys[j], ticker));
  }

  lemma {:induction false} DollarBalancesAny(keys: seq<string>, balances: map<string, real>, ticker: string -> Option<real>)
    requires forall k :: k in keys ==> k in balances
    ensures DollarBalances(keys, balances, ticker).Err? <==> AnyOf(keys, k => Unpriced(k, ticker))
    decreases |keys|
  {
    if keys != [] {
      DollarBalancesAny(keys[..|keys| - 1], balances, ticker);
      DollarBalancesLast(keys, balances, ticker);
    }
  }

  /** The valuation fails exactly when the valuation of all but the last token
      fails or the last token has no price. */
  lemma DollarBalancesLast(keys: seq<string>, balances: map<string, real>, ticker: string -> Option<real>)
    requires keys != [] && forall k :: k in keys ==> k in balances
    ensures DollarBalances(keys, balances, ticker).Err? <==>
      DollarBalances(keys[..|keys| - 1], balances, ticker).Err? || Unpriced(keys[|keys| - 1], ticker)
  {
    var t := keys[|keys| - 1];
    match DollarBalances(keys[..|keys| - 1], balances, ticker) {
      case Err(_) =>
      case Ok(acc) => DollarStepErr(acc, t, balances[t], ticker);
    }
  }

  /** One turn of the valuation fails exactly on a token that has no price. */
  lemma DollarStepErr(acc: Dict, token: string, balance: real, ticker: string -> Option<real>)
    ensures DollarStep(acc, token, balance, ticker).Err? <==> Unpriced(token, ticker)
  {
    TablesFacts();
  }

  /** A stable token adds its balance to the "USD" entry, creating it at need,
      and adds no other stable name. */
  lemma DollarStepStable(acc: Dict, token: string, balance: real, ticker: string -> Option<real>)
    requires token in Stables
    ensures DollarStep(acc, token, balance, ticker).Ok?
    ensures var a := DollarStep(acc, token, balance, ticker).value;
      Usd in a.values
      && a.values[Usd] == (if Usd in acc.values then acc.values[Usd] + balance else balance)
      && (forall k :: k in a.values && k in Stables ==> k in acc.values || k == Usd)
  {
  }

  /** A non-stable token leaves the "USD" entry alone and adds no stable name. */
  lemma DollarStepOther(acc: Dict, token: string, balance: real, ticker: string -> Option<real>)
    requires token !in Stables && DollarStep(acc, token, balance, ticker).Ok?
    ensures var a := DollarStep(acc, token, balance, ticker).value;
      (Usd in a.values <==> Usd in acc.values)
      && (Usd in acc.values ==> a.values[Usd] == acc.values[Usd])
      && (forall k :: k in a.values && k in Stables ==> k in acc.values)
  {
    TablesFacts();
  }

  /** When valuation succeeds every stable token has been pooled into one "USD"
      entry holding their sum, and no other stable name is a key. */
  lemma {:induction false} StablesPooled(keys: seq<string>, balances: map<string, real>, ticker: string -> Option<real>)
    requires forall k :: k in keys ==> k in balances
    ensures DollarBalances(keys, balances, ticker).Ok? ==>
      var d := DollarBalances(keys, balances, ticker).value;
      (forall k :: k in d.values && k in Stables ==> k == Usd)
      && (Usd in d.values <==> HasStable(keys))
      && (Usd in d.values ==> d.values[Usd] == Sum(StableAmounts(keys, balances)))
    decreases |keys|
  {
    if keys != [] && DollarBalances(keys, balances, ticker).Ok? {
      var init := keys[..|keys| - 1];
      var token := keys[|keys| - 1];
      StablesPooled(init, balances, ticker);
      HasStableLast(keys);
      var prev := DollarBalances(init, balances, ticker).value;
      var s := StableAmounts(init, balances);
      if token in Stables {
        assert StableAmounts(keys, balances) == s + [balances[token]];
        assert Sum(s + [balances[token]]) == Sum(s) + balances[token] by {
          assert (s + [balances[token]])[..|s|] == s;
        }
        DollarStepStable(prev, token, balances[token], ticker);
        if Usd !in prev.values {
          StableAmountsEmpty(init, balances);
          SumSingle(balances[token]);
        }
      } else {
        assert StableAmounts(keys, balances) == s;
        DollarStepOther(prev, token, balances[token], ticker);
      }
    }
  }

  /** Some key is a stable token. */
  predicate HasStable(keys: seq<string>)
  {
    exists j :: 0 <= j < |keys| && keys[j] in Stables
  }

  lemma HasStableLast(keys: seq<string>)
    requires keys != []
    ensures HasStable(keys) <==> HasStable(keys[..|keys| - 1]) || keys[|keys| - 1] in Stables
  {
    var init := keys[..|keys| - 1];
    if HasStable(init) {
      var j :| 0 <= j < |init| && init[j] in Stables;
      assert keys[j] == init[j];
    }
    if HasStable(keys) && keys[|keys| - 1] !in Stables {
      var j :| 0 <= j < |keys| && keys[j] in Stables;
      assert init[j] == keys[j];
    }
  }

  lemma {:induction false} StableAmountsEmpty(keys: seq<string>, balances: map<string, real>)
    requires forall k :: k in keys ==> k in balances
    requires !HasStable(keys)
    ensures StableAmounts(keys, balances) == []
  {
    if keys != [] {
      var init := keys[..|keys| - 1];
      HasStableLast(keys);
      StableAmountsEmpty(init, balances);
    }
  }

  /** `get_balance_per_ticker_in_dollars`: the filtered dollar dictionary, or the
      `TypeError` of the first token without a price. */
  method GetBalancePerTickerInDollars(balances: Dict, ticker: string -> Option<real>) returns (r: Result<Dict, string>)
    requires balances.Valid()
    ensures DollarBalances(balances.keys, balances.values, ticker).Err? ==> r == DollarBalances(balances.keys, balances.values, ticker)
    ensures DollarBalances(balances.keys, balances.values, ticker).Ok? ==>
      r == Ok(Filtered(DollarBalances(balances.keys, balances.values, ticker).value))
  {
    var dollars := AccumulateDollars(balances, ticker);
    if dollars.Err? {
      return dollars;
    }
    var d := new BalanceDict(dollars.value);
    var filtered := FilterBalanceDict(d);
    return Ok(filtered.Snapshot());
  }

  /** One pass of the accumulation loop of `get_balance_per_ticker_in_dollars`. */
  method AddToken(dollars: Dict, token: string, balance: real, ticker: string -> Option<real>) returns (r: Result<Dict, string>)
    ensures r == DollarStep(dollars, token, balance, ticker)
  {
    if token in Stables {
      if Usd in dollars.values {
        return Ok(dollars.Put(Usd, dollars.values[Usd] + balance));
      }
      return Ok(dollars.Put(Usd, balance));
    } else if token in InternalMap {
      var price := CoinPrice(InternalMap[token], ticker);
      if price.None? {
        return Err(TypeError);
      }
      TablesFacts();
      return Ok(dollars.Put(TickerToOthers[token], Mul(balance, price.value)));
    } else if token !in NoPrice {
      var price := CoinPrice(token, ticker);
      if price.None? {
        return Err(TypeError);
      }
      return Ok(dollars.Put(token, Mul(balance, price.value)));
    }
    return Ok(dollars);
  }

  /** The pass over the `i`-th key extends the result over the first `i` keys
      to the first `i + 1`. */
  method AddKey(keys: seq<string>, values: map<string, real>, i: nat, dollars: Dict, ticker: string -> Option<real>)
    returns (r: Result<Dict, string>)
    requires i < |keys| && forall k :: k in keys ==> k in values
    requires DollarBalances(keys[..i], values, ticker) == Ok(dollars)
    ensures r == DollarBalances(keys[..i + 1], values, ticker)
  {
    assert keys[..i + 1][..i] == keys[..i];
    r := AddToken(dollars, keys[i], values[keys[i]], ticker);
  }

  /** The accumulation loop of `get_balance_per_ticker_in_dollars`. */
  method AccumulateDollars(balances: Dict, ticker: string -> Option<real>) returns (r: Result<Dict, string>)
    requires forall k :: k in balances.keys ==> k in balances.values
    ensures r == DollarBalances(balances.keys, balances.values, ticker)
  {
    var keys := balances.keys;
    var dollars := Dict([], map[]);
    var i := 0;
    while i < |keys|
      invariant 0 <= i <= |keys|
      invariant DollarBalances(keys[..i], balances.values, ticker) == Ok(dollars)
    {
      var next := AddKey(keys, balances.values, i, dollars, ticker);
      if next.Err? {
        DollarErrorSticks(keys, i + 1, balances.values, ticker);
        return next;
      }
      dollars := next.value;
      i := i + 1;
    }
    assert keys[..i] == keys;
    return Ok(dollars);
  }

  // ---------------------------------------------------------------------------
  // balanceMetaData

  datatype BalanceMetaData = BalanceMetaData(balancePerCoin: Dict, dollars: Dict)

  /** `get_netliq`: the dollar values summed in key order, rounded to 2. */
  method GetNetliq(meta: BalanceMetaData) returns (r: real)
    requires meta.dollars.Valid()
    ensures r == Round(Sum(ValuesOf(meta.dollars.keys, meta.dollars.values)), 2)
    ensures var s := Sum(ValuesOf(meta.dollars.keys, meta.dollars.values));
      s - 0.005 <= r <= s + 0.005
  {
    var keys := meta.dollars.keys;
    ghost var vs := ValuesOf(keys, meta.dollars.values);
    var netliq := 0.0;
    var i := 0;
    while i < |keys|
      invariant 0 <= i <= |keys|
      invariant netliq == Sum(vs[..i])
    {
      var balance := meta.dollars.values[keys[i]];
      assert netliq + balance == Sum(vs[..i + 1]) by {
        assert balance == vs[i];
        SumPrefixStep(vs, i);
      }
      netliq := netliq + balance;
      i := i + 1;
    }
    assert netliq == Sum(vs) by {
      assert vs[..i] == vs;
    }
    r := Round(netliq, 2);
    assert netliq - 0.005 <= r <= netliq + 0.005 by {
      RoundClose(netliq, 2);
      assert Scale(2) == 100.0;
    }
  }

  /** The dollar value of a coin as `get_position` reads it, with the intended
      reading: a stable coin at face value (its balance was pooled under "USD"),
      a coin missing from the dollar dictionary (valued under 0.001) at 0. */
  function CoinDollars(coin: string, balance: real, dollars: Dict): real
  {
    if coin in Stables then balance
    else if coin in dollars.values then dollars.values[coin]
    else 0.0
  }

  /** The symbol a row reports: "USD" for every stable coin. */
  function Reported(coin: string): string
  {
    if coin in Stables then Usd else coin
  }

  predicate PositionKept(coin: string, balance: real, dollars: Dict)
  {
    Round(CoinDollars(coin, balance, dollars), 3) > MinPositionDollars
  }

  /** The coins that get a row. */
  function KeptCoins(keys: seq<string>, balances: map<string, real>, dollars: Dict): (r: seq<string>)
    requires forall k :: k in keys ==> k in balances
    ensures forall c :: c in r ==> c in keys
  {
    if keys == [] then []
    else
      var c := keys[|keys| - 1];
      KeptCoins(keys[..|keys| - 1], balances, dollars) + (if PositionKept(c, balances[c], dollars) then [c] else [])
  }

  /** `get_position` as intended: a row per coin worth more than 100 dollars. */
  function Positions(keys: seq<string>, balances: map<string, real>, dollars: Dict): (t: Table)
    requires forall k :: k in keys ==> k in balances
    ensures t.Valid()
  {
    if keys == [] then EmptyTable
    else
      var c := keys[|keys| - 1];
      var t := Positions(keys[..|keys| - 1], balances, dollars);
      var dollar := Round(CoinDollars(c, balances[c], dollars), 3);
      if dollar > MinPositionDollars then t.Append(Reported(c), 1, Round(balances[c], 3), dollar) else t
  }

  /** Row `i` is the `i`-th coin worth more than 100 dollars: its reported name
      ("USD" for a stable coin), multiplier 1, quantity and dollar value rounded
      to 3. */
  lemma {:induction false} PositionsSpec(keys: seq<string>, balances: map<string, real>, dollars: Dict)
    requires forall k :: k in keys ==> k in balances
    ensures var t := Positions(keys, balances, dollars);
      var kept := KeptCoins(keys, balances, dollars);
      |t.symbol| == |kept|
      && forall i :: 0 <= i < |kept| ==>
           t.symbol[i] == Reported(kept[i]) && t.multiplier[i] == 1
           && t.quantity[i] == Round(balances[kept[i]], 3)
           && t.dollar[i] == Round(CoinDollars(kept[i], balances[kept[i]], dollars), 3)
           && t.dollar[i] > MinPositionDollars
    decreases |keys|
  {
    if keys != [] {
      PositionsSpec(keys[..|keys| - 1], balances, dollars);
    }
  }

  /** A coin that is not stable and has no dollar value (it was popped as
      dust) gets no row in the intended table. */
  lemma {:induction false} UnvaluedCoinNoRow(keys: seq<string>, balances: map<string, real>, dollars: Dict, c: string)
    requires forall k :: k in keys ==> k in balances
    requires c !in Stables && c !in dollars.values
    ensures c !in KeptCoins(keys, balances, dollars)
    decreases |keys|
  {
    if keys != [] {
      UnvaluedCoinNoRow(keys[..|keys| - 1], balances, dollars, c);
      RoundWhole(0, 3);
    }
  }

  /** `get_position` as written: the dollar value of every coin is looked up
      under the coin's own name, which raises `KeyError` for a stable coin other
      than "USD" and for a coin whose dollar value was filtered out. */
  function PositionsAsWritten(keys: seq<string>, balances: map<string, real>, dollars: Dict): Result<Table, string>
    requires forall k :: k in keys ==> k in balances
  {
    if keys == [] then Ok(EmptyTable)
    else
      var c := keys[|keys| - 1];
      match PositionsAsWritten(keys[..|keys| - 1], balances, dollars)
      case Err(e) => Err(e)
      case Ok(t) =>
        if c !in dollars.values then Err(KeyError)
        else
          var dollar := Round(dollars.values[c], 3);
          if dollar > MinPositionDollars then Ok(t.Append(Reported(c), 1, Round(balances[c], 3), dollar)) else Ok(t)
  }

  /** A one-key dictionary with a priced, non-dust value and nothing to rename
      is left as it is by filtering. */
  lemma FilterSingleKeep(k: string, v: real)
    requires v >= Dust && k !in NoPrice && k !in TickerToOthers
    ensures Filtered(Dict([k], map[k := v])) == Dict([k], map[k := v])
  {
    var d := Dict([k], map[k := v]);
    assert EraseSet(d) == {} by {
      assert forall x :: x in d.values ==> x == k;
    }
    assert ModifySet(d) == {} by {
      assert forall x :: x in d.values ==> x == k;
    }
    WithoutNothing(d.keys);
    assert d.values - {} == d.values;
  }

  lemma UsdtUnmapped()
    ensures "USDT" !in TickerToOthers && "USDT" !in NoPrice && Usd !in TickerToOthers && Usd !in NoPrice
  {
  }

  lemma UsdtValuation(ticker: string -> Option<real>)
    ensures DollarBalances(["USDT"], map["USDT" := 500.0], ticker) == Ok(Dict([Usd], map[Usd := 500.0]))
  {
    assert ["USDT"][..0] == [];
    assert DollarBalances([], map["USDT" := 500.0], ticker) == Ok(Dict([], map[]));
    assert "USDT" in Stables;
    assert Dict([], map[]).Put(Usd, 500.0) == Dict([Usd], map[Usd := 500.0]) by {
      assert map[][Usd := 500.0] == map[Usd := 500.0];
    }
  }

  lemma UsdtPositions()
    ensures PositionsAsWritten(["USDT"], map["USDT" := 500.0], Dict([Usd], map[Usd := 500.0])) == Err(KeyError)
    ensures Positions(["USDT"], map["USDT" := 500.0], Dict([Usd], map[Usd := 500.0])).symbol == [Usd]
  {
    assert ["USDT"][..0] == [];
    RoundWhole(500, 3);
  }

  /** Holding 500 USDT: the balance survives filtering, its value is pooled
      under "USD", and `get_position` as written raises `KeyError`, while the
      intended table has the row USD / 500. */
  lemma StableHoldingRaisesKeyError(ticker: string -> Option<real>)
    ensures Filtered(Dict(["USDT"], map["USDT" := 500.0])) == Dict(["USDT"], map["USDT" := 500.0])
    ensures DollarBalances(["USDT"], map["USDT" := 500.0], ticker) == Ok(Dict([Usd], map[Usd := 500.0]))
    ensures Filtered(Dict([Usd], map[Usd := 500.0])) == Dict([Usd], map[Usd := 500.0])
    ensures PositionsAsWritten(["USDT"], map["USDT" := 500.0], Dict([Usd], map[Usd := 500.0])) == Err(KeyError)
    ensures Positions(["USDT"], map["USDT" := 500.0], Dict([Usd], map[Usd := 500.0])).symbol == [Usd]
  {
    UsdtUnmapped();
    FilterSingleKeep("USDT", 500.0);
    FilterSingleKeep(Usd, 500.0);
    UsdtValuation(ticker);
    UsdtPositions();
  }

  /** Holding 0.5 SHIB priced at 0.001: the balance survives the first filter,
      its dollar value of 0.0005 is under the dust bound and is popped by the
      second, and `get_position` as written raises `KeyError` for it, while
      the intended table gives it no row. */
  lemma DustHoldingRaisesKeyError(ticker: string -> Option<real>)
    requires ticker("SHIBUSD") == Some(0.001)
    ensures Filtered(Dict(["SHIB"], map["SHIB" := 0.5])) == Dict(["SHIB"], map["SHIB" := 0.5])
    ensures DollarBalances(["SHIB"], map["SHIB" := 0.5], ticker) == Ok(Dict(["SHIB"], map["SHIB" := 0.0005]))
    ensures Filtered(Dict(["SHIB"], map["SHIB" := 0.0005])) == Dict([], map[])
    ensures PositionsAsWritten(["SHIB"], map["SHIB" := 0.5], Dict([], map[])) == Err(KeyError)
    ensures Positions(["SHIB"], map["SHIB" := 0.5], Dict([], map[])) == EmptyTable
  {
    FilterSingleKeep("SHIB", 0.5);
    ShibValuation(ticker);
    FilterSingleDust("SHIB", 0.0005);
    ShibPositions();
  }

  lemma ShibValuation(ticker: string -> Option<real>)
    requires ticker("SHIBUSD") == Some(0.001)
    ensures DollarBalances(["SHIB"], map["SHIB" := 0.5], ticker) == Ok(Dict(["SHIB"], map["SHIB" := 0.0005]))
  {
    assert ["SHIB"][..0] == [];
    assert DollarBalances([], map["SHIB" := 0.5], ticker) == Ok(Dict([], map[]));
    assert "SHIB" + "USD" == "SHIBUSD";
    assert CoinPrice("SHIB", ticker) == Some(0.001);
    assert "SHIB" !in Stables && "SHIB" !in InternalMap && "SHIB" !in NoPrice;
    assert Dict([], map[]).Put("SHIB", Mul(0.5, 0.001)) == Dict(["SHIB"], map["SHIB" := 0.0005]) by {
      assert map[]["SHIB" := 0.0005] == map["SHIB" := 0.0005];
    }
  }

  lemma ShibPositions()
    ensures PositionsAsWritten(["SHIB"], map["SHIB" := 0.5], Dict([], map[])) == Err(KeyError)
    ensures Positions(["SHIB"], map["SHIB" := 0.5], Dict([], map[])) == EmptyTable
  {
    assert ["SHIB"][..0] == [];
    RoundWhole(0, 3);
  }

  /** A one-key dictionary whose value is under the dust bound, with nothing to
      rename, is emptied by filtering. */
  lemma FilterSingleDust(k: string, v: real)
    requires v < Dust && k !in TickerToOthers
    ensures Filtered(Dict([k], map[k := v])) == Dict([], map[])
  {
    var d := Dict([k], map[k := v]);
    assert EraseSet(d) == {k};
    assert ModifySet(d) == {} by {
      assert forall x :: x in d.values ==> x == k;
    }
    assert Without([k], {k}) == [] by {
      assert [k][..0] == [];
    }
    assert d.values - {k} == map[];
    assert SortedKeys({}) == [];
  }

  /** `get_position` as intended, as a loop. */
  method GetPosition(meta: BalanceMetaData) returns (t: Table)
    requires meta.balancePerCoin.Valid()
    ensures t == Positions(meta.balancePerCoin.keys, meta.balancePerCoin.values, meta.dollars)
  {
    var keys := meta.balancePerCoin.keys;
    t := EmptyTable;
    var i := 0;
    while i < |keys|
      invariant 0 <= i <= |keys|
      invariant t == Positions(keys[..i], meta.balancePerCoin.values, meta.dollars)
    {
      assert keys[..i + 1][..i] == keys[..i];
      var coin := keys[i];
      var balance := meta.balancePerCoin.values[coin];
      var quantity := Round(balance, 3);
      var dollar := Round(CoinDollars(coin, balance, meta.dollars), 3);
      if dollar > MinPositionDollars {
        t := t.Append(Reported(coin), 1, quantity, dollar);
      }
      i := i + 1;
    }
    assert keys[..i] == keys;
  }

  // ---------------------------------------------------------------------------
  // DataFetcher

  /** `__check_and_update_balances`: filter the raw balances, value them. */
  function Refresh(raw: Dict, ticker: string -> Option<real>): Result<BalanceMetaData, string>
    requires raw.Valid()
  {
    var perCoin := Filtered(raw);
    FilterClean(raw);
    match DollarBalances(perCoin.keys, perCoin.values, ticker)
    case Err(e) => Err(e)
    case Ok(d) => Ok(BalanceMetaData(perCoin, Filtered(d)))
  }

  class DataFetcher {
    var balanceMetaData: Option<BalanceMetaData>

    /** The cached dictionaries are well formed. */
    predicate Valid()
      reads this
    {
      balanceMetaData.Some? ==> balanceMetaData.value.balancePerCoin.Valid() && balanceMetaData.value.dollars.Valid()
    }

    constructor ()
      ensures Valid() && balanceMetaData == None
    {
      balanceMetaData := None;
    }

    /** `fetch_balance`: refresh the cached metadata from `raw` and `ticker`,
        then its net liquidation value. Only the spot account is supported. */
    method FetchBalance(accountType: string, raw: Dict, ticker: string -> Option<real>) returns (r: Result<real, string>)
      requires raw.Valid() && Valid()
      modifies this
      ensures Valid()
      ensures accountType != SpotAccount ==> r == Err(NotImplementedError) && balanceMetaData == old(balanceMetaData)
      ensures accountType == SpotAccount && Refresh(raw, ticker).Err? ==>
        r == Err(Refresh(raw, ticker).error) && balanceMetaData == old(balanceMetaData)
      ensures accountType == SpotAccount && Refresh(raw, ticker).Ok? ==>
        var m := Refresh(raw, ticker).value;
        balanceMetaData == Some(m) && m.balancePerCoin.Valid() && m.dollars.Valid()
        && r == Ok(Round(Sum(ValuesOf(m.dollars.keys, m.dollars.values)), 2))
    {
      if accountType != SpotAccount {
        return Err(NotImplementedError);
      }
      var b := new BalanceDict(raw);
      var perCoinDict := FilterBalanceDict(b);
      var perCoin := perCoinDict.Snapshot();
      FilterClean(raw);
      var dollars := GetBalancePerTickerInDollars(perCoin, ticker);
      if dollars.Err? {
        return Err(dollars.error);
      }
      FilterClean(DollarBalances(perCoin.keys, perCoin.values, ticker).value);
      var meta := BalanceMetaData(perCoin, dollars.value);
      balanceMetaData := Some(meta);
      var netliq := GetNetliq(meta);
      return Ok(netliq);
    }

    /** `fetch_positions`: the table of the cached metadata, without refreshing. */
    method FetchPositions() returns (r: Result<Table, string>)
      requires Valid()
      ensures balanceMetaData.None? ==> r == Err(AttributeError)
      ensures balanceMetaData.Some? ==>
        var m := balanceMetaData.value;
        r == Ok(Positions(m.balancePerCoin.keys, m.balancePerCoin.values, m.dollars))
    {
      if balanceMetaData.None? {
        return Err(AttributeError);
      }
      var t := GetPosition(balanceMetaData.value);
      return Ok(t);
    }
  }
}
