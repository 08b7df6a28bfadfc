/** The Ethereum adapter: the multicall layout of `balanceOf` calls (coin-major,
    holder-minor), the per-coin token balances read back from its answers, the
    native balance, the balance and price caches, and the dollar valuation of
    balance and positions. The chain's answers (the native balance of each
    holder, the multicall's return words), the clock and the price service are
    parameters; the coin list, the holders and the decimals are the
    configuration the fetcher reads once. */
module EthereumFetcher {
  import opened Common

  const EthCoin: string := "ETH"
  const UsdMarker: string := "USD"
  const UsdQuote: string := "usd"

  /** A coin counted at face value: its upper-cased name contains "USD". */
  predicate IsUsd(coin: string)
  {
    Contains(Upper(coin), UsdMarker)
  }

  // ---------------------------------------------------------------------------
  // Multicall layout

  /** One `balanceOf(holder)` call on a coin's contract. */
  datatype Call = Call(coin: string, holder: string)

  function CallsOf(coin: string, holders: seq<string>): (r: seq<Call>)
    ensures |r| == |holders| && forall a :: 0 <= a < |holders| ==> r[a] == Call(coin, holders[a])
  {
    if holders == [] then [] else CallsOf(coin, holders[..|holders| - 1]) + [Call(coin, holders[|holders| - 1])]
  }

  /** The calls in the order the nested loops build them. */
  function Calls(coins: seq<string>, holders: seq<string>): seq<Call>
  {
    if coins == [] then [] else Calls(coins[..|coins| - 1], holders) + CallsOf(coins[|coins| - 1], holders)
  }

  lemma MulStep(k: nat, n: nat)
    ensures (k + 1) * n == k * n + n
  {
  }

  lemma {:induction false} CallsLength(coins: seq<string>, holders: seq<string>)
    ensures |Calls(coins, holders)| == |coins| * |holders|
    decreases |coins|
  {
    if coins != [] {
      CallsLength(coins[..|coins| - 1], holders);
      MulStep(|coins| - 1, |holders|);
    }
  }

  /** Call number `c * |holders| + a` asks for holder `a`'s balance of coin `c`. */
  lemma {:induction false} CallAt(coins: seq<string>, holders: seq<string>, c: nat, a: nat)
    requires c < |coins| && a < |holders|
    ensures c * |holders| + a < |Calls(coins, holders)|
    ensures Calls(coins, holders)[c * |holders| + a] == Call(coins[c], holders[a])
    decreases |coins|
  {
    var last := |coins| - 1;
    var init := coins[..last];
    var n := |holders|;
    var idx := c * n + a;
    CallsLength(init, holders);
    CallsLength(coins, holders);
    MulStep(last, n);
    var front := Calls(init, holders);
    assert Calls(coins, holders) == front + CallsOf(coins[last], holders);
    if c < last {
      CallAt(init, holders, c, a);
      MulLe(c + 1, last, n);
      MulStep(c, n);
      assert init[c] == coins[c];
      assert idx < |front|;
    } else {
      assert idx == |front| + a;
    }
  }

  lemma MulLe(a: nat, b: nat, n: nat)
    requires a <= b
    ensures a * n <= b * n
  {
  }

  /** `__query_multi_call_sync`: the calls passed to `aggregate`. */
  method QueryMultiCall(coins: seq<string>, holders: seq<string>) returns (calls: seq<Call>)
    ensures calls == Calls(coins, holders)
  {
    calls := [];
    var c := 0;
    while c < |coins|
      invariant 0 <= c <= |coins|
      invariant calls == Calls(coins[..c], holders)
    {
      assert coins[..c + 1][..c] == coins[..c];
      var before := calls;
      var a := 0;
      while a < |holders|
        invariant 0 <= a <= |holders|
        invariant calls == before + CallsOf(coins[c], holders[..a])
      {
        assert holders[..a + 1][..a] == holders[..a];
        calls := calls + [Call(coins[c], holders[a])];
        a := a + 1;
      }
      assert holders[..a] == holders;
      c := c + 1;
    }
    assert coins[..c] == coins;
  }

  // ---------------------------------------------------------------------------
  // Token balances read back from the multicall

  /** Whether some holder has a positive balance. */
  predicate HasPositive(ws: seq<int>)
  {
    ws != [] && (HasPositive(ws[..|ws| - 1]) || ws[|ws| - 1] > 0)
  }

  /** The positive balances, each divided by `scale`, summed in order. */
  function ScaledPositive(ws: seq<int>, scale: real): (r: real)
    requires scale > 0.0
    ensures !HasPositive(ws) ==> r == 0.0
    ensures r >= 0.0 && (HasPositive(ws) ==> r > 0.0)
  {
    if ws == [] then 0.0
    else ScaledPositive(ws[..|ws| - 1], scale) + (if ws[|ws| - 1] > 0 then ws[|ws| - 1] as real / scale else 0.0)
  }

  /** The sum of the positive entries. */
  function PositiveWei(ws: seq<int>): (r: nat)
    ensures r > 0 <==> HasPositive(ws)
  {
    if ws == [] then 0
    else PositiveWei(ws[..|ws| - 1]) + (if ws[|ws| - 1] > 0 then ws[|ws| - 1] else 0)
  }

  /** A coin's balance is its total positive wei over `10^decimals`. */
  lemma {:induction false} ScaledPositiveTotal(ws: seq<int>, scale: real)
    requires scale > 0.0
    ensures ScaledPositive(ws, scale) == PositiveWei(ws) as real / scale
  {
    if ws != [] {
      ScaledPositiveTotal(ws[..|ws| - 1], scale);
      var p := PositiveWei(ws[..|ws| - 1]) as real;
      var w := if ws[|ws| - 1] > 0 then ws[|ws| - 1] as real else 0.0;
      DivAdd(p, w, scale);
    }
  }

  lemma DivAdd(a: real, b: real, s: real)
    requires s > 0.0
    ensures a / s + b / s == (a + b) / s
  {
  }

  function DecimalScale(coin: string, decimals: map<string, nat>): real
    requires Upper(coin) in decimals
  {
    Pow10(decimals[Upper(coin)]) as real
  }

  /** Where the answers of coin number `c` start when every coin has `n`:
      `c * n`, counted the way the running counter reaches it. */
  function Offset(c: nat, n: nat): nat
  {
    if c == 0 then 0 else Offset(c - 1, n) + n
  }

  lemma {:induction false} OffsetIsProduct(c: nat, n: nat)
    ensures Offset(c, n) == c * n
  {
    if c > 0 {
      OffsetIsProduct(c - 1, n);
      MulStep(c - 1, n);
    }
  }

  /** The answers of coin number `c`: entries `c * n` to `c * n + n`. */
  function Slice(results: seq<int>, c: nat, n: nat): seq<int>
  {
    if Offset(c, n) + n <= |results| then results[Offset(c, n)..Offset(c, n) + n] else []
  }

  /** Reading the `n` answers of one coin, starting at `start`, into `d`. */
  function CoinStep(d: Dict, coin: string, start: nat, n: nat, results: seq<int>, decimals: map<string, nat>): Option<Dict>
  {
    if start + n > |results| then None
    else
      var ws := results[start..start + n];
      if !HasPositive(ws) then Some(d)
      else if Upper(coin) !in decimals then None
      else Some(d.Put(coin, ScaledPositive(ws, DecimalScale(coin, decimals))))
  }

  /** `__get_token_balances_by_coin_sync`, or `None` when it raises: an answer
      past the end of the multicall's list (`IndexError`), or a coin with a
      positive balance and no decimals entry (`KeyError`). */
  function TokenBalances(coins: seq<string>, n: nat, results: seq<int>, decimals: map<string, nat>): Option<Dict>
  {
    if coins == [] then Some(Dict([], map[]))
    else
      var c := |coins| - 1;
      match TokenBalances(coins[..c], n, results, decimals)
      case None => None
      case Some(d) => CoinStep(d, coins[c], Offset(c, n), n, results, decimals)
  }

  /** The coins with a positive balance somewhere, in configuration order. */
  function PositiveCoins(coins: seq<string>, n: nat, results: seq<int>): seq<string>
  {
    if coins == [] then []
    else
      var c := |coins| - 1;
      PositiveCoins(coins[..c], n, results) + (if HasPositive(Slice(results, c, n)) then [coins[c]] else [])
  }

  predicate DecimalsKnown(coins: seq<string>, n: nat, results: seq<int>, decimals: map<string, nat>)
  {
    forall c :: 0 <= c < |coins| && HasPositive(Slice(results, c, n)) ==> Upper(coins[c]) in decimals
  }

  lemma DistinctPrefix(s: seq<string>, k: nat)
    requires Distinct(s) && k <= |s|
    ensures Distinct(s[..k])
  {
    forall i, j | 0 <= i < j < k
      ensures s[..k][i] != s[..k][j]
    {
      assert s[..k][i] == s[i] && s[..k][j] == s[j];
    }
  }

  /** The read-back fails exactly when the multicall answered fewer than
      `|coins| * n` words or a coin with a positive balance has no decimals. */
  lemma TokenBalancesDefined(coins: seq<string>, n: nat, results: seq<int>, decimals: map<string, nat>)
    ensures TokenBalances(coins, n, results, decimals).Some? <==>
      |coins| * n <= |results| && DecimalsKnown(coins, n, results, decimals)
  {
    TokenBalancesReadable(coins, n, results, decimals);
    OffsetIsProduct(|coins|, n);
  }

  lemma {:induction false} TokenBalancesReadable(coins: seq<string>, n: nat, results: seq<int>, decimals: map<string, nat>)
    ensures TokenBalances(coins, n, results, decimals).Some? <==>
      Offset(|coins|, n) <= |results| && DecimalsKnown(coins, n, results, decimals)
    decreases |coins|
  {
    if coins != [] {
      var c := |coins| - 1;
      var init := coins[..c];
      TokenBalancesReadable(init, n, results, decimals);
      DecimalsKnownStep(coins, n, results, decimals);
      var start := Offset(c, n);
      assert Offset(|coins|, n) == start + n;
      TokenBalancesUnfold(coins, n, results, decimals);
      if TokenBalances(init, n, results, decimals).Some? {
        CoinStepDefined(TokenBalances(init, n, results, decimals).value, coins[c], start, n, results, decimals);
      }
      if start + n <= |results| {
        assert Slice(results, c, n) == results[start..start + n];
      }
    }
  }

  lemma DecimalsKnownStep(coins: seq<string>, n: nat, results: seq<int>, decimals: map<string, nat>)
    requires coins != []
    ensures var c := |coins| - 1;
      DecimalsKnown(coins, n, results, decimals) <==>
      DecimalsKnown(coins[..c], n, results, decimals) && (HasPositive(Slice(results, c, n)) ==> Upper(coins[c]) in decimals)
  {
    var c := |coins| - 1;
    assert forall i :: 0 <= i < c ==> coins[..c][i] == coins[i];
  }

  lemma TokenBalancesUnfold(coins: seq<string>, n: nat, results: seq<int>, decimals: map<string, nat>)
    requires coins != []
    ensures var c := |coins| - 1;
      TokenBalances(coins, n, results, decimals).Some? <==>
      TokenBalances(coins[..c], n, results, decimals).Some?
      && CoinStep(TokenBalances(coins[..c], n, results, decimals).value, coins[c], Offset(c, n), n, results, decimals).Some?
  {
  }

  lemma CoinStepDefined(d: Dict, coin: string, start: nat, n: nat, results: seq<int>, decimals: map<string, nat>)
    ensures CoinStep(d, coin, start, n, results, decimals).Some? <==>
      start + n <= |results| && (HasPositive(results[start..start + n]) ==> Upper(coin) in decimals)
  {
  }

  /** Only configured coins are ever stored. */
  lemma {:induction false} TokenBalancesDomain(coins: seq<string>, n: nat, results: seq<int>, decimals: map<string, nat>)
    requires TokenBalances(coins, n, results, decimals).Some?
    ensures forall k :: k in TokenBalances(coins, n, results, decimals).value.values ==> k in coins
    decreases |coins|
  {
    if coins != [] {
      var c := |coins| - 1;
      TokenBalancesStep(coins, n, results, decimals);
      TokenBalancesDomain(coins[..c], n, results, decimals);
      assert forall k :: k in coins[..c] ==> k in coins;
    }
  }

  /** The last coin is not yet stored when its answers are read. */
  lemma FreshCoin(coins: seq<string>, n: nat, results: seq<int>, decimals: map<string, nat>)
    requires coins != [] && Distinct(coins) && TokenBalances(coins[..|coins| - 1], n, results, decimals).Some?
    ensures coins[|coins| - 1] !in TokenBalances(coins[..|coins| - 1], n, results, decimals).value.values
  {
    var c := |coins| - 1;
    TokenBalancesDomain(coins[..c], n, results, decimals);
    assert coins[c] !in coins[..c] by {
      forall i | 0 <= i < c
        ensures coins[..c][i] != coins[c]
      {
        assert coins[..c][i] == coins[i];
      }
    }
  }

  /** When the read-back succeeds the map is well formed and holds exactly the
      coins with a positive balance, in configuration order: a coin with no
      positive balance is absent. */
  lemma {:induction false} TokenBalancesKeys(coins: seq<string>, n: nat, results: seq<int>, decimals: map<string, nat>)
    requires Distinct(coins) && TokenBalances(coins, n, results, decimals).Some?
    ensures var d := TokenBalances(coins, n, results, decimals).value;
      d.Valid() && d.keys == PositiveCoins(coins, n, results)
    decreases |coins|
  {
    if coins != [] {
      var c := |coins| - 1;
      TokenBalancesStep(coins, n, results, decimals);
      DistinctPrefix(coins, c);
      TokenBalancesKeys(coins[..c], n, results, decimals);
      FreshCoin(coins, n, results, decimals);
      var start := Offset(c, n);
      CoinStepEffect(TokenBalances(coins[..c], n, results, decimals).value, coins[c], start, n, results, decimals);
      assert Slice(results, c, n) == results[start..start + n];
    }
  }

  /** Each stored coin holds its positive wei summed over holders and scaled by
      its decimals. */
  lemma TokenBalancesValues(coins: seq<string>, n: nat, results: seq<int>, decimals: map<string, nat>)
    requires Distinct(coins) && TokenBalances(coins, n, results, decimals).Some?
    ensures var d := TokenBalances(coins, n, results, decimals).value;
      forall c :: 0 <= c < |coins| && HasPositive(Slice(results, c, n)) ==>
        Upper(coins[c]) in decimals && coins[c] in d.values
        && d.values[coins[c]] == ScaledPositive(Slice(results, c, n), DecimalScale(coins[c], decimals))
  {
    forall c | 0 <= c < |coins| && HasPositive(Slice(results, c, n))
      ensures var d := TokenBalances(coins, n, results, decimals).value;
        Upper(coins[c]) in decimals && coins[c] in d.values
        && d.values[coins[c]] == ScaledPositive(Slice(results, c, n), DecimalScale(coins[c], decimals))
    {
      TokenBalanceOf(coins, n, results, decimals, c);
    }
  }

  lemma {:induction false} TokenBalanceOf(coins: seq<string>, n: nat, results: seq<int>, decimals: map<string, nat>, i: nat)
    requires Distinct(coins) && TokenBalances(coins, n, results, decimals).Some?
    requires i < |coins| && HasPositive(Slice(results, i, n))
    ensures var d := TokenBalances(coins, n, results, decimals).value;
      Upper(coins[i]) in decimals && coins[i] in d.values
      && d.values[coins[i]] == ScaledPositive(Slice(results, i, n), DecimalScale(coins[i], decimals))
    decreases |coins|
  {
    var c := |coins| - 1;
    var init := coins[..c];
    TokenBalancesStep(coins, n, results, decimals);
    var d := TokenBalances(init, n, results, decimals).value;
    var start := Offset(c, n);
    if i < c {
      DistinctPrefix(coins, c);
      TokenBalanceOf(init, n, results, decimals, i);
      assert init[i] == coins[i];
      assert coins[i] != coins[c];
      CoinStepKeeps(d, coins[c], start, n, results, decimals, coins[i]);
    } else {
      CoinStepEffect(d, coins[c], start, n, results, decimals);
      assert Slice(results, c, n) == results[start..start + n];
    }
  }

  lemma CoinStepEffect(d: Dict, coin: string, start: nat, n: nat, results: seq<int>, decimals: map<string, nat>)
    requires CoinStep(d, coin, start, n, results, decimals).Some?
    ensures start + n <= |results|
    ensures var ws := results[start..start + n];
      var r := CoinStep(d, coin, start, n, results, decimals).value;
      (HasPositive(ws) ==> Upper(coin) in decimals && r == d.Put(coin, ScaledPositive(ws, DecimalScale(coin, decimals))))
      && (!HasPositive(ws) ==> r == d)
  {
  }

  lemma CoinStepKeeps(d: Dict, coin: string, start: nat, n: nat, results: seq<int>, decimals: map<string, nat>, k: string)
    requires CoinStep(d, coin, start, n, results, decimals).Some? && k != coin && k in d.values
    ensures k in CoinStep(d, coin, start, n, results, decimals).value.values
    ensures CoinStep(d, coin, start, n, results, decimals).value.values[k] == d.values[k]
  {
  }

  lemma TokenBalancesStep(coins: seq<string>, n: nat, results: seq<int>, decimals: map<string, nat>)
    requires coins != [] && TokenBalances(coins, n, results, decimals).Some?
    ensures var c := |coins| - 1;
      TokenBalances(coins[..c], n, results, decimals).Some?
      && TokenBalances(coins, n, results, decimals) == CoinStep(TokenBalances(coins[..c], n, results, decimals).value, coins[c], Offset(c, n), n, results, decimals)
  {
  }

  lemma {:induction false} PositiveCoinsIn(coins: seq<string>, n: nat, results: seq<int>)
    ensures forall k :: k in PositiveCoins(coins, n, results) ==> k in coins
    decreases |coins|
  {
    if coins != [] {
      PositiveCoinsIn(coins[..|coins| - 1], n, results);
    }
  }

  /** Every token balance in the map is positive. */
  lemma TokenBalancesPositive(coins: seq<string>, n: nat, results: seq<int>, decimals: map<string, nat>)
    requires Distinct(coins) && TokenBalances(coins, n, results, decimals).Some?
    ensures forall k :: k in TokenBalances(coins, n, results, decimals).value.values ==>
      TokenBalances(coins, n, results, decimals).value.values[k] > 0.0
  {
    TokenBalancesKeys(coins, n, results, decimals);
    TokenBalancesValues(coins, n, results, decimals);
    var d := TokenBalances(coins, n, results, decimals).value;
    forall k | k in d.values
      ensures d.values[k] > 0.0
    {
      var c := PositiveCoinIndex(coins, n, results, k);
    }
  }

  lemma {:induction false} PositiveCoinIndex(coins: seq<string>, n: nat, results: seq<int>, k: string) returns (c: nat)
    requires k in PositiveCoins(coins, n, results)
    ensures c < |coins| && coins[c] == k && HasPositive(Slice(results, c, n))
    decreases |coins|
  {
    var last := |coins| - 1;
    if k in PositiveCoins(coins[..last], n, results) {
      c := PositiveCoinIndex(coins[..last], n, results, k);
    } else {
      c := last;
    }
  }

  lemma PutTwice(d: Dict, k: string, a: real, b: real)
    ensures d.Put(k, a).Put(k, b) == d.Put(k, b)
  {
  }

  /** The inner loop of `__get_token_balances_by_coin_sync` for one coin: the
      answers from `start` on, one per holder. */
  method ReadCoin(d: Dict, coin: string, start: nat, n: nat, results: seq<int>, decimals: map<string, nat>)
    returns (r: Option<Dict>)
    requires coin !in d.values && start <= |results|
    ensures r == CoinStep(d, coin, start, n, results, decimals)
  {
    var acc := d;
    var counter := start;
    while counter < start + n
      invariant start <= counter <= start + n && counter <= |results|
      invariant !HasPositive(results[start..counter]) ==> acc == d
      invariant HasPositive(results[start..counter]) ==>
        Upper(coin) in decimals && acc == d.Put(coin, ScaledPositive(results[start..counter], DecimalScale(coin, decimals)))
    {
      if counter >= |results| {
        return None;
      }
      var ws := results[start..counter + 1];
      assert ws[..|ws| - 1] == results[start..counter];
      var wei := results[counter];
      if wei > 0 {
        if Upper(coin) !in decimals {
          assert start + n > |results| || HasPositive(results[start..start + n]) by {
            if start + n <= |results| {
              PositivePrefix(results[start..start + n], counter + 1 - start);
              assert results[start..start + n][..counter + 1 - start] == ws;
            }
          }
          return None;
        }
        var balance := wei as real / DecimalScale(coin, decimals);
        var prev := if coin in acc.values then acc.values[coin] else 0.0;
        PutTwice(d, coin, prev, prev + balance);
        acc := acc.Put(coin, prev + balance);
      }
      counter := counter + 1;
    }
    return Some(acc);
  }

  /** `__get_token_balances_by_coin_sync`: the running `counter` walks the
      answers in the order the calls were built. */
  method TokenBalancesByCoin(coins: seq<string>, n: nat, results: seq<int>, decimals: map<string, nat>)
    returns (r: Option<Dict>)
    requires Distinct(coins)
    ensures r == TokenBalances(coins, n, results, decimals)
  {
    var d := Dict([], map[]);
    var c := 0;
    while c < |coins|
      invariant 0 <= c <= |coins|
      invariant TokenBalances(coins[..c], n, results, decimals) == Some(d)
    {
      assert coins[..c + 1][..c] == coins[..c];
      DistinctPrefix(coins, c + 1);
      FreshCoin(coins[..c + 1], n, results, decimals);
      TokenBalancesDefined(coins[..c], n, results, decimals);
      OffsetIsProduct(c, n);
      var next := ReadCoin(d, coins[c], Offset(c, n), n, results, decimals);
      assert TokenBalances(coins[..c + 1], n, results, decimals) == next;
      if next.None? {
        BalancesFailSticks(coins, n, results, decimals, c + 1);
        return None;
      }
      d := next.value;
      c := c + 1;
    }
    assert coins[..c] == coins;
    return Some(d);
  }

  lemma {:induction false} PositivePrefix(ws: seq<int>, k: nat)
    requires k <= |ws| && HasPositive(ws[..k])
    ensures HasPositive(ws)
    decreases |ws| - k
  {
    if k < |ws| {
      assert ws[..k + 1][..k] == ws[..k];
      PositivePrefix(ws, k + 1);
    } else {
      assert ws[..k] == ws;
    }
  }

  lemma {:induction false} BalancesFailSticks(coins: seq<string>, n: nat, results: seq<int>, decimals: map<string, nat>, k: nat)
    requires k <= |coins| && TokenBalances(coins[..k], n, results, decimals).None?
    ensures TokenBalances(coins, n, results, decimals).None?
    decreases |coins| - k
  {
    if k < |coins| {
      assert coins[..k + 1][..k] == coins[..k];
      BalancesFailSticks(coins, n, results, decimals, k + 1);
    } else {
      assert coins[..k] == coins;
    }
  }

  // ---------------------------------------------------------------------------
  // Native balance and the whole read-back

  function WeiSum(ws: seq<nat>): nat
  {
    if ws == [] then 0 else WeiSum(ws[..|ws| - 1]) + ws[|ws| - 1]
  }

  /** `__get_eth_balances_sync`: every holder's native balance summed, over
      `10^decimals` of ETH; `None` when ETH has no decimals entry. */
  method EthBalance(ethWei: seq<nat>, decimals: map<string, nat>) returns (r: Option<real>)
    ensures r.None? <==> EthCoin !in decimals
    ensures r.Some? ==> r.value == WeiSum(ethWei) as real / Pow10(decimals[EthCoin]) as real
  {
    var balance := 0;
    var i := 0;
    while i < |ethWei|
      invariant 0 <= i <= |ethWei|
      invariant balance == WeiSum(ethWei[..i])
    {
      assert ethWei[..i + 1][..i] == ethWei[..i];
      balance := balance + ethWei[i];
      i := i + 1;
    }
    assert ethWei[..i] == ethWei;
    if EthCoin !in decimals {
      return None;
    }
    return Some(balance as real / Pow10(decimals[EthCoin]) as real);
  }

  /** `__get_total_balance_by_coin_sync`: the token balances with the native
      balance stored under "ETH", or the empty dictionary when anything
      raised. */
  function SyncBalances(coins: seq<string>, n: nat, ethWei: seq<nat>, results: seq<int>, decimals: map<string, nat>): Dict
  {
    if EthCoin !in decimals then Dict([], map[])
    else
      match TokenBalances(coins, n, results, decimals)
      case None => Dict([], map[])
      case Some(d) => d.Put(EthCoin, WeiSum(ethWei) as real / Pow10(decimals[EthCoin]) as real)
  }

  /** Any failure gives the empty dictionary; otherwise "ETH" is present and the
      result is a well-formed dictionary. */
  lemma SyncBalancesSpec(coins: seq<string>, n: nat, ethWei: seq<nat>, results: seq<int>, decimals: map<string, nat>)
    requires Distinct(coins)
    ensures var d := SyncBalances(coins, n, ethWei, results, decimals);
      d.Valid()
      && (d.keys == [] <==> EthCoin !in decimals || TokenBalances(coins, n, results, decimals).None?)
      && (d.keys != [] ==> EthCoin in d.values && d.values[EthCoin] == WeiSum(ethWei) as real / Pow10(decimals[EthCoin]) as real)
  {
    if TokenBalances(coins, n, results, decimals).Some? {
      TokenBalancesKeys(coins, n, results, decimals);
    }
  }

  method TotalBalanceByCoinSync(coins: seq<string>, n: nat, ethWei: seq<nat>, results: seq<int>, decimals: map<string, nat>)
    returns (d: Dict)
    requires Distinct(coins)
    ensures d == SyncBalances(coins, n, ethWei, results, decimals)
  {
    var eth := EthBalance(ethWei, decimals);
    if eth.None? {
      return Dict([], map[]);
    }
    var tokens := TokenBalancesByCoin(coins, n, results, decimals);
    if tokens.None? {
      return Dict([], map[]);
    }
    d := tokens.value.Put(EthCoin, eth.value);
  }

  // ---------------------------------------------------------------------------
  // Valuation

  /** A cache entry's freshness: its age is strictly below the allowance. */
  predicate Fresh(timestamp: real, now: real, allowedSeconds: int)
  {
    now - timestamp < allowedSeconds as real
  }

  datatype BalanceMeta = BalanceMeta(timestamp: real, balancePerCoin: Dict)
  datatype PriceMeta = PriceMeta(timestamp: real, pricesPerCoin: map<string, map<string, real>>)

  /** The coins whose price is requested: not USD-like and with a positive
      balance, in key order. */
  function CoinsToFetch(keys: seq<string>, values: map<string, real>): (r: seq<string>)
    requires forall k :: k in keys ==> k in values
  {
    if keys == [] then []
    else
      var k := keys[|keys| - 1];
      CoinsToFetch(keys[..|keys| - 1], values) + (if !IsUsd(k) && values[k] > 0.0 then [k] else [])
  }

  lemma {:induction false} CoinsToFetchSpec(keys: seq<string>, values: map<string, real>)
    requires forall k :: k in keys ==> k in values
    ensures forall k :: k in CoinsToFetch(keys, values) <==> k in keys && !IsUsd(k) && values[k] > 0.0
    decreases |keys|
  {
    if keys != [] {
      CoinsToFetchSpec(keys[..|keys| - 1], values);
      assert keys == keys[..|keys| - 1] + [keys[|keys| - 1]];
    }
  }

  /** A coin's dollar value: its balance when USD-like, its balance times its
      "usd" price (0 when that quote is missing) when priced, 0 otherwise. */
  function CoinDollar(coin: string, balance: real, prices: Option<PriceMeta>): real
  {
    if IsUsd(coin) then balance
    else if prices.Some? && coin in prices.value.pricesPerCoin then
      Mul(balance, if UsdQuote in prices.value.pricesPerCoin[coin] then prices.value.pricesPerCoin[coin][UsdQuote] else 0.0)
    else 0.0
  }

  function Dollars(keys: seq<string>, values: map<string, real>, prices: Option<PriceMeta>): (r: seq<real>)
    requires forall k :: k in keys ==> k in values
    ensures |r| == |keys| && forall i :: 0 <= i < |keys| ==> r[i] == CoinDollar(keys[i], values[keys[i]], prices)
  {
    if keys == [] then [] else Dollars(keys[..|keys| - 1], values, prices) + [CoinDollar(keys[|keys| - 1], values[keys[|keys| - 1]], prices)]
  }

  /** With every coin USD-like the value is the plain sum of the balances,
      whatever the price cache holds. */
  lemma {:induction false} AllUsdAtFaceValue(keys: seq<string>, values: map<string, real>, prices: Option<PriceMeta>)
    requires forall k :: k in keys ==> k in values && IsUsd(k)
    ensures Sum(Dollars(keys, values, prices)) == Sum(ValuesOf(keys, values))
    decreases |keys|
  {
    if keys != [] {
      AllUsdAtFaceValue(keys[..|keys| - 1], values, prices);
    }
  }

  /** A coin absent from the price cache adds nothing. */
  lemma {:induction false} UnpricedAddsNothing(keys: seq<string>, values: map<string, real>, prices: Option<PriceMeta>, k: string)
    requires forall j :: j in keys ==> j in values
    requires k in values && !IsUsd(k) && (prices.None? || k !in prices.value.pricesPerCoin)
    ensures Sum(Dollars(keys + [k], values, prices)) == Sum(Dollars(keys, values, prices))
  {
    assert (keys + [k])[..|keys|] == keys;
  }

  /** The position table: one row per coin, unpriced coins included. */
  function PositionsTable(keys: seq<string>, values: map<string, real>, prices: Option<PriceMeta>): (t: Table)
    requires forall k :: k in keys ==> k in values
    ensures t.Valid() && |t.symbol| == |keys|
  {
    if keys == [] then EmptyTable
    else
      var k := keys[|keys| - 1];
      PositionsTable(keys[..|keys| - 1], values, prices).Append(k, 1, Round(values[k], 3), Round(CoinDollar(k, values[k], prices), 3))
  }

  /** Row `i` is coin `i` with multiplier 1, its balance and its dollar value,
      both rounded to 3. */
  lemma PositionsTableSpec(keys: seq<string>, values: map<string, real>, prices: Option<PriceMeta>)
    requires forall k :: k in keys ==> k in values
    ensures var t := PositionsTable(keys, values, prices);
      t.symbol == keys
      && forall i :: 0 <= i < |keys| ==>
           t.multiplier[i] == 1 && t.quantity[i] == Round(values[keys[i]], 3)
           && t.dollar[i] == Round(CoinDollar(keys[i], values[keys[i]], prices), 3)
  {
    var t := PositionsTable(keys, values, prices);
    forall i | 0 <= i < |keys|
      ensures t.symbol[i] == keys[i] && t.multiplier[i] == 1 && t.quantity[i] == Round(values[keys[i]], 3)
      ensures t.dollar[i] == Round(CoinDollar(keys[i], values[keys[i]], prices), 3)
    {
      PositionsTableAt(keys, values, prices, i);
    }
  }

  /** Row `i` of the position table. */
  lemma {:induction false} PositionsTableAt(keys: seq<string>, values: map<string, real>, prices: Option<PriceMeta>, i: nat)
    requires forall k :: k in keys ==> k in values
    requires i < |keys|
    ensures var t := PositionsTable(keys, values, prices);
      t.symbol[i] == keys[i] && t.multiplier[i] == 1 && t.quantity[i] == Round(values[keys[i]], 3)
      && t.dollar[i] == Round(CoinDollar(keys[i], values[keys[i]], prices), 3)
    decreases |keys|
  {
    var init := keys[..|keys| - 1];
    if i < |init| {
      PositionsTableAt(init, values, prices, i);
      assert keys[i] == init[i];
    }
  }

  /** The Ethereum fetcher with its two caches. `coins` are the configured
      token contracts in file order, `holders` the addresses of interest. */
  class DataFetcher {
    const fetchFrequency: int
    const coins: seq<string>
    const holders: seq<string>
    const decimals: map<string, nat>
    var priceMeta: Option<PriceMeta>
    var balanceMeta: Option<BalanceMeta>

    constructor (fetchFrequency: int, coins: seq<string>, holders: seq<string>, decimals: map<string, nat>)
      requires Distinct(coins)
      ensures this.fetchFrequency == fetchFrequency && this.coins == coins && this.holders == holders
      ensures this.decimals == decimals && priceMeta.None? && balanceMeta.None?
      ensures Valid()
    {
      this.fetchFrequency := fetchFrequency;
      this.coins := coins;
      this.holders := holders;
      this.decimals := decimals;
      priceMeta := None;
      balanceMeta := None;
    }

    /** The configured coins are the keys of a dictionary, hence distinct; a
        cached balance map is never empty. */
    predicate Valid()
      reads this
    {
      Distinct(coins) && (balanceMeta.Some? ==> balanceMeta.value.balancePerCoin.Valid() && balanceMeta.value.balancePerCoin.keys != [])
    }

    /** What the cache wrapper yields at `now` given the chain's answers. */
    function BalancesAt(now: real, ethWei: seq<nat>, results: seq<int>): Dict
      reads this
    {
      if balanceMeta.Some? && Fresh(balanceMeta.value.timestamp, now, fetchFrequency) then balanceMeta.value.balancePerCoin
      else SyncBalances(coins, |holders|, ethWei, results, decimals)
    }

    /** `__get_total_balance_by_coin_async`: a fresh cache is returned as is;
        otherwise the chain is read, and a non-empty answer is cached. */
    method TotalBalanceByCoin(now: real, ethWei: seq<nat>, results: seq<int>) returns (d: Dict)
      requires Valid()
      modifies this
      ensures Valid() && d.Valid() && priceMeta == old(priceMeta)
      ensures d == old(BalancesAt(now, ethWei, results))
      ensures old(balanceMeta.Some? && Fresh(balanceMeta.value.timestamp, now, fetchFrequency)) || d.keys == []
        ==> balanceMeta == old(balanceMeta)
      ensures !old(balanceMeta.Some? && Fresh(balanceMeta.value.timestamp, now, fetchFrequency)) && d.keys != []
        ==> balanceMeta == Some(BalanceMeta(now, d))
    {
      if balanceMeta.Some? && Fresh(balanceMeta.value.timestamp, now, fetchFrequency) {
        return balanceMeta.value.balancePerCoin;
      }
      SyncBalancesSpec(coins, |holders|, ethWei, results, decimals);
      d := TotalBalanceByCoinSync(coins, |holders|, ethWei, results, decimals);
      if d.keys != [] {
        balanceMeta := Some(BalanceMeta(now, d));
      }
    }

    /** `get_prices_for_coins_async`: a fresh price cache is kept; otherwise the
        prices of the coins worth requesting replace it. */
    method GetPricesForCoins(now: real, balances: Dict, getPrices: seq<string> -> map<string, map<string, real>>)
      requires balances.Valid()
      modifies this
      ensures balanceMeta == old(balanceMeta)
      ensures priceMeta == if old(priceMeta.Some? && Fresh(priceMeta.value.timestamp, now, fetchFrequency)) then old(priceMeta)
        else Some(PriceMeta(now, getPrices(CoinsToFetch(balances.keys, balances.values))))
    {
      if priceMeta.Some? && Fresh(priceMeta.value.timestamp, now, fetchFrequency) {
        return;
      }
      var toFetch := CoinsToFetch(balances.keys, balances.values);
      priceMeta := Some(PriceMeta(now, getPrices(toFetch)));
    }

    /** `fetch_balance`: 0 for an empty balance map, otherwise the dollar value
        of every coin summed and rounded to 3. */
    method FetchBalance(now: real, ethWei: seq<nat>, results: seq<int>, getPrices: seq<string> -> map<string, map<string, real>>)
      returns (r: real)
      requires Valid()
      modifies this
      ensures Valid()
      ensures var b := old(BalancesAt(now, ethWei, results));
        b.Valid()
        && (b.keys == [] ==> r == 0.0 && priceMeta == old(priceMeta))
        && (b.keys != [] ==> r == Round(Sum(Dollars(b.keys, b.values, priceMeta)), 3))
      ensures var b := old(BalancesAt(now, ethWei, results));
        balanceMeta == if old(balanceMeta.Some? && Fresh(balanceMeta.value.timestamp, now, fetchFrequency)) || b.keys == []
          then old(balanceMeta) else Some(BalanceMeta(now, b))
      ensures var b := old(BalancesAt(now, ethWei, results));
        b.keys != [] ==>
          priceMeta == if old(priceMeta.Some? && Fresh(priceMeta.value.timestamp, now, fetchFrequency)) then old(priceMeta)
            else Some(PriceMeta(now, getPrices(CoinsToFetch(b.keys, b.values))))
    {
      var balances := TotalBalanceByCoin(now, ethWei, results);
      if balances.keys == [] {
        return 0.0;
      }
      GetPricesForCoins(now, balances, getPrices);
      var netliq := 0.0;
      var i := 0;
      while i < |balances.keys|
        invariant 0 <= i <= |balances.keys|
        invariant netliq == Sum(Dollars(balances.keys[..i], balances.values, priceMeta))
      {
        var coin := balances.keys[i];
        assert balances.keys[..i + 1][..i] == balances.keys[..i];
        netliq := netliq + CoinDollar(coin, balances.values[coin], priceMeta);
        i := i + 1;
      }
      assert balances.keys[..i] == balances.keys;
      r := Round(netliq, 3);
    }

    /** `fetch_positions`: the empty table for an empty balance map, otherwise
        one row per coin. */
    method FetchPositions(now: real, ethWei: seq<nat>, results: seq<int>, getPrices: seq<string> -> map<string, map<string, real>>)
      returns (t: Table)
      requires Valid()
      modifies this
      ensures Valid()
      ensures var b := old(BalancesAt(now, ethWei, results));
        b.Valid()
        && (b.keys == [] ==> t == EmptyTable && priceMeta == old(priceMeta))
        && (b.keys != [] ==> t == PositionsTable(b.keys, b.values, priceMeta))
      ensures var b := old(BalancesAt(now, ethWei, results));
        balanceMeta == if old(balanceMeta.Some? && Fresh(balanceMeta.value.timestamp, now, fetchFrequency)) || b.keys == []
          then old(balanceMeta) else Some(BalanceMeta(now, b))
      ensures var b := old(BalancesAt(now, ethWei, results));
        b.keys != [] ==>
          priceMeta == if old(priceMeta.Some? && Fresh(priceMeta.value.timestamp, now, fetchFrequency)) then old(priceMeta)
            else Some(PriceMeta(now, getPrices(CoinsToFetch(b.keys, b.values))))
    {
      var balances := TotalBalanceByCoin(now, ethWei, results);
      t := EmptyTable;
      if balances.keys == [] {
        return;
      }
      GetPricesForCoins(now, balances, getPrices);
      var i := 0;
      while i < |balances.keys|
        invariant 0 <= i <= |balances.keys|
        invariant t == PositionsTable(balances.keys[..i], balances.values, priceMeta)
      {
        var coin := balances.keys[i];
        assert balances.keys[..i + 1][..i] == balances.keys[..i];
        var balance := balances.values[coin];
        t := t.Append(coin, 1, Round(balance, 3), Round(CoinDollar(coin, balance, priceMeta), 3));
        i := i + 1;
      }
      assert balances.keys[..i] == balances.keys;
    }
  }
}
