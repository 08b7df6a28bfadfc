// CoinGecko price source: the two maps between ticker symbols and CoinGecko
// ids built from the coin list, and the price query that goes out by id and
// comes back by symbol.

module CoinGeckoFetcher {
  import opened Common

  /** One entry of the `coins/list` answer. */
  datatype CoinEntry = CoinEntry(symbol: string, id: string)

  /** `id_per_symbol` and `symbol_per_id`, both keyed in upper case. */
  datatype SymbolMaps = SymbolMaps(idPerSymbol: map<string, string>, symbolPerId: map<string, string>)

  const NoMaps: SymbolMaps := SymbolMaps(map[], map[])

  /** The symbol a coin-list entry is filed under: id "dydx" is always filed
      as DYDX, the entry ("vita", "vitadao") as VITA, and every other entry
      under its upper-cased symbol. */
  function FiledSymbol(e: CoinEntry): string
  {
    if e.id == "dydx" then "DYDX"
    else if e.symbol == "vita" && e.id == "vitadao" then "VITA"
    else Upper(e.symbol)
  }

  /** The VITA rule files the entry exactly where the general rule would:
      only the DYDX rule changes the maps. */
  lemma VitaRuleIsGeneralRule()
    ensures FiledSymbol(CoinEntry("vita", "vitadao")) == Upper("vita")
  {
  }

  /** The maps after processing `items` in order. */
  function Maps(items: seq<CoinEntry>): SymbolMaps
  {
    if items == [] then NoMaps
    else
      var m := Maps(items[..|items| - 1]);
      var e := items[|items| - 1];
      SymbolMaps(m.idPerSymbol[FiledSymbol(e) := Upper(e.id)], m.symbolPerId[Upper(e.id) := FiledSymbol(e)])
  }

  /** The symbols mapped are exactly the filed symbols of the entries. */
  lemma {:induction false} MapsSymbols(items: seq<CoinEntry>)
    ensures forall s :: s in Maps(items).idPerSymbol <==> exists i :: 0 <= i < |items| && FiledSymbol(items[i]) == s
  {
    if items != [] {
      var init := items[..|items| - 1];
      MapsSymbols(init);
      assert forall i :: 0 <= i < |init| ==> init[i] == items[i];
    }
  }

  /** The ids mapped are exactly the upper-cased ids of the entries. */
  lemma {:induction false} MapsIds(items: seq<CoinEntry>)
    ensures forall c :: c in Maps(items).symbolPerId <==> exists i :: 0 <= i < |items| && Upper(items[i].id) == c
  {
    if items != [] {
      var init := items[..|items| - 1];
      MapsIds(init);
      assert forall i :: 0 <= i < |init| ==> init[i] == items[i];
    }
  }

  /** Each map's values are keys of the other. */
  lemma {:induction false} MapsDomain(items: seq<CoinEntry>)
    ensures forall s :: s in Maps(items).idPerSymbol ==> Maps(items).idPerSymbol[s] in Maps(items).symbolPerId
    ensures forall c :: c in Maps(items).symbolPerId ==> Maps(items).symbolPerId[c] in Maps(items).idPerSymbol
  {
    if items != [] {
      MapsDomain(items[..|items| - 1]);
    }
  }

  /** A later entry filed under the same symbol overwrites an earlier one:
      the symbol maps to the id of the last entry filed under it. */
  lemma {:induction false} LastEntryWins(items: seq<CoinEntry>, j: nat)
    requires j < |items|
    requires forall k :: j < k < |items| ==> FiledSymbol(items[k]) != FiledSymbol(items[j])
    ensures FiledSymbol(items[j]) in Maps(items).idPerSymbol
    ensures Maps(items).idPerSymbol[FiledSymbol(items[j])] == Upper(items[j].id)
  {
    if j < |items| - 1 {
      var init := items[..|items| - 1];
      assert init[j] == items[j];
      assert forall k :: j < k < |init| ==> init[k] == items[k];
      LastEntryWins(init, j);
    }
  }

  /** Ids distinct after upper-casing. */
  predicate DistinctIds(items: seq<CoinEntry>)
  {
    forall i, j :: 0 <= i < j < |items| ==> Upper(items[i].id) != Upper(items[j].id)
  }

  /** With distinct ids the maps form a round trip: the id a symbol maps to
      maps back to that symbol. */
  lemma {:induction false} MapsRoundTrip(items: seq<CoinEntry>)
    requires DistinctIds(items)
    ensures forall s :: s in Maps(items).idPerSymbol ==>
              Maps(items).idPerSymbol[s] in Maps(items).symbolPerId &&
              Maps(items).symbolPerId[Maps(items).idPerSymbol[s]] == s
  {
    if items != [] {
      var init := items[..|items| - 1];
      var e := items[|items| - 1];
      assert DistinctIds(init) by {
        forall i, j | 0 <= i < j < |init|
          ensures Upper(init[i].id) != Upper(init[j].id)
        {
          assert init[i] == items[i] && init[j] == items[j];
        }
      }
      MapsRoundTrip(init);
      MapsIds(init);
      var m := Maps(init);
      assert Upper(e.id) !in m.symbolPerId by {
        forall i | 0 <= i < |init|
          ensures Upper(init[i].id) != Upper(e.id)
        {
          assert init[i] == items[i];
        }
      }
      forall s | s in Maps(items).idPerSymbol
        ensures Maps(items).idPerSymbol[s] in Maps(items).symbolPerId &&
                Maps(items).symbolPerId[Maps(items).idPerSymbol[s]] == s
      {
        if s != FiledSymbol(e) {
          assert m.idPerSymbol[s] in m.symbolPerId;
          assert m.idPerSymbol[s] != Upper(e.id);
        }
      }
    }
  }

  /** Without distinct ids the round trip can fail: two entries with one id
      under different symbols leave the first symbol pointing at an id that
      maps back to the second. */
  lemma SharedIdBreaksRoundTrip()
    ensures var m := Maps([CoinEntry("abc", "x"), CoinEntry("def", "x")]);
      "ABC" in m.idPerSymbol && m.idPerSymbol["ABC"] == "X" && "X" in m.symbolPerId && m.symbolPerId["X"] == "DEF"
  {
    var items := [CoinEntry("abc", "x"), CoinEntry("def", "x")];
    assert items[..1] == [CoinEntry("abc", "x")];
    assert items[..1][..0] == [];
    assert Upper("abc") == "ABC" && Upper("def") == "DEF" && Upper("x") == "X";
  }

  /** The map-building loop over the coin list. */
  method BuildMaps(items: seq<CoinEntry>) returns (m: SymbolMaps)
    ensures m == Maps(items)
  {
    var idPerSymbol: map<string, string> := map[];
    var symbolPerId: map<string, string> := map[];
    for i := 0 to |items|
      invariant Maps(items[..i]) == SymbolMaps(idPerSymbol, symbolPerId)
    {
      assert items[..i + 1][..i] == items[..i];
      var item := items[i];
      var symbol := Upper(item.symbol);
      var coinId := Upper(item.id);
      if item.id == "dydx" {
        idPerSymbol := idPerSymbol["DYDX" := coinId];
        symbolPerId := symbolPerId[coinId := "DYDX"];
      } else if item.symbol == "vita" && item.id == "vitadao" {
        idPerSymbol := idPerSymbol["VITA" := coinId];
        symbolPerId := symbolPerId[coinId := "VITA"];
      } else {
        idPerSymbol := idPerSymbol[symbol := coinId];
        symbolPerId := symbolPerId[coinId := symbol];
      }
    }
    assert items[..|items|] == items;
    return SymbolMaps(idPerSymbol, symbolPerId);
  }

  // ---------------------------------------------------------------------------
  // Loading the coin list

  const CoinListRetries: nat := 2
  const CoinListPause: int := 60

  /** The lazy load from attempt `attempt` on, given each attempt's answer
      (a coin list or a client error): the maps and the pauses taken. An empty
      list is retried at once; an error is retried after a minute, except on
      the last attempt; when no attempt succeeds both maps are empty. */
  function LoadFrom(coinList: nat -> Result<seq<CoinEntry>, string>, attempt: nat): Load
    decreases CoinListRetries - attempt
  {
    if attempt >= CoinListRetries then Load(NoMaps, [])
    else match coinList(attempt)
      case Ok(items) =>
        if items != [] then Load(Maps(items), []) else LoadFrom(coinList, attempt + 1)
      case Err(_) =>
        var rest := LoadFrom(coinList, attempt + 1);
        Load(rest.maps, (if attempt < CoinListRetries - 1 then [CoinListPause] else []) + rest.pauses)
  }

  /** The maps a load ends with and the pauses it took. */
  datatype Load = Load(maps: SymbolMaps, pauses: seq<int>)

  /** The load takes the first non-empty list among the two attempts, pauses
      only after a failed first attempt, and otherwise leaves both maps empty. */
  lemma LoadSpec(coinList: nat -> Result<seq<CoinEntry>, string>)
    ensures var l := LoadFrom(coinList, 0);
      (l.pauses == [CoinListPause] <==> coinList(0).Err?) && (coinList(0).Ok? ==> l.pauses == []) &&
      (coinList(0).Ok? && coinList(0).value != [] ==> l.maps == Maps(coinList(0).value)) &&
      (!(coinList(0).Ok? && coinList(0).value != []) && coinList(1).Ok? && coinList(1).value != [] ==> l.maps == Maps(coinList(1).value)) &&
      (!(coinList(0).Ok? && coinList(0).value != []) && !(coinList(1).Ok? && coinList(1).value != []) ==> l.maps == NoMaps)
  {
  }

  // ---------------------------------------------------------------------------
  // Price queries

  /** The ids to ask for: one per requested symbol whose upper case is
      mapped, in the order of the request. */
  function IdsToFetch(symbols: seq<string>, idPerSymbol: map<string, string>): (ids: seq<string>)
    ensures |ids| <= |symbols|
    ensures forall i :: 0 <= i < |ids| ==> ids[i] in idPerSymbol.Values
  {
    if symbols == [] then []
    else
      var s := Upper(symbols[0]);
      (if s in idPerSymbol then [idPerSymbol[s]] else []) + IdsToFetch(symbols[1..], idPerSymbol)
  }

  /** No id is fetched exactly when no requested symbol is mapped; every
      mapped symbol's id is fetched. */
  lemma {:induction false} IdsToFetchSpec(symbols: seq<string>, idPerSymbol: map<string, string>)
    ensures IdsToFetch(symbols, idPerSymbol) == [] <==> forall i :: 0 <= i < |symbols| ==> Upper(symbols[i]) !in idPerSymbol
    ensures forall i :: 0 <= i < |symbols| && Upper(symbols[i]) in idPerSymbol ==>
              idPerSymbol[Upper(symbols[i])] in IdsToFetch(symbols, idPerSymbol)
  {
    if symbols != [] {
      IdsToFetchSpec(symbols[1..], idPerSymbol);
      forall i | 1 <= i < |symbols|
        ensures symbols[1..][i - 1] == symbols[i]
      {
      }
    }
  }

  /** Upper-case ids lowered one by one. */
  function LowerAll(parts: seq<string>): (r: seq<string>)
    ensures |r| == |parts| && forall i :: 0 <= i < |parts| ==> r[i] == Lower(parts[i])
  {
    if parts == [] then [] else [Lower(parts[0])] + LowerAll(parts[1..])
  }

  lemma LowerConcat(a: string, b: string)
    ensures Lower(a + b) == Lower(a) + Lower(b)
  {
    assert forall i :: 0 <= i < |a + b| ==> Lower(a + b)[i] == (Lower(a) + Lower(b))[i];
  }

  /** Lower-casing the comma-joined ids is joining the lower-cased ids: the
      query names each requested coin by its lower-case id. */
  lemma {:induction false} LowerJoin(parts: seq<string>)
    ensures Lower(Join(parts, ",")) == Join(LowerAll(parts), ",")
  {
    if |parts| > 1 {
      LowerJoin(parts[1..]);
      LowerConcat(parts[0] + ",", Join(parts[1..], ","));
      LowerConcat(parts[0], ",");
      assert Lower(",") == ",";
      assert LowerAll(parts)[1..] == LowerAll(parts[1..]);
    }
  }

  /** The query parameters of `simple/price`. */
  datatype PriceRequest = PriceRequest(ids: string, vsCurrencies: string)

  /** The symbol an id of the answer maps back to; "" (falsy) when unknown. */
  function SymbolOf(coinId: string, symbolPerId: map<string, string>): string
  {
    if Upper(coinId) in symbolPerId then symbolPerId[Upper(coinId)] else ""
  }

  /** The answer re-keyed by symbol, in answer order; ids mapping to no
      symbol are dropped and a later id mapping to the same symbol wins. */
  function PricesBySymbol(answer: seq<(string, map<string, real>)>, symbolPerId: map<string, string>): map<string, map<string, real>>
  {
    if answer == [] then map[]
    else
      var r := PricesBySymbol(answer[..|answer| - 1], symbolPerId);
      var (coinId, prices) := answer[|answer| - 1];
      var s := SymbolOf(coinId, symbolPerId);
      if s != "" then r[s := prices] else r
  }

  /** The symbols priced are exactly those the answer's ids map back to. */
  lemma {:induction false} PricesBySymbolKeys(answer: seq<(string, map<string, real>)>, symbolPerId: map<string, string>)
    ensures PricesBySymbol(answer, symbolPerId).Keys ==
              set i | 0 <= i < |answer| && SymbolOf(answer[i].0, symbolPerId) != "" :: SymbolOf(answer[i].0, symbolPerId)
  {
    if answer != [] {
      var init := answer[..|answer| - 1];
      PricesBySymbolKeys(init, symbolPerId);
      assert forall i :: 0 <= i < |init| ==> init[i] == answer[i];
    }
  }

  /** Each priced symbol carries the prices of the last id in the answer
      that maps back to it. */
  lemma {:induction false} PricesBySymbolLast(answer: seq<(string, map<string, real>)>, symbolPerId: map<string, string>, j: nat)
    requires j < |answer| && SymbolOf(answer[j].0, symbolPerId) != ""
    requires forall k :: j < k < |answer| ==> SymbolOf(answer[k].0, symbolPerId) != SymbolOf(answer[j].0, symbolPerId)
    ensures SymbolOf(answer[j].0, symbolPerId) in PricesBySymbol(answer, symbolPerId)
    ensures PricesBySymbol(answer, symbolPerId)[SymbolOf(answer[j].0, symbolPerId)] == answer[j].1
  {
    if j < |answer| - 1 {
      var init := answer[..|answer| - 1];
      assert init[j] == answer[j];
      assert forall k :: j < k < |init| ==> init[k] == answer[k];
      PricesBySymbolLast(init, symbolPerId, j);
    }
  }

  /** The back-mapping loop over the answer. */
  method MapBack(answer: seq<(string, map<string, real>)>, symbolPerId: map<string, string>) returns (r: map<string, map<string, real>>)
    ensures r == PricesBySymbol(answer, symbolPerId)
  {
    r := map[];
    for i := 0 to |answer|
      invariant r == PricesBySymbol(answer[..i], symbolPerId)
    {
      assert answer[..i + 1][..i] == answer[..i];
      var (coinId, prices) := answer[i];
      var originalSymbol := if Upper(coinId) in symbolPerId then symbolPerId[Upper(coinId)] else "";
      if originalSymbol != "" {
        r := r[originalSymbol := prices];
      }
    }
    assert answer[..|answer|] == answer;
  }

  /** What `get_prices` returns, with the request it sent, if any. */
  datatype Quote = Quote(prices: map<string, map<string, real>>, request: Option<PriceRequest>)

  /** `get_prices` once the maps are loaded. No request goes out when no
      symbol is mapped; a client error on the request yields an empty answer. */
  function Prices(m: SymbolMaps, symbols: seq<string>, vsCurrencies: seq<string>,
                  answer: Result<seq<(string, map<string, real>)>, string>): Quote
  {
    var ids := IdsToFetch(symbols, m.idPerSymbol);
    if ids == [] then Quote(map[], None)
    else
      var request := PriceRequest(Lower(Join(ids, ",")), Join(LowerAll(vsCurrencies), ","));
      if answer.Err? then Quote(map[], Some(request)) else Quote(PricesBySymbol(answer.value, m.symbolPerId), Some(request))
  }

  /** A request goes out exactly when some requested symbol is mapped, and
      it names the lower-cased ids of the mapped symbols. */
  lemma PricesRequest(m: SymbolMaps, symbols: seq<string>, vsCurrencies: seq<string>,
                      answer: Result<seq<(string, map<string, real>)>, string>)
    ensures var q := Prices(m, symbols, vsCurrencies, answer);
      (q.request.None? <==> forall i :: 0 <= i < |symbols| ==> Upper(symbols[i]) !in m.idPerSymbol) &&
      (q.request.Some? ==> q.request.value.ids == Join(LowerAll(IdsToFetch(symbols, m.idPerSymbol)), ",")) &&
      (q.prices != map[] ==> answer.Ok? && q.request.Some?)
  {
    IdsToFetchSpec(symbols, m.idPerSymbol);
    LowerJoin(IdsToFetch(symbols, m.idPerSymbol));
  }

  /** Every returned symbol is a mapped symbol that some id of the answer
      maps back to. */
  lemma PricesAnswer(items: seq<CoinEntry>, symbols: seq<string>, vsCurrencies: seq<string>,
                     answer: Result<seq<(string, map<string, real>)>, string>)
    ensures var m := Maps(items);
      forall s :: s in Prices(m, symbols, vsCurrencies, answer).prices ==>
        (s in m.idPerSymbol && answer.Ok? &&
         exists i :: 0 <= i < |answer.value| && SymbolOf(answer.value[i].0, m.symbolPerId) == s)
  {
    var m := Maps(items);
    var q := Prices(m, symbols, vsCurrencies, answer);
    if answer.Ok? && q.request.Some? {
      MapsDomain(items);
      PricesBySymbolKeys(answer.value, m.symbolPerId);
      forall s | s in q.prices
        ensures s in m.idPerSymbol && exists i :: 0 <= i < |answer.value| && SymbolOf(answer.value[i].0, m.symbolPerId) == s
      {
        var i :| 0 <= i < |answer.value| && SymbolOf(answer.value[i].0, m.symbolPerId) != "" && SymbolOf(answer.value[i].0, m.symbolPerId) == s;
        assert m.symbolPerId[Upper(answer.value[i].0)] == s;
      }
    }
  }

  lemma UpperLowerUpper(x: string)
    ensures Upper(Lower(Upper(x))) == Upper(x)
  {
    assert forall i :: 0 <= i < |x| ==> UpperChar(LowerChar(UpperChar(x[i]))) == UpperChar(x[i]);
  }

  /** The full round trip of a query: with distinct ids, the lower-case id
      sent for a mapped symbol, echoed back by the server, maps back to that
      symbol. */
  lemma EchoedIdMapsBack(items: seq<CoinEntry>, s: string)
    requires DistinctIds(items) && s in Maps(items).idPerSymbol
    ensures SymbolOf(Lower(Maps(items).idPerSymbol[s]), Maps(items).symbolPerId) == s
  {
    MapsRoundTrip(items);
    MapsIds(items);
    var m := Maps(items);
    var j :| 0 <= j < |items| && Upper(items[j].id) == m.idPerSymbol[s];
    UpperLowerUpper(items[j].id);
  }

  // ---------------------------------------------------------------------------
  // The fetcher object

  /** The fetcher with its two lazily loaded maps. */
  class DataFetcher {
    var idPerSymbol: Option<map<string, string>>
    var symbolPerId: Option<map<string, string>>

    constructor ()
      ensures idPerSymbol.None? && symbolPerId.None? && Valid()
    {
      idPerSymbol := None;
      symbolPerId := None;
    }

    /** The two maps are loaded together. */
    predicate Valid()
      reads this
    {
      idPerSymbol.Some? <==> symbolPerId.Some?
    }

    /** `__get_id_per_symbol`: up to two attempts at the coin list. */
    method GetIdPerSymbol(coinList: nat -> Result<seq<CoinEntry>, string>) returns (pauses: seq<int>)
      modifies this
      ensures idPerSymbol == Some(LoadFrom(coinList, 0).maps.idPerSymbol)
      ensures symbolPerId == Some(LoadFrom(coinList, 0).maps.symbolPerId)
      ensures pauses == LoadFrom(coinList, 0).pauses && Valid()
    {
      pauses := [];
      assert [] + LoadFrom(coinList, 0).pauses == LoadFrom(coinList, 0).pauses;
      for attempt := 0 to CoinListRetries
        invariant LoadFrom(coinList, 0) == Load(LoadFrom(coinList, attempt).maps, pauses + LoadFrom(coinList, attempt).pauses)
      {
        match coinList(attempt) {
          case Ok(items) =>
            if items != [] {
              var m := BuildMaps(items);
              idPerSymbol := Some(m.idPerSymbol);
              symbolPerId := Some(m.symbolPerId);
              return;
            }
          case Err(_) =>
            if attempt < CoinListRetries - 1 {
              assert pauses + ([CoinListPause] + LoadFrom(coinList, attempt + 1).pauses) == (pauses + [CoinListPause]) + LoadFrom(coinList, attempt + 1).pauses;
              pauses := pauses + [CoinListPause];
            } else {
              assert [] + LoadFrom(coinList, attempt + 1).pauses == LoadFrom(coinList, attempt + 1).pauses;
            }
        }
      }
      idPerSymbol := Some(map[]);
      symbolPerId := Some(map[]);
    }

    /** `get_prices`: loads the maps on first use, then queries by id and
        answers by symbol. `coinList` plays the coin-list endpoint and
        `answer` the price endpoint (a client error is an `Err`). */
    method GetPrices(symbols: seq<string>, vsCurrencies: seq<string>, coinList: nat -> Result<seq<CoinEntry>, string>,
                     answer: Result<seq<(string, map<string, real>)>, string>)
      returns (r: map<string, map<string, real>>, request: Option<PriceRequest>)
      requires Valid()
      modifies this
      ensures old(idPerSymbol).Some? ==> idPerSymbol == old(idPerSymbol) && symbolPerId == old(symbolPerId)
      ensures old(idPerSymbol).None? ==> idPerSymbol == Some(LoadFrom(coinList, 0).maps.idPerSymbol) &&
                                         symbolPerId == Some(LoadFrom(coinList, 0).maps.symbolPerId)
      ensures Valid() && Quote(r, request) == Prices(SymbolMaps(idPerSymbol.value, symbolPerId.value), symbols, vsCurrencies, answer)
    {
      if idPerSymbol.None? {
        var _ := GetIdPerSymbol(coinList);
      }
      var ids := IdsToFetch(symbols, idPerSymbol.value);
      if ids == [] {
        return map[], None;
      }
      request := Some(PriceRequest(Lower(Join(ids, ",")), Join(LowerAll(vsCurrencies), ",")));
      if answer.Err? {
        return map[], request;
      }
      r := MapBack(answer.value, symbolPerId.value);
    }
  }
}
