/** The snapshot aggregator: it keeps one record per exchange (balance,
    column-oriented positions, time of last fetch), decides after every
    incoming message whether the set of records is ready to be published,
    and if so merges them into a single balance object and a single
    six-column position table.

    Clock readings are parameters: `fetchTime` is the reading taken when a
    message is stored, `now` the one taken by the readiness check, `clock`
    the same instant on the UTC−5 wall clock and `stamp` the machine-local
    time written into the snapshot. */
module DataAggregator {
  import opened Common

  const DailyInterval: int := 86400
  const NewDayHour: int := 5
  const NetliqKey: string := "netliq"
  const DateKey: string := "date"

  /** One message from a venue adapter: `{exchange, balance, positions}`. */
  datatype Message = Message(exchange: string, balance: real, positions: map<string, seq<Cell>>)

  /** The UTC−5 wall clock consulted by the daily gate. */
  datatype LocalClock = LocalClock(date: Date, hour: int)

  /** The stored state of one exchange. */
  datatype Record = Record(balance: real, position: map<string, seq<Cell>>, lastFetch: real)

  /** The six position columns, in the order `date, Exchange, Symbol, Multiplier,
      Quantity, Dollar Quantity`. */
  datatype Positions = Positions(date: seq<Cell>, exchange: seq<Cell>, symbol: seq<Cell>,
                                 multiplier: seq<Cell>, quantity: seq<Cell>, dollar: seq<Cell>)

  /** The published object: an ordered balance dictionary and the position columns. */
  datatype Snapshot = Snapshot(balance: seq<(string, Cell)>, positions: Positions)

  const NoPositions := Positions([], [], [], [], [], [])

  // ---------------------------------------------------------------------------
  // Records

  /** The entries of `value` whose keys are in `keys`. */
  function Restrict(value: map<string, seq<Cell>>, keys: set<string>): (m: map<string, seq<Cell>>)
    ensures m.Keys == value.Keys * keys
    ensures forall k :: k in m ==> m[k] == value[k]
  {
    map k | k in value && k in keys :: value[k]
  }

  /** What one message does to the record map: the first message of an exchange
      creates its record, a later one replaces the balance, overwrites the
      position columns it carries and restamps the fetch time. */
  function Ingest(records: map<string, Record>, msg: Message, fetchTime: real): map<string, Record>
  {
    if msg.exchange in records then
      var old_ := records[msg.exchange];
      records[msg.exchange := Record(msg.balance, old_.position + msg.positions, fetchTime)]
    else
      records[msg.exchange := Record(msg.balance, msg.positions, fetchTime)]
  }

  /** Only the sending exchange's record changes; it carries the message's balance
      and fetch time, the message's columns, and every earlier column the message
      does not mention. */
  lemma IngestEffect(records: map<string, Record>, msg: Message, fetchTime: real)
    ensures Ingest(records, msg, fetchTime).Keys == records.Keys + {msg.exchange}
    ensures forall e :: e in records && e != msg.exchange ==> Ingest(records, msg, fetchTime)[e] == records[e]
    ensures Ingest(records, msg, fetchTime)[msg.exchange].balance == msg.balance
    ensures Ingest(records, msg, fetchTime)[msg.exchange].lastFetch == fetchTime
    ensures forall k :: k in msg.positions ==> Ingest(records, msg, fetchTime)[msg.exchange].position[k] == msg.positions[k]
    ensures msg.exchange in records ==>
      forall k :: k in records[msg.exchange].position && k !in msg.positions ==>
        Ingest(records, msg, fetchTime)[msg.exchange].position[k] == records[msg.exchange].position[k]
    ensures msg.exchange !in records ==> Ingest(records, msg, fetchTime)[msg.exchange].position == msg.positions
  {
  }

  // ---------------------------------------------------------------------------
  // Readiness

  /** The daily gate: closed before 05:00 on the UTC−5 clock, then open iff the
      local date differs from the date of the last emission (none yet: open). */
  predicate IsNewDay(clock: LocalClock, lastSent: Option<Stamp>)
  {
    if clock.hour < NewDayHour then false
    else lastSent.None? || clock.date != lastSent.value.date
  }

  function Fetches(records: map<string, Record>, order: seq<string>): (s: seq<real>)
    requires forall e :: e in order ==> e in records
    ensures |s| == |order| && forall i :: 0 <= i < |order| ==> s[i] == records[order[i]].lastFetch
  {
    if order == [] then [] else Fetches(records, order[..|order| - 1]) + [records[order[|order| - 1]].lastFetch]
  }

  function Balances(records: map<string, Record>, order: seq<string>): (s: seq<real>)
    requires forall e :: e in order ==> e in records
    ensures |s| == |order| && forall i :: 0 <= i < |order| ==> s[i] == records[order[i]].balance
  {
    if order == [] then [] else Balances(records, order[..|order| - 1]) + [records[order[|order| - 1]].balance]
  }

  /** Python's `min` over a non-empty sequence. */
  function MinOf(s: seq<real>): (m: real)
    requires |s| > 0
    ensures m in s
    ensures forall i :: 0 <= i < |s| ==> m <= s[i]
  {
    if |s| == 1 then s[0]
    else
      var m := MinOf(s[..|s| - 1]);
      assert forall i :: 0 <= i < |s| - 1 ==> s[..|s| - 1][i] == s[i];
      if m <= s[|s| - 1] then m else s[|s| - 1]
  }

  /** The readiness predicate. `Err` is the `ValueError` of `min()` over no
      exchanges, which happens when the configured route set is empty. */
  function CanSend(interval: int, routes: set<string>, lastSent: Option<Stamp>,
                   records: map<string, Record>, order: seq<string>, now: real, clock: LocalClock): Result<bool, string>
    requires forall e :: e in records <==> e in order
  {
    if records.Keys != routes then Ok(false)
    else if interval == DailyInterval && !IsNewDay(clock, lastSent) then Ok(false)
    else if order == [] then Err("ValueError")
    else Ok(now - MinOf(Fetches(records, order)) >= interval as real)
  }

  /** Publishing is possible exactly when every configured exchange and no other
      has reported, the daily gate (daily mode only) is open, and at least one
      exchange's last fetch is `interval` seconds old or older. */
  lemma {:induction false} ReadyIffSomeSourceStale(interval: int, routes: set<string>, lastSent: Option<Stamp>,
                                  records: map<string, Record>, order: seq<string>, now: real, clock: LocalClock)
    requires forall e :: e in records <==> e in order
    ensures CanSend(interval, routes, lastSent, records, order, now, clock) == Ok(true) <==>
      records.Keys == routes
      && (interval == DailyInterval ==> IsNewDay(clock, lastSent))
      && exists e :: e in records && now - records[e].lastFetch >= interval as real
  {
    if records.Keys == routes && (interval == DailyInterval ==> IsNewDay(clock, lastSent)) {
      if e :| e in records && now - records[e].lastFetch >= interval as real {
        var i :| 0 <= i < |order| && order[i] == e;
        assert Fetches(records, order)[i] == records[e].lastFetch;
      }
      if order != [] {
        var f := Fetches(records, order);
        var m := MinOf(f);
        var i :| 0 <= i < |f| && f[i] == m;
        assert records[order[i]].lastFetch == m;
      }
    }
  }

  /** A missing exchange or an unexpected extra one both block publication. */
  lemma NotReadyUnlessExactSources(interval: int, routes: set<string>, lastSent: Option<Stamp>,
                                   records: map<string, Record>, order: seq<string>, now: real, clock: LocalClock)
    requires forall e :: e in records <==> e in order
    requires (exists e :: e in routes && e !in records) || (exists e :: e in records && e !in routes)
    ensures CanSend(interval, routes, lastSent, records, order, now, clock) == Ok(false)
  {
  }

  /** In daily mode both gates must pass: the new-day gate and the 86400-second age
      of the oldest fetch. */
  lemma DailyNeedsBothGates(routes: set<string>, lastSent: Option<Stamp>,
                            records: map<string, Record>, order: seq<string>, now: real, clock: LocalClock)
    requires forall e :: e in records <==> e in order
    requires CanSend(DailyInterval, routes, lastSent, records, order, now, clock) == Ok(true)
    ensures clock.hour >= NewDayHour
    ensures lastSent.Some? ==> clock.date != lastSent.value.date
    ensures exists e :: e in records && now - records[e].lastFetch >= 86400.0
  {
    ReadyIffSomeSourceStale(DailyInterval, routes, lastSent, records, order, now, clock);
  }

  /** The gate never looks at the previous emission in interval mode: if some
      exchange other than the sender is already stale, the message still makes the
      aggregator publish, so every message re-emits once one source is stale. */
  lemma {:induction false} StaleSourceKeepsEmitting(interval: int, routes: set<string>, lastSent: Option<Stamp>,
                                   records: map<string, Record>, order: seq<string>, msg: Message,
                                   fetchTime: real, now: real, clock: LocalClock, stale: string)
    requires forall e :: e in records <==> e in order
    requires interval != DailyInterval
    requires records.Keys == routes && msg.exchange in routes
    requires stale in records && stale != msg.exchange && now - records[stale].lastFetch >= interval as real
    ensures CanSend(interval, routes, lastSent, Ingest(records, msg, fetchTime), order, now, clock) == Ok(true)
  {
    var next := Ingest(records, msg, fetchTime);
    IngestEffect(records, msg, fetchTime);
    assert next[stale] == records[stale];
    ReadyIffSomeSourceStale(interval, routes, lastSent, next, order, now, clock);
  }

  /** Once a message has been stored, readiness is never the `ValueError` case. */
  lemma NoErrorAfterIngest(interval: int, routes: set<string>, lastSent: Option<Stamp>,
                           records: map<string, Record>, order: seq<string>, msg: Message,
                           fetchTime: real, now: real, clock: LocalClock)
    requires forall e :: e in records <==> e in order
    requires var next := Ingest(records, msg, fetchTime); forall e :: e in next <==> e in Appended(order, msg.exchange)
    ensures CanSend(interval, routes, lastSent, Ingest(records, msg, fetchTime), Appended(order, msg.exchange), now, clock).Ok?
  {
    assert msg.exchange in Appended(order, msg.exchange);
  }

  /** Python dict insertion order: a new key goes to the end, an old one stays put. */
  function Appended(order: seq<string>, e: string): (r: seq<string>)
    ensures e in r && forall x :: x in order ==> x in r
    ensures forall x :: x in r ==> x == e || x in order
  {
    if e in order then order else order + [e]
  }

  /** Emitting stores the emission time, so when the machine-local date written into
      the snapshot is the UTC−5 date, the daily gate stays closed for the rest of
      that local day. */
  lemma SecondDailyEvaluationSameDayFails(routes: set<string>, records: map<string, Record>, order: seq<string>,
                                          stamp: Stamp, now: real, clock: LocalClock)
    requires forall e :: e in records <==> e in order
    requires stamp.date == clock.date
    ensures !IsNewDay(clock, Some(stamp))
    ensures CanSend(DailyInterval, routes, Some(stamp), records, order, now, clock) == Ok(false)
  {
  }

  // ---------------------------------------------------------------------------
  // Building the snapshot

  /** Python's `d[k] = v` on an insertion-ordered dict. */
  function Put(d: seq<(string, Cell)>, k: string, v: Cell): seq<(string, Cell)>
  {
    if d == [] then [(k, v)]
    else if d[0].0 == k then [(k, v)] + d[1..]
    else [d[0]] + Put(d[1..], k, v)
  }

  /** The balance dictionary after the per-exchange assignments of `order`. */
  function BalanceEntries(records: map<string, Record>, order: seq<string>, init: seq<(string, Cell)>): seq<(string, Cell)>
    requires forall e :: e in order ==> e in records
  {
    if order == [] then init
    else Put(BalanceEntries(records, order[..|order| - 1], init), order[|order| - 1], Num(records[order[|order| - 1]].balance))
  }

  function BalanceHead(netliq: real, stamp: Stamp): seq<(string, Cell)>
  {
    [(NetliqKey, Num(netliq)), (DateKey, When(stamp))]
  }

  /** The first of the four data columns an exchange's table lacks (a `KeyError`). */
  function MissingColumn(pos: map<string, seq<Cell>>): (r: Option<string>)
    ensures r.None? <==> SymbolKey in pos && MultiplierKey in pos && QuantityKey in pos && DollarKey in pos
  {
    if SymbolKey !in pos then Some(SymbolKey)
    else if MultiplierKey !in pos then Some(MultiplierKey)
    else if QuantityKey !in pos then Some(QuantityKey)
    else if DollarKey !in pos then Some(DollarKey)
    else None
  }

  function Repeat(c: Cell, n: nat): (r: seq<Cell>)
    ensures |r| == n && forall i :: 0 <= i < n ==> r[i] == c
  {
    if n == 0 then [] else [c] + Repeat(c, n - 1)
  }

  /** One exchange's contribution: `len(Symbol)` copies of the date and the
      exchange name, then its four data columns. */
  function Extend(acc: Positions, e: string, pos: map<string, seq<Cell>>, stamp: Stamp): Result<Positions, string>
  {
    match MissingColumn(pos)
    case Some(k) => Err(k)
    case None =>
      var n := |pos[SymbolKey]|;
      Ok(Positions(acc.date + Repeat(When(stamp), n), acc.exchange + Repeat(Text(e), n),
                   acc.symbol + pos[SymbolKey], acc.multiplier + pos[MultiplierKey],
                   acc.quantity + pos[QuantityKey], acc.dollar + pos[DollarKey]))
  }

  function Flatten(records: map<string, Record>, order: seq<string>, stamp: Stamp): Result<Positions, string>
    requires forall e :: e in order ==> e in records
  {
    if order == [] then Ok(NoPositions)
    else match Flatten(records, order[..|order| - 1], stamp)
      case Err(k) => Err(k)
      case Ok(acc) => Extend(acc, order[|order| - 1], records[order[|order| - 1]].position, stamp)
  }

  /** The object `__get_object_to_send` returns, or the key whose absence raised. */
  function SnapshotOf(records: map<string, Record>, order: seq<string>, stamp: Stamp): Result<Snapshot, string>
    requires forall e :: e in order ==> e in records
  {
    match Flatten(records, order, stamp)
    case Err(k) => Err(k)
    case Ok(p) => Ok(Snapshot(BalanceEntries(records, order, BalanceHead(Sum(Balances(records, order)), stamp)), p))
  }

  /** Rows an exchange contributes. */
  function RowCount(records: map<string, Record>, order: seq<string>): nat
    requires forall e :: e in order ==> e in records
  {
    if order == [] then 0
    else
      var pos := records[order[|order| - 1]].position;
      RowCount(records, order[..|order| - 1]) + (if SymbolKey in pos then |pos[SymbolKey]| else 0)
  }

  predicate WellFormedTable(pos: map<string, seq<Cell>>)
  {
    MissingColumn(pos).None?
    && |pos[MultiplierKey]| == |pos[SymbolKey]| && |pos[QuantityKey]| == |pos[SymbolKey]|
    && |pos[DollarKey]| == |pos[SymbolKey]|
  }

  /** The snapshot exists iff every exchange's table has the four data columns;
      otherwise the first missing one is reported. */
  lemma {:induction false} FlattenOkIffColumnsPresent(records: map<string, Record>, order: seq<string>, stamp: Stamp)
    requires forall e :: e in order ==> e in records
    ensures Flatten(records, order, stamp).Ok? <==> forall e :: e in order ==> MissingColumn(records[e].position).None?
    decreases |order|
  {
    if order != [] {
      var init := order[..|order| - 1];
      FlattenOkIffColumnsPresent(records, init, stamp);
      assert forall e :: e in order <==> e in init || e == order[|order| - 1];
    }
  }

  /** Flattening tags every row with the snapshot date and with the exchange it came
      from, gives the date and Exchange columns one entry per Symbol row, and,
      when each exchange's four columns are equally long, leaves all six columns
      of equal length. */
  lemma {:induction false} FlattenShape(records: map<string, Record>, order: seq<string>, stamp: Stamp, p: Positions)
    requires forall e :: e in order ==> e in records
    requires Flatten(records, order, stamp) == Ok(p)
    ensures |p.date| == |p.exchange| == |p.symbol| == RowCount(records, order)
    ensures forall i :: 0 <= i < |p.date| ==> p.date[i] == When(stamp)
    ensures forall i :: 0 <= i < |p.exchange| ==> p.exchange[i].Text? && p.exchange[i].s in order
    ensures (forall e :: e in order ==> WellFormedTable(records[e].position)) ==>
      |p.multiplier| == |p.quantity| == |p.dollar| == |p.symbol|
    decreases |order|
  {
    if order != [] {
      var init := order[..|order| - 1];
      var last := order[|order| - 1];
      var acc :| Flatten(records, init, stamp) == Ok(acc);
      FlattenShape(records, init, stamp, acc);
      assert forall e :: e in init ==> e in order;
    }
  }

  /** The per-exchange balance entries in arrival order. */
  function Pairs(records: map<string, Record>, order: seq<string>): (d: seq<(string, Cell)>)
    requires forall e :: e in order ==> e in records
    ensures |d| == |order|
    ensures forall i :: 0 <= i < |order| ==> d[i] == (order[i], Num(records[order[i]].balance))
  {
    if order == [] then [] else Pairs(records, order[..|order| - 1]) + [(order[|order| - 1], Num(records[order[|order| - 1]].balance))]
  }

  /** Without name clashes, the assignments only ever append. */
  lemma {:induction false} BalanceEntriesAppend(records: map<string, Record>, order: seq<string>, head: seq<(string, Cell)>)
    requires forall e :: e in order ==> e in records
    requires Distinct(order) && forall e :: e in order ==> e !in Keys(head)
    ensures BalanceEntries(records, order, head) == head + Pairs(records, order)
    decreases |order|
  {
    if order != [] {
      var init := order[..|order| - 1];
      var last := order[|order| - 1];
      BalanceEntriesAppend(records, init, head);
      var b0 := head + Pairs(records, init);
      forall i | 0 <= i < |b0|
        ensures b0[i].0 != last
      {
        assert last in order;
        if i >= |head| {
          assert b0[i] == Pairs(records, init)[i - |head|];
          assert init[i - |head|] == order[i - |head|];
        } else {
          assert Keys(head)[i] == head[i].0;
        }
      }
      PutAppends(b0, last, Num(records[last].balance));
    }
  }

  /** With no exchange named `netliq` or `date`, the balance object lists
      `netliq`, `date` and then every exchange once in arrival order, each with
      its current balance. */
  lemma BalanceObjectShape(records: map<string, Record>, order: seq<string>, netliq: real, stamp: Stamp)
    requires forall e :: e in order ==> e in records
    requires Distinct(order) && NetliqKey !in order && DateKey !in order
    ensures BalanceEntries(records, order, BalanceHead(netliq, stamp)) == BalanceHead(netliq, stamp) + Pairs(records, order)
    ensures var b := BalanceEntries(records, order, BalanceHead(netliq, stamp));
      Lookup(b, NetliqKey) == Some(Num(netliq)) && Lookup(b, DateKey) == Some(When(stamp))
      && (forall e :: e in order ==> Lookup(b, e) == Some(Num(records[e].balance)))
  {
    var head := BalanceHead(netliq, stamp);
    assert Keys(head) == [NetliqKey, DateKey];
    BalanceEntriesAppend(records, order, head);
    var b := head + Pairs(records, order);
    LookupAt(b, 0);
    LookupAt(b, 1);
    forall e | e in order
      ensures Lookup(b, e) == Some(Num(records[e].balance))
    {
      var i :| 0 <= i < |order| && order[i] == e;
      assert b[i + 2] == (e, Num(records[e].balance));
      forall j | 0 <= j < i + 2
        ensures b[j].0 != e
      {
        if j >= 2 {
          assert b[j].0 == order[j - 2];
        }
      }
      LookupAt(b, i + 2);
    }
  }

  lemma {:induction false} PutAppends(d: seq<(string, Cell)>, k: string, v: Cell)
    requires forall i :: 0 <= i < |d| ==> d[i].0 != k
    ensures Put(d, k, v) == d + [(k, v)]
    decreases |d|
  {
    if d != [] {
      PutAppends(d[1..], k, v);
      assert [d[0]] + (d[1..] + [(k, v)]) == d + [(k, v)];
    }
  }

  /** `netliq` equals the sum of the per-exchange balance entries of the same
      object, and there is one such entry per exchange. */
  lemma NetliqIsSumOfEntries(records: map<string, Record>, order: seq<string>, stamp: Stamp, s: Snapshot)
    requires forall e :: e in order ==> e in records
    requires Distinct(order) && NetliqKey !in order && DateKey !in order
    requires SnapshotOf(records, order, stamp) == Ok(s)
    ensures Lookup(s.balance, NetliqKey) == Some(Num(Sum(Balances(records, order))))
    ensures |s.balance| == |order| + 2
    ensures forall i :: 2 <= i < |s.balance| ==> s.balance[i].1 == Num(Balances(records, order)[i - 2])
  {
    BalanceObjectShape(records, order, Sum(Balances(records, order)), stamp);
  }

  lemma {:induction false} FlattenErrorSticks(records: map<string, Record>, order: seq<string>, i: nat, stamp: Stamp)
    requires forall e :: e in order ==> e in records
    requires i <= |order| && Flatten(records, order[..i], stamp).Err?
    ensures Flatten(records, order, stamp) == Flatten(records, order[..i], stamp)
    decreases |order| - i
  {
    if i < |order| {
      assert order[..i + 1][..i] == order[..i];
      FlattenErrorSticks(records, order, i + 1, stamp);
    } else {
      assert order[..i] == order;
    }
  }

  /** The loop of `__get_object_to_send`: per exchange, assign its balance entry,
      then extend the date and Exchange columns by `len(Symbol)` and the four data
      columns by the exchange's own; a missing column aborts with its name. */
  method Merge(recs: map<string, Record>, order: seq<string>, stamp: Stamp) returns (r: Result<Snapshot, string>)
    requires forall e :: e in order ==> e in recs
    ensures r == SnapshotOf(recs, order, stamp)
  {
    var netliq := Sum(Balances(recs, order));
    var balance := BalanceHead(netliq, stamp);
    var cols := NoPositions;
    var i := 0;
    while i < |order|
      invariant 0 <= i <= |order|
      invariant balance == BalanceEntries(recs, order[..i], BalanceHead(netliq, stamp))
      invariant Flatten(recs, order[..i], stamp) == Ok(cols)
    {
      var e := order[i];
      var data := recs[e].position;
      assert order[..i + 1][..i] == order[..i];
      balance := Put(balance, e, Num(recs[e].balance));
      var missing := MissingColumn(data);
      if missing.Some? {
        FlattenErrorSticks(recs, order, i + 1, stamp);
        return Err(missing.value);
      }
      var n := |data[SymbolKey]|;
      cols := Positions(cols.date + Repeat(When(stamp), n), cols.exchange + Repeat(Text(e), n),
                        cols.symbol + data[SymbolKey], cols.multiplier + data[MultiplierKey],
                        cols.quantity + data[QuantityKey], cols.dollar + data[DollarKey]);
      i := i + 1;
    }
    assert order[..i] == order;
    return Ok(Snapshot(balance, cols));
  }

  // ---------------------------------------------------------------------------
  // The mutable state

  class ExchangeData {
    var balance: real
    var position: map<string, seq<Cell>>
    var lastFetchTimestamp: real

    function Rec(): Record
      reads this
    {
      Record(balance, position, lastFetchTimestamp)
    }

    /** The explicit construction used for an exchange's first message. */
    constructor (value: real, data: map<string, seq<Cell>>, now: real)
      ensures Rec() == Record(value, data, now)
    {
      balance := value;
      position := data;
      lastFetchTimestamp := now;
    }

    method UpdateBalance(value: real)
      modifies this
      ensures Rec() == old(Rec()).(balance := value)
    {
      balance := value;
    }

    /** Overwrites the columns present in `value`, one key at a time. */
    method UpdatePosition(value: map<string, seq<Cell>>)
      modifies this
      ensures Rec() == old(Rec()).(position := old(position) + value)
    {
      var pending := value.Keys;
      while pending != {}
        invariant pending <= value.Keys
        invariant balance == old(balance) && lastFetchTimestamp == old(lastFetchTimestamp)
        invariant position == old(position) + Restrict(value, value.Keys - pending)
        decreases pending
      {
        var key :| key in pending;
        position := position[key := value[key]];
        pending := pending - {key};
      }
      assert Restrict(value, value.Keys) == value;
    }

    method Update(msg: Message, now: real)
      modifies this
      ensures Rec() == Record(msg.balance, old(position) + msg.positions, now)
    {
      UpdateBalance(msg.balance);
      UpdatePosition(msg.positions);
      lastFetchTimestamp := now;
    }
  }

  class AggregatedData {
    const aggregationInterval: int
    /** The keys of the configured fetcher routes. */
    const fetcherRoutes: set<string>
    var date: Option<Stamp>
    var netliq: real
    /** Insertion order of the `exchanges` dict. */
    var order: seq<string>
    var exchanges: map<string, ExchangeData>
    ghost var Repr: set<ExchangeData>

    ghost predicate Valid()
      reads this, Repr
    {
      (forall e :: e in exchanges ==> exchanges[e] in Repr)
      && (forall e, f :: e in exchanges && f in exchanges && e != f ==> exchanges[e] != exchanges[f])
      && Distinct(order)
      && (forall e :: e in exchanges <==> e in order)
    }

    function Records(): (r: map<string, Record>)
      requires Valid()
      reads this, Repr
      ensures r.Keys == exchanges.Keys
      ensures forall e :: e in exchanges ==> r[e] == exchanges[e].Rec()
    {
      map e | e in exchanges :: exchanges[e].Rec()
    }

    constructor (interval: int, routes: set<string>)
      ensures Valid() && fresh(Repr)
      ensures aggregationInterval == interval && fetcherRoutes == routes
      ensures date == None && netliq == 0.0 && order == [] && exchanges == map[]
    {
      aggregationInterval := interval;
      fetcherRoutes := routes;
      date := None;
      netliq := 0.0;
      order := [];
      exchanges := map[];
      Repr := {};
    }

    /** `__get_object_to_send`: records the emission time and the total, then merges
        the records (the date and total are stored even when a missing column then
        raises). */
    method GetObjectToSend(stamp: Stamp) returns (r: Result<Snapshot, string>)
      requires Valid()
      modifies this
      ensures Valid() && Repr == old(Repr) && exchanges == old(exchanges) && order == old(order)
      ensures Records() == old(Records())
      ensures date == Some(stamp) && netliq == Sum(Balances(Records(), order))
      ensures r == SnapshotOf(Records(), order, stamp)
    {
      var recs := Records();
      date := Some(stamp);
      netliq := Sum(Balances(recs, order));
      r := Merge(recs, order, stamp);
    }

    /** `get_object_if_ready`: `Ok(None)` when not ready, the snapshot when ready,
        `Err` for the `ValueError` of an empty route set or a missing column. */
    method GetObjectIfReady(now: real, clock: LocalClock, stamp: Stamp) returns (r: Result<Option<Snapshot>, string>)
      requires Valid()
      modifies this
      ensures Valid() && Repr == old(Repr) && exchanges == old(exchanges) && order == old(order)
      ensures Records() == old(Records())
      ensures match CanSend(aggregationInterval, fetcherRoutes, old(date), Records(), order, now, clock)
        case Err(m) => r == Err(m) && date == old(date) && netliq == old(netliq)
        case Ok(false) => r == Ok(None) && date == old(date) && netliq == old(netliq)
        case Ok(true) =>
          date == Some(stamp) && netliq == Sum(Balances(Records(), order))
          && r == match SnapshotOf(Records(), order, stamp)
                  case Err(k) => Err(k)
                  case Ok(s) => Ok(Some(s))
    {
      var ready := CanSend(aggregationInterval, fetcherRoutes, date, Records(), order, now, clock);
      match ready {
        case Err(m) => r := Err(m);
        case Ok(b) =>
          if b {
            var s := GetObjectToSend(stamp);
            r := match s case Err(k) => Err(k) case Ok(v) => Ok(Some(v));
          } else {
            r := Ok(None);
          }
      }
    }

    /** Stores one message: a new exchange gets a fresh record appended to the
        dict, a known one is updated in place. */
    method Store(msg: Message, fetchTime: real)
      requires Valid()
      modifies this, Repr
      ensures Valid() && date == old(date) && netliq == old(netliq)
      ensures Records() == Ingest(old(Records()), msg, fetchTime)
      ensures order == Appended(old(order), msg.exchange)
    {
      if msg.exchange !in exchanges {
        AddExchange(msg, fetchTime);
      } else {
        RefreshExchange(msg, fetchTime);
      }
    }

    /** A message from an exchange not seen before: a fresh record, appended. */
    method AddExchange(msg: Message, fetchTime: real)
      requires Valid() && msg.exchange !in exchanges
      modifies this
      ensures Valid() && date == old(date) && netliq == old(netliq)
      ensures Records() == Ingest(old(Records()), msg, fetchTime)
      ensures order == old(order) + [msg.exchange]
    {
      ghost var before := Records();
      var name := msg.exchange;
      var record := new ExchangeData(msg.balance, msg.positions, fetchTime);
      exchanges := exchanges[name := record];
      order := order + [name];
      Repr := Repr + {record};
      assert Valid();
      forall e | e in exchanges
        ensures Records()[e] == Ingest(before, msg, fetchTime)[e]
      {
        if e != name {
          assert exchanges[e] == old(exchanges[e]);
        }
      }
      assert Records() == Ingest(before, msg, fetchTime);
    }

    /** A message from a known exchange: its record is updated in place. */
    method RefreshExchange(msg: Message, fetchTime: real)
      requires Valid() && msg.exchange in exchanges
      modifies Repr
      ensures Valid()
      ensures Records() == Ingest(old(Records()), msg, fetchTime)
    {
      ghost var before := Records();
      var name := msg.exchange;
      var record := exchanges[name];
      record.Update(msg, fetchTime);
      forall e | e in exchanges
        ensures Records()[e] == Ingest(before, msg, fetchTime)[e]
      {
        if e != name {
          assert exchanges[e] != record;
        }
      }
      assert Records() == Ingest(before, msg, fetchTime);
    }

    /** One pass of the receive loop: store the message, then publish the
        snapshot if ready. */
    method Receive(msg: Message, fetchTime: real, now: real, clock: LocalClock, stamp: Stamp)
      returns (r: Result<Option<Snapshot>, string>)
      requires Valid()
      modifies this, Repr
      ensures Valid()
      ensures Records() == Ingest(old(Records()), msg, fetchTime)
      ensures order == Appended(old(order), msg.exchange)
      ensures match CanSend(aggregationInterval, fetcherRoutes, old(date), Records(), order, now, clock)
        case Err(m) => r == Err(m) && date == old(date)
        case Ok(false) => r == Ok(None) && date == old(date)
        case Ok(true) =>
          date == Some(stamp)
          && r == match SnapshotOf(Records(), order, stamp)
                  case Err(k) => Err(k)
                  case Ok(s) => Ok(Some(s))
    {
      Store(msg, fetchTime);
      r := GetObjectIfReady(now, clock, stamp);
    }
  }
}
