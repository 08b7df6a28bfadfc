/** The time-weighted return study of `monitor/portfolio_monitor/returns_study.py`:
    the ledger's net amount per day (for one exchange, or for the whole
    portfolio), the daily-return rule with its one-row cache, and the
    compounding of daily returns into a time-weighted return in percent.

    Dates are time stamps; the balance file's are truncated to the
    midnight of their day, as the ledger's already are. For one exchange the
    rows are Python floats, so a zero divisor raises `ZeroDivisionError`; for
    the portfolio the division is pandas', which gives NaN or an infinity. */
module ReturnsStudy {
  import opened Common
  import S = ShareStudy

  function Abs(x: real): (r: real)
    ensures r >= 0.0 && (r == x || r == -x)
  {
    if x < 0.0 then -x else x
  }

  // ---------------------------------------------------------------------------
  // Net amounts per exchange

  /** A ledger row moves money into or out of the exchange. */
  predicate Touches(f: S.Flow, exchange: string)
  {
    f.fromExchange == Some(exchange) || f.toExchange == Some(exchange)
  }

  /** The `exchange` column of a kept row: its destination when that is
      the exchange, otherwise its source. */
  function ExchangeOf(f: S.Flow, exchange: string): (r: Option<string>)
    ensures Touches(f, exchange) ==> r == Some(exchange)
  {
    if f.toExchange == Some(exchange) then f.toExchange else f.fromExchange
  }

  /** The `net_amount` column: money arriving at the exchange counts as
      positive whatever its recorded sign; any other row keeps its sign. */
  function NetAmount(f: S.Flow, exchange: string): real
  {
    if f.toExchange == Some(exchange) then Abs(f.amount) else f.amount
  }

  /** The ledger rows that touch the exchange, in ledger order. */
  function Kept(flows: seq<S.Flow>, exchange: string): (r: seq<S.Flow>)
    ensures |r| <= |flows|
    ensures forall f :: f in r <==> f in flows && Touches(f, exchange)
  {
    if flows == [] then []
    else
      var init := flows[..|flows| - 1];
      var last := flows[|flows| - 1];
      assert forall f :: f in flows <==> f in init || f == last;
      Kept(init, exchange) + (if Touches(last, exchange) then [last] else [])
  }

  /** The group of (date `d`, exchange) after `groupby(['date', 'exchange'])`:
      the sum of its net amounts. */
  function GroupSum(kept: seq<S.Flow>, exchange: string, d: int): real
  {
    if kept == [] then 0.0
    else
      var last := kept[|kept| - 1];
      GroupSum(kept[..|kept| - 1], exchange, d) +
        (if last.date == d && ExchangeOf(last, exchange) == Some(exchange) then NetAmount(last, exchange) else 0.0)
  }

  /** `get_transaction_data_per_exchange`, read on day `d`; a day without a
      group reads 0 after the merge's `fillna(0)`. */
  function ExchangeNet(flows: seq<S.Flow>, exchange: string, d: int): real
  {
    GroupSum(Kept(flows, exchange), exchange, d)
  }

  /** A row's share of the exchange's net amount on day `d`. */
  function ExchangeShare(f: S.Flow, exchange: string, d: int): real
  {
    if Touches(f, exchange) && f.date == d then NetAmount(f, exchange) else 0.0
  }

  lemma {:induction false} GroupSumAppend(a: seq<S.Flow>, b: seq<S.Flow>, exchange: string, d: int)
    ensures GroupSum(a + b, exchange, d) == GroupSum(a, exchange, d) + GroupSum(b, exchange, d)
    decreases |b|
  {
    if b != [] {
      var init := b[..|b| - 1];
      assert (a + b)[..|a + b| - 1] == a + init;
      GroupSumAppend(a, init, exchange, d);
    } else {
      assert a + b == a;
    }
  }

  lemma KeptAppend(a: seq<S.Flow>, f: S.Flow, exchange: string)
    ensures Kept(a + [f], exchange) == Kept(a, exchange) + (if Touches(f, exchange) then [f] else [])
  {
    assert (a + [f])[..|a|] == a;
  }

  /** Appending a ledger row adds its share to the day's net amount: the
      net amount of an exchange on a day is the sum, over every ledger row
      of that day touching the exchange, of what arrived (as a positive
      amount) or what left (with its recorded sign); grouping also by the
      `exchange` column splits nothing. */
  lemma ExchangeNetAppend(flows: seq<S.Flow>, f: S.Flow, exchange: string, d: int)
    ensures ExchangeNet(flows + [f], exchange, d) == ExchangeNet(flows, exchange, d) + ExchangeShare(f, exchange, d)
  {
    KeptAppend(flows, f, exchange);
    var extra := if Touches(f, exchange) then [f] else [];
    GroupSumAppend(Kept(flows, exchange), extra, exchange, d);
    if Touches(f, exchange) {
      assert extra[..0] == [];
    }
  }

  /** With no ledger row of that day touching the exchange, its net amount
      is 0. */
  lemma {:induction false} ExchangeNetNone(flows: seq<S.Flow>, exchange: string, d: int)
    requires forall i :: 0 <= i < |flows| ==> !(Touches(flows[i], exchange) && flows[i].date == d)
    ensures ExchangeNet(flows, exchange, d) == 0.0
    decreases |flows|
  {
    if flows != [] {
      var init := flows[..|flows| - 1];
      ExchangeNetNone(init, exchange, d);
      ExchangeNetAppend(init, flows[|flows| - 1], exchange, d);
      assert init + [flows[|flows| - 1]] == flows;
    }
  }

  // ---------------------------------------------------------------------------
  // Net amounts of the whole portfolio

  /** A row with no source or no destination moves money across the
      portfolio's boundary; a transfer between two exchanges does not. */
  predicate External(f: S.Flow)
  {
    f.fromExchange.None? || f.toExchange.None?
  }

  /** `get_transaction_data_portfolio`, read on day `d`: the recorded
      amounts of that day's external rows. */
  function PortfolioNet(flows: seq<S.Flow>, d: int): real
  {
    if flows == [] then 0.0
    else
      var last := flows[|flows| - 1];
      PortfolioNet(flows[..|flows| - 1], d) + (if External(last) && last.date == d then last.amount else 0.0)
  }

  /** The portfolio's net amount is additive over the ledger, and a
      transfer between two exchanges adds nothing to it. */
  lemma {:induction false} PortfolioNetAppend(a: seq<S.Flow>, b: seq<S.Flow>, d: int)
    ensures PortfolioNet(a + b, d) == PortfolioNet(a, d) + PortfolioNet(b, d)
    ensures |b| == 1 && !External(b[0]) ==> PortfolioNet(a + b, d) == PortfolioNet(a, d)
    decreases |b|
  {
    if b != [] {
      var init := b[..|b| - 1];
      assert (a + b)[..|a + b| - 1] == a + init;
      PortfolioNetAppend(a, init, d);
      if |b| == 1 {
        assert init == [];
      }
    } else {
      assert a + b == a;
    }
  }

  // ---------------------------------------------------------------------------
  // The merged table

  /** A balance row: its date and its columns (`netliq` and one per
      exchange, lower-case). */
  datatype Balance = Balance(date: int, columns: map<string, real>)

  /** A row of the merged table: the date, the netliq read and the day's
      net amount. */
  datatype Row = Row(date: int, netliq: real, net: real)

  const NetliqColumn: string := "netliq"
  const ZeroDivisionError: string := "ZeroDivisionError"

  /** The netliq column read: the exchange's own column, or `netliq`. */
  function Column(exchange: Option<string>): string
  {
    if exchange.Some? then Lower(exchange.value) else NetliqColumn
  }

  /** The day's net amount for the exchange (named in any case), or for
      the portfolio. */
  function NetOn(flows: seq<S.Flow>, exchange: Option<string>, d: int): real
  {
    if exchange.Some? then ExchangeNet(flows, Upper(exchange.value), d) else PortfolioNet(flows, d)
  }

  /** The balance rows dated on or after `start`, in file order. */
  function Selected(balances: seq<Balance>, start: int): (r: seq<Balance>)
    ensures |r| <= |balances|
    ensures forall b :: b in r <==> b in balances && b.date >= start
  {
    if balances == [] then []
    else
      var init := balances[..|balances| - 1];
      var b := balances[|balances| - 1];
      assert forall x :: x in balances <==> x in init || x == b;
      Selected(init, start) + (if b.date >= start then [b] else [])
  }

  predicate DateOrdered(bs: seq<Balance>)
  {
    forall i, j :: 0 <= i < j < |bs| ==> bs[i].date <= bs[j].date
  }

  /** Selecting keeps the file's order: a file in date order gives the
      selected rows in date order. */
  lemma {:induction false} SelectedOrdered(balances: seq<Balance>, start: int)
    requires DateOrdered(balances)
    ensures DateOrdered(Selected(balances, start))
    decreases |balances|
  {
    if balances != [] {
      var init := balances[..|balances| - 1];
      var b := balances[|balances| - 1];
      assert DateOrdered(init);
      SelectedOrdered(init, start);
      var s := Selected(init, start);
      forall x | x in s
        ensures x.date <= b.date
      {
        var k :| 0 <= k < |init| && init[k] == x;
      }
    }
  }

  /** With every row on or after `start`, nothing is dropped. */
  lemma {:induction false} SelectedAll(balances: seq<Balance>, start: int)
    requires forall i :: 0 <= i < |balances| ==> balances[i].date >= start
    ensures Selected(balances, start) == balances
    decreases |balances|
  {
    if balances != [] {
      var init := balances[..|balances| - 1];
      SelectedAll(init, start);
      assert init + [balances[|balances| - 1]] == balances;
    }
  }

  /** The merged table: the balance rows from `start` on, in file order,
      each with its column and the net amount of its day; a balance row
      without the column is a `KeyError`. */
  function Merged(balances: seq<Balance>, flows: seq<S.Flow>, exchange: Option<string>, start: int): (r: Result<seq<Row>, string>)
    ensures r.Err? <==> exists i :: 0 <= i < |balances| && Column(exchange) !in balances[i].columns
    ensures r.Err? ==> r.error == S.KeyError
    ensures r.Ok? ==> (var s := Selected(balances, start);
      |r.value| == |s| &&
      forall k :: 0 <= k < |s| ==> (Column(exchange) in s[k].columns &&
        r.value[k] == Row(s[k].date, s[k].columns[Column(exchange)], NetOn(flows, exchange, s[k].date))))
  {
    if balances == [] then Ok([])
    else
      var init := balances[..|balances| - 1];
      var b := balances[|balances| - 1];
      var col := Column(exchange);
      var r := Merged(init, flows, exchange, start);
      assert forall i :: 0 <= i < |init| ==> init[i] == balances[i];
      if col !in b.columns then Err(S.KeyError)
      else if r.Err? then r
      else Ok(r.value + (if b.date >= start then [Row(b.date, b.columns[col], NetOn(flows, exchange, b.date))] else []))
  }

  // ---------------------------------------------------------------------------
  // Daily returns of one exchange

  /** `a / c - 1` on Python floats: a zero divisor raises. */
  function Ratio(a: real, c: real): (r: Result<real, string>)
    ensures r.Err? <==> c == 0.0
    ensures r.Err? ==> r.error == ZeroDivisionError
  {
    if c == 0.0 then Err(ZeroDivisionError) else Ok(a / c - 1.0)
  }

  /** One plus the return, times the capital, is what the capital became;
      with positive capital the return is positive exactly when the
      capital grew. */
  lemma RatioSpec(a: real, c: real)
    ensures var r := Ratio(a, c);
      (r.Ok? ==> (1.0 + r.value) * c == a) &&
      (r.Ok? && c > 0.0 ==> (r.value > 0.0 <==> a > c))
  {
    if c != 0.0 {
      assert (a / c) * c == a;
      if c > 0.0 {
        assert a / c > 1.0 <==> a > c;
      }
    }
  }

  /** `compute_daily_returns` against the cached previous row: a deposit
      into an empty account is measured against the deposit; a near-empty
      account (netliq under 100) with money moving is measured as the
      amount moved against the previous netliq, and without money moving
      has a zero return; otherwise the netliq is measured against the
      previous netliq plus the day's net amount. */
  function Return(prev: Row, row: Row): Result<real, string>
  {
    if row.netliq > 0.0 && prev.netliq == 0.0 && row.net > 0.0 then Ratio(row.netliq, Abs(row.net))
    else if row.netliq < 100.0 && row.net != 0.0 then Ratio(Abs(row.net), prev.netliq)
    else if row.netliq < 100.0 then Ok(0.0)
    else Ratio(row.netliq, prev.netliq + row.net)
  }

  /** The capital a day's return is measured against, by the same cases. */
  function Capital(prev: Row, row: Row): real
  {
    if row.netliq > 0.0 && prev.netliq == 0.0 && row.net > 0.0 then Abs(row.net)
    else if row.netliq < 100.0 && row.net != 0.0 then prev.netliq
    else if row.netliq < 100.0 then 1.0
    else prev.netliq + row.net
  }

  /** What that capital became, by the same cases. */
  function Outcome(prev: Row, row: Row): real
  {
    if row.netliq > 0.0 && prev.netliq == 0.0 && row.net > 0.0 then row.netliq
    else if row.netliq < 100.0 && row.net != 0.0 then Abs(row.net)
    else if row.netliq < 100.0 then 1.0
    else row.netliq
  }

  /** A day's return raises `ZeroDivisionError` exactly when its capital is
      zero; otherwise one plus the return, times the capital, is what the
      capital became, and with positive capital the return is positive
      exactly when the capital grew. */
  lemma ReturnSpec(prev: Row, row: Row)
    ensures var r := Return(prev, row);
      (r.Err? <==> Capital(prev, row) == 0.0) &&
      (r.Err? ==> r.error == ZeroDivisionError) &&
      (r.Ok? ==> (1.0 + r.value) * Capital(prev, row) == Outcome(prev, row)) &&
      (r.Ok? && Capital(prev, row) > 0.0 ==> (r.value > 0.0 <==> Outcome(prev, row) > Capital(prev, row)))
  {
    assert Return(prev, row) == Ratio(Outcome(prev, row), Capital(prev, row));
    RatioSpec(Outcome(prev, row), Capital(prev, row));
  }

  lemma ZeroGrowth(x: real, c: real)
    requires c != 0.0 && (1.0 + x) * c == c
    ensures x == 0.0
  {
    assert x * c == 0.0;
  }

  /** A day whose change is only money moving has a zero return: a first
      deposit into an empty account, a deposit or withdrawal that the
      netliq follows exactly, the whole balance withdrawn, or a near-empty
      account with nothing moving. */
  lemma CashOnlyDay(prev: Row, row: Row)
    ensures row.netliq > 0.0 && prev.netliq == 0.0 && row.net > 0.0 && row.netliq == row.net ==>
      Return(prev, row) == Ok(0.0)
    ensures row.netliq >= 100.0 && row.netliq == prev.netliq + row.net && row.netliq != 0.0 ==>
      Return(prev, row) == Ok(0.0)
    ensures row.netliq < 100.0 && row.net != 0.0 && prev.netliq != 0.0 && Abs(row.net) == prev.netliq ==>
      Return(prev, row) == Ok(0.0)
    ensures row.netliq < 100.0 && row.net == 0.0 ==> Return(prev, row) == Ok(0.0)
  {
    ReturnSpec(prev, row);
    var c := Capital(prev, row);
    if Outcome(prev, row) == c && c != 0.0 {
      ZeroGrowth(Return(prev, row).value, c);
    }
  }

  /** The previous row read by `compute_daily_returns`: the cached one, or
      the row itself on the first call. */
  function Previous(cache: Option<Row>, row: Row): Row
  {
    if cache.None? then row else cache.value
  }

  /** The state after a run of calls: the returns so far, or the error that
      ended the run, and the cached row. */
  datatype Run = Run(out: Result<seq<real>, string>, cache: Option<Row>)

  /** A run of calls starting from `cache`. A call that raises has already
      cached its row when the cache was empty, and ends the run. */
  function RunFrom(cache: Option<Row>, rows: seq<Row>): Run
  {
    if rows == [] then Run(Ok([]), cache)
    else
      var p := RunFrom(cache, rows[..|rows| - 1]);
      var row := rows[|rows| - 1];
      if p.out.Err? then p
      else
        var prev := Previous(p.cache, row);
        var r := Return(prev, row);
        if r.Err? then Run(Err(r.error), Some(prev))
        else Run(Ok(p.out.value + [r.value]), Some(row))
  }

  /** An error ends the run: later rows change nothing. */
  lemma {:induction false} RunStops(cache: Option<Row>, rows: seq<Row>, k: nat)
    requires k <= |rows| && RunFrom(cache, rows[..k]).out.Err?
    ensures RunFrom(cache, rows) == RunFrom(cache, rows[..k])
    decreases |rows|
  {
    if k < |rows| {
      var init := rows[..|rows| - 1];
      assert init[..k] == rows[..k];
      RunStops(cache, init, k);
    } else {
      assert rows[..k] == rows;
    }
  }

  /** The row day `i` is measured against, from an empty cache: the row
      before it, or the first row itself. */
  function Before(rows: seq<Row>, i: nat): Row
    requires i < |rows|
  {
    if i == 0 then rows[0] else rows[i - 1]
  }

  /** From an empty cache, the run raises `ZeroDivisionError` exactly when
      some day has a zero capital against the row before it (the first day
      against itself); otherwise it yields each day's return, in order. */
  lemma {:induction false} ReturnsIndex(rows: seq<Row>)
    ensures var run := RunFrom(None, rows);
      (run.out.Err? <==> exists i :: 0 <= i < |rows| && Return(Before(rows, i), rows[i]).Err?) &&
      (run.out.Err? ==> run.out.error == ZeroDivisionError) &&
      (run.out.Ok? ==> (|run.out.value| == |rows| &&
        (rows != [] ==> run.cache == Some(rows[|rows| - 1])) &&
        forall i :: 0 <= i < |rows| ==> Return(Before(rows, i), rows[i]) == Ok(run.out.value[i])))
    decreases |rows|
  {
    if rows != [] {
      var init := rows[..|rows| - 1];
      var last := |rows| - 1;
      ReturnsIndex(init);
      var p := RunFrom(None, init);
      if p.out.Err? {
        var i :| 0 <= i < |init| && Return(Before(init, i), init[i]).Err?;
        BeforeInit(rows, i);
      } else {
        assert Previous(p.cache, rows[last]) == Before(rows, last);
        ReturnSpec(Before(rows, last), rows[last]);
        var r := Return(Before(rows, last), rows[last]);
        if r.Ok? {
          ReturnsAppend(rows, p.out.value, r.value);
        }
      }
    }
  }

  lemma BeforeInit(rows: seq<Row>, i: nat)
    requires i < |rows| - 1
    ensures Before(rows[..|rows| - 1], i) == Before(rows, i) && rows[..|rows| - 1][i] == rows[i]
  {
  }

  /** The step of `ReturnsIndex` where the last day does not raise. */
  lemma ReturnsAppend(rows: seq<Row>, prior: seq<real>, x: real)
    requires rows != [] && |prior| == |rows| - 1
    requires forall i :: 0 <= i < |prior| ==> Return(Before(rows[..|rows| - 1], i), rows[..|rows| - 1][i]) == Ok(prior[i])
    requires Return(Before(rows, |rows| - 1), rows[|rows| - 1]) == Ok(x)
    ensures forall i :: 0 <= i < |rows| ==> Return(Before(rows, i), rows[i]) == Ok((prior + [x])[i])
  {
    forall i | 0 <= i < |rows|
      ensures Return(Before(rows, i), rows[i]) == Ok((prior + [x])[i])
    {
      if i < |prior| {
        BeforeInit(rows, i);
      }
    }
  }

  // ---------------------------------------------------------------------------
  // Daily returns of the portfolio

  /** A daily return as pandas holds it: a finite number, NaN (no previous
      row, or 0 / 0) or an infinity (a non-zero netliq over a zero sum). */
  datatype Daily = Finite(rate: real) | NaN | Infinite

  /** `netliq / (previous netliq + net) - 1` in pandas. */
  function Quotient(a: real, c: real): (d: Daily)
    ensures d.Finite? <==> c != 0.0
  {
    if c != 0.0 then Finite(a / c - 1.0) else if a == 0.0 then NaN else Infinite
  }

  /** The portfolio's returns: the first is NaN (`shift(1)` has no previous
      row), every later one is the netliq against the previous netliq plus
      the day's net amount. */
  function PortfolioReturns(rows: seq<Row>): (r: seq<Daily>)
    ensures |r| == |rows|
    ensures rows != [] ==> r[0].NaN?
  {
    seq(|rows|, i requires 0 <= i < |rows| =>
      if i == 0 then NaN else Quotient(rows[i].netliq, rows[i - 1].netliq + rows[i].net))
  }

  /** A later portfolio return is finite exactly when the previous netliq
      plus the day's net amount is not zero, and then one plus it, times
      that sum, is the day's netliq; a zero sum gives NaN over a zero netliq
      and an infinity otherwise. */
  lemma PortfolioReturnAt(rows: seq<Row>, i: nat)
    requires 1 <= i < |rows|
    ensures var r := PortfolioReturns(rows)[i];
      var base := rows[i - 1].netliq + rows[i].net;
      (r.Finite? <==> base != 0.0) &&
      (r.Finite? ==> (1.0 + r.rate) * base == rows[i].netliq) &&
      (r.NaN? <==> base == 0.0 && rows[i].netliq == 0.0)
  {
    var base := rows[i - 1].netliq + rows[i].net;
    if base != 0.0 {
      assert (rows[i].netliq / base) * base == rows[i].netliq;
    }
  }

  /** Returns that are all finite. */
  function Finites(xs: seq<real>): (r: seq<Daily>)
    ensures |r| == |xs| && forall i :: 0 <= i < |xs| ==> r[i] == Finite(xs[i])
  {
    seq(|xs|, i requires 0 <= i < |xs| => Finite(xs[i]))
  }

  // ---------------------------------------------------------------------------
  // Compounding

  /** The cumulative product of (1 + r) over the finite returns: like
      `cumprod`, a NaN is skipped, not carried forward. */
  function Growth(rs: seq<Daily>): real
  {
    if rs == [] then 1.0
    else
      var g := Growth(rs[..|rs| - 1]);
      var d := rs[|rs| - 1];
      if d.Finite? then Compound(g, d.rate) else g
  }

  /** Some return so far is infinite: from then on the product `cumprod`
      carries is an infinity or NaN. */
  predicate Blown(rs: seq<Daily>)
  {
    rs != [] && (Blown(rs[..|rs| - 1]) || rs[|rs| - 1].Infinite?)
  }

  lemma {:induction false} BlownSpec(rs: seq<Daily>)
    ensures Blown(rs) <==> exists j :: 0 <= j < |rs| && rs[j].Infinite?
    decreases |rs|
  {
    if rs != [] {
      var init := rs[..|rs| - 1];
      BlownSpec(init);
      assert forall j :: 0 <= j < |init| ==> init[j] == rs[j];
    }
  }

  /** A growth factor carried over one more day's return. */
  function Compound(g: real, r: real): real
  {
    g * (1.0 + r)
  }

  /** A return in percent as a growth factor. */
  function Factor(percent: real): real
  {
    1.0 + percent / 100.0
  }

  /** A growth factor as a return in percent. */
  function Percent(g: real): (t: real)
    ensures Factor(t) == g
  {
    (g - 1.0) * 100.0
  }

  /** The `daily_twr` column, `None` where it is not a finite number: NaN on
      a day whose return is NaN (`cumprod` leaves it in place), an infinity
      or NaN from the first infinite return on, and otherwise the
      cumulative growth less one, in percent. */
  function Twr(rs: seq<Daily>): (t: seq<Option<real>>)
    ensures |t| == |rs|
  {
    if rs == [] then []
    else Twr(rs[..|rs| - 1]) + [if rs[|rs| - 1].Finite? && !Blown(rs) then Some(Percent(Growth(rs))) else None]
  }

  /** Each day's entry is the growth of the returns up to that day. */
  lemma {:induction false} TwrAt(rs: seq<Daily>, i: nat)
    requires i < |rs|
    ensures Twr(rs)[i] == if rs[i].Finite? && !Blown(rs[..i + 1]) then Some(Percent(Growth(rs[..i + 1]))) else None
    decreases |rs|
  {
    var init := rs[..|rs| - 1];
    if i < |init| {
      TwrAt(init, i);
      assert init[..i + 1] == rs[..i + 1];
      assert Twr(rs)[i] == Twr(init)[i];
    } else {
      assert rs[..i + 1] == rs;
    }
  }

  /** One more day multiplies the growth by one plus its return, or leaves
      it when the return is not finite. */
  lemma GrowthStep(rs: seq<Daily>, i: nat)
    requires i < |rs|
    ensures Growth(rs[..i + 1]) ==
      if rs[i].Finite? then Compound(Growth(rs[..i]), rs[i].rate) else Growth(rs[..i])
    ensures Blown(rs[..i + 1]) == (Blown(rs[..i]) || rs[i].Infinite?)
  {
    var p := rs[..i + 1];
    assert p[..|p| - 1] == rs[..i];
    assert p[|p| - 1] == rs[i];
  }

  /** A day's time-weighted return is a finite number exactly when its own
      return is and no return up to it is infinite: one infinite day makes
      every later entry non-finite. */
  lemma TwrDefined(rs: seq<Daily>, i: nat)
    requires i < |rs|
    ensures Twr(rs)[i].Some? <==> rs[i].Finite? && forall j :: 0 <= j <= i ==> !rs[j].Infinite?
  {
    TwrAt(rs, i);
    BlownSpec(rs[..i + 1]);
    assert forall j :: 0 <= j <= i ==> rs[..i + 1][j] == rs[j];
  }

  /** The first day's time-weighted return is its return in percent. */
  lemma {:induction false} TwrFirst(rs: seq<Daily>, r: real)
    requires |rs| > 0 && rs[0] == Finite(r)
    ensures Twr(rs)[0] == Some(r * 100.0)
  {
    assert rs[..1] == [Finite(r)];
    GrowthSingle(r);
    PercentOfOnePlus(r);
    TwrAt(rs, 0);
  }

  lemma GrowthSingle(r: real)
    ensures Growth([Finite(r)]) == 1.0 + r && !Blown([Finite(r)])
  {
    assert [Finite(r)][..0] == [];
  }

  lemma PercentOfOnePlus(r: real)
    ensures Percent(1.0 + r) == r * 100.0
  {
  }

  /** Each later day's growth factor is the previous day's times one plus
      the day's return, while no return so far is infinite. */
  lemma TwrStep(rs: seq<Daily>, i: nat)
    requires 1 <= i < |rs| && rs[i - 1].Finite? && rs[i].Finite? && !Blown(rs[..i + 1])
    ensures var t := Twr(rs);
      t[i].Some? && t[i - 1].Some? && Factor(t[i].value) == Compound(Factor(t[i - 1].value), rs[i].rate)
  {
    GrowthStep(rs, i);
    TwrAt(rs, i - 1);
    TwrAt(rs, i);
  }

  /** A NaN first return leaves the growth as if that day were absent. */
  lemma {:induction false} GrowthDropFirst(rs: seq<Daily>)
    requires |rs| > 0 && rs[0].NaN?
    ensures Growth(rs) == Growth(rs[1..]) && Blown(rs) == Blown(rs[1..])
    decreases |rs|
  {
    if |rs| > 1 {
      var init := rs[..|rs| - 1];
      GrowthDropFirst(init);
      assert init[1..] == rs[1..][..|rs[1..]| - 1];
    } else {
      assert rs[1..] == [];
      assert rs[..0] == [];
    }
  }

  /** A NaN first return (the portfolio's, which has no previous row) does
      not hold back the later time-weighted returns: from day 1 on they are
      those of the returns without day 0. */
  lemma TwrDropFirst(rs: seq<Daily>)
    requires |rs| > 0 && rs[0].NaN?
    ensures Twr(rs)[0].None?
    ensures forall i :: 1 <= i < |rs| ==> Twr(rs)[i] == Twr(rs[1..])[i - 1]
  {
    TwrAt(rs, 0);
    forall i | 1 <= i < |rs|
      ensures Twr(rs)[i] == Twr(rs[1..])[i - 1]
    {
      TwrDropFirstAt(rs, i);
    }
  }

  lemma TwrDropFirstAt(rs: seq<Daily>, i: nat)
    requires 1 <= i < |rs| && rs[0].NaN?
    ensures Twr(rs)[i] == Twr(rs[1..])[i - 1]
  {
    var tail := rs[1..];
    assert tail[i - 1] == rs[i];
    assert Growth(rs[..i + 1]) == Growth(tail[..i]) && Blown(rs[..i + 1]) == Blown(tail[..i]) by {
      assert tail[..i] == rs[..i + 1][1..];
      GrowthDropFirst(rs[..i + 1]);
    }
    TwrAt(rs, i);
    TwrAt(tail, i - 1);
  }

  /** Days with only zero or NaN returns keep every finite time-weighted
      return at 0. */
  lemma {:induction false} TwrFlat(rs: seq<Daily>)
    requires forall i :: 0 <= i < |rs| ==> rs[i].NaN? || rs[i] == Finite(0.0)
    ensures forall i :: 0 <= i < |rs| && rs[i].Finite? ==> Twr(rs)[i] == Some(0.0)
  {
    if rs != [] {
      var init := rs[..|rs| - 1];
      TwrFlat(init);
      GrowthFlat(rs);
      assert forall i :: 0 <= i < |init| ==> Twr(rs)[i] == Twr(init)[i];
    }
  }

  lemma {:induction false} GrowthFlat(rs: seq<Daily>)
    requires forall i :: 0 <= i < |rs| ==> rs[i].NaN? || rs[i] == Finite(0.0)
    ensures Growth(rs) == 1.0 && !Blown(rs)
  {
    if rs != [] {
      GrowthFlat(rs[..|rs| - 1]);
    }
  }

  // ---------------------------------------------------------------------------
  // construct_twr

  /** The table `construct_twr` returns. */
  datatype Study = Study(rows: seq<Row>, daily: seq<Daily>, twr: seq<Option<real>>)

  /** `construct_twr`: the merged rows from `start` on, their returns (by
      the cached rule for one exchange, which may raise, or by the
      vectorised formula for the portfolio) and the compounded return. */
  function Studied(balances: seq<Balance>, flows: seq<S.Flow>, exchange: Option<string>, start: int): Result<Study, string>
  {
    var m := Merged(balances, flows, exchange, start);
    if m.Err? then Err(m.error)
    else if exchange.Some? then
      var run := RunFrom(None, m.value);
      if run.out.Err? then Err(run.out.error)
      else
        var rs := Finites(run.out.value);
        Ok(Study(m.value, rs, Twr(rs)))
    else
      var rs := PortfolioReturns(m.value);
      Ok(Study(m.value, rs, Twr(rs)))
  }

  /** A study's columns line up row by row. For one exchange the study
      raises `ZeroDivisionError` exactly when some day's capital is zero,
      and otherwise each day's return is measured against the row before
      it; for the portfolio the first day is NaN and the later compounded
      returns are those of the later days alone. */
  lemma StudiedSpec(balances: seq<Balance>, flows: seq<S.Flow>, exchange: Option<string>, start: int)
    ensures var r := Studied(balances, flows, exchange, start);
      var m := Merged(balances, flows, exchange, start);
      (m.Err? ==> r == Err(S.KeyError)) &&
      (exchange.Some? && m.Ok? ==>
        (r.Err? <==> exists i :: 0 <= i < |m.value| && Capital(Before(m.value, i), m.value[i]) == 0.0) &&
        (r.Err? ==> r.error == ZeroDivisionError)) &&
      (r.Ok? ==> (r.value.rows == m.value && |r.value.daily| == |r.value.rows| && |r.value.twr| == |r.value.rows| &&
        (exchange.None? && r.value.rows != [] ==>
          r.value.daily[0].NaN? && r.value.twr[0].None? &&
          forall i :: 1 <= i < |r.value.rows| ==> r.value.twr[i] == Twr(r.value.daily[1..])[i - 1]) &&
        (exchange.Some? ==> forall i :: 0 <= i < |r.value.rows| ==>
          r.value.daily[i].Finite? && Return(Before(r.value.rows, i), r.value.rows[i]) == Ok(r.value.daily[i].rate))))
  {
    var m := Merged(balances, flows, exchange, start);
    if m.Ok? {
      var rows := m.value;
      if exchange.Some? {
        ReturnsIndex(rows);
        forall i | 0 <= i < |rows|
          ensures Return(Before(rows, i), rows[i]).Err? <==> Capital(Before(rows, i), rows[i]) == 0.0
        {
          ReturnSpec(Before(rows, i), rows[i]);
        }
      } else if rows != [] {
        TwrDropFirst(PortfolioReturns(rows));
      }
    }
  }

  /** The study object; its one field is the cached previous row of
      `compute_daily_returns`. */
  class ReturnStudy {
    var cache: Option<Row>

    constructor ()
      ensures cache.None?
    {
      cache := None;
    }

    /** `compute_daily_returns`: the row's return against the cached row,
        after which the row is cached; a zero divisor raises, leaving the
        cache as the first line of the call set it. */
    method DailyReturn(row: Row) returns (r: Result<real, string>)
      modifies this
      ensures r == Return(Previous(old(cache), row), row)
      ensures cache == if r.Ok? then Some(row) else Some(Previous(old(cache), row))
    {
      if cache.None? {
        cache := Some(row);
      }
      var prev := cache.value;
      if row.netliq > 0.0 && prev.netliq == 0.0 && row.net > 0.0 {
        r := Ok(row.netliq / Abs(row.net) - 1.0);
      } else if row.netliq < 100.0 && row.net != 0.0 {
        if prev.netliq == 0.0 {
          return Err(ZeroDivisionError);
        }
        r := Ok(Abs(row.net) / prev.netliq - 1.0);
      } else if row.netliq < 100.0 {
        r := Ok(0.0);
      } else {
        if prev.netliq + row.net == 0.0 {
          return Err(ZeroDivisionError);
        }
        r := Ok(row.netliq / (prev.netliq + row.net) - 1.0);
      }
      cache := Some(row);
    }

    /** The comprehension calling `compute_daily_returns` on each row in
        turn; the first call that raises ends it. */
    method DailyReturns(rows: seq<Row>) returns (rs: Result<seq<real>, string>)
      modifies this
      ensures rs == RunFrom(old(cache), rows).out
      ensures cache == RunFrom(old(cache), rows).cache
    {
      var acc: seq<real> := [];
      ghost var start := cache;
      for i := 0 to |rows|
        invariant RunFrom(start, rows[..i]) == Run(Ok(acc), cache)
      {
        assert rows[..i + 1][..i] == rows[..i];
        var r := DailyReturn(rows[i]);
        if r.Err? {
          assert RunFrom(start, rows[..i + 1]) == Run(Err(r.error), cache);
          RunStops(start, rows, i + 1);
          return Err(r.error);
        }
        acc := acc + [r.value];
      }
      assert rows[..|rows|] == rows;
      rs := Ok(acc);
    }

    /** `construct_twr`: the cache is emptied, then the study is built. */
    method ConstructTwr(balances: seq<Balance>, flows: seq<S.Flow>, exchange: Option<string>, start: int) returns (r: Result<Study, string>)
      modifies this
      ensures r == Studied(balances, flows, exchange, start)
    {
      cache := None;
      var m := Merged(balances, flows, exchange, start);
      if m.Err? {
        return Err(m.error);
      }
      var rs: seq<Daily>;
      if exchange.Some? {
        var daily := DailyReturns(m.value);
        if daily.Err? {
          return Err(daily.error);
        }
        rs := Finites(daily.value);
      } else {
        rs := PortfolioReturns(m.value);
      }
      r := Ok(Study(m.value, rs, Twr(rs)));
    }
  }
}
