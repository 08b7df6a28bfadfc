// Fund-unit accounting: the owner's initial capital buys units at a net asset
// value (NAV) of 1; every later deposit or withdrawal buys or sells units at
// the NAV of its date, the net liquidation value per unit outstanding.
//
// Dates are time stamps in seconds. A balance row keeps the time of day the
// aggregator wrote; a ledger row is dated at the midnight that starts its day
// (`Midnight`), so a ledger day and that day's balance snapshot are two
// different dates, the midnight coming first.

module ShareStudy {
  import opened Common

  // ---------------------------------------------------------------------------
  // Investors

  /** A row of an investor's unit history: the date (a time stamp), the
      units bought (negative when sold), and the units held afterwards. */
  datatype UnitRow = UnitRow(date: int, units: real, cumulative: real)

  /** An investor: the (lower-case) name, the units held, and the history. */
  datatype Investor = Investor(name: string, units: real, history: seq<UnitRow>)

  function NewInvestor(name: string): Investor
  {
    Investor(name, 0.0, [])
  }

  /** `Investor.update_units`: the units change, and a history row records
      the change and the new holding. */
  function UpdateUnits(inv: Investor, date: int, units: real): Investor
  {
    inv.(units := inv.units + units, history := inv.history + [UnitRow(date, units, inv.units + units)])
  }

  /** The sum of the unit changes of a history. */
  function Changes(h: seq<UnitRow>): real
  {
    if h == [] then 0.0 else Changes(h[..|h| - 1]) + h[|h| - 1].units
  }

  /** The holding is the sum of the recorded changes, and every row's
      cumulative units are the running total up to and including it. */
  predicate Consistent(inv: Investor)
  {
    inv.units == Changes(inv.history) &&
    forall i :: 0 <= i < |inv.history| ==> inv.history[i].cumulative == Changes(inv.history[..i + 1])
  }

  /** `update_units` keeps the history consistent with the holding: the old
      rows stay, and the new last row holds the change and the running total. */
  lemma UpdateUnitsSpec(inv: Investor, date: int, units: real)
    requires Consistent(inv)
    ensures var r := UpdateUnits(inv, date, units);
      Consistent(r) && r.name == inv.name && r.units == inv.units + units &&
      |r.history| == |inv.history| + 1 && r.history[..|inv.history|] == inv.history &&
      r.history[|inv.history|] == UnitRow(date, units, r.units)
  {
    var r := UpdateUnits(inv, date, units);
    assert r.history[..|r.history| - 1] == inv.history;
    forall i | 0 <= i < |r.history|
      ensures r.history[i].cumulative == Changes(r.history[..i + 1])
    {
      if i < |inv.history| {
        assert r.history[..i + 1] == inv.history[..i + 1];
      } else {
        assert r.history[..i + 1] == r.history;
      }
    }
  }

  // ---------------------------------------------------------------------------
  // The book

  /** A row of the NAV history. */
  datatype NavRow = NavRow(date: int, nav: real)

  /** The portfolio's state: investor keys in insertion order, the
      investors by key, the units outstanding, and the NAV history. */
  datatype Book = Book(names: seq<string>, investors: map<string, Investor>, total: real, navs: seq<NavRow>)

  const EmptyBook: Book := Book([], map[], 0.0, [])

  const FundName: string := "fund"
  const IndexError: string := "IndexError"
  const KeyError: string := "KeyError"
  const ZeroNav: string := "NAV is zero"

  /** `add_investor`: the name is lower-cased and a new investor with no
      units is added under it, unless one is already there. */
  function Added(b: Book, name: string): (r: Book)
    ensures Lower(name) in r.investors
  {
    var key := Lower(name);
    if key in b.investors then b
    else b.(names := b.names + [key], investors := b.investors[key := NewInvestor(key)])
  }

  /** The units held by the investors listed, in order. */
  function TotalOf(names: seq<string>, investors: map<string, Investor>): real
    requires forall k :: k in names ==> k in investors
  {
    if names == [] then 0.0 else TotalOf(names[..|names| - 1], investors) + investors[names[|names| - 1]].units
  }

  /** The book's invariant: every investor is listed once, under its own
      name, with a consistent history, and the units outstanding are the
      sum of all investors' units. */
  ghost predicate Valid(b: Book)
  {
    Distinct(b.names) &&
    (forall k :: k in b.names <==> k in b.investors) &&
    (forall k :: k in b.investors ==> b.investors[k].name == k && Consistent(b.investors[k])) &&
    b.total == TotalOf(b.names, b.investors)
  }

  /** The units a key holds, 0 for an unknown key. */
  function HeldBy(b: Book, key: string): real
  {
    if key in b.investors then b.investors[key].units else 0.0
  }

  lemma {:induction false} TotalOfSame(names: seq<string>, a: map<string, Investor>, b: map<string, Investor>)
    requires forall k :: k in names ==> k in a && k in b && a[k].units == b[k].units
    ensures TotalOf(names, a) == TotalOf(names, b)
  {
    if names != [] {
      TotalOfSame(names[..|names| - 1], a, b);
    }
  }

  /** Replacing one listed investor changes the sum by the change of its units. */
  lemma {:induction false} TotalOfChange(names: seq<string>, investors: map<string, Investor>, key: string, v: Investor)
    requires Distinct(names) && (forall k :: k in names ==> k in investors) && key in names
    ensures TotalOf(names, investors[key := v]) == TotalOf(names, investors) - investors[key].units + v.units
  {
    var init := names[..|names| - 1];
    var last := names[|names| - 1];
    if last == key {
      assert key !in init;
      TotalOfSame(init, investors[key := v], investors);
    } else {
      assert key in init;
      TotalOfChange(init, investors, key, v);
    }
  }

  /** `add_investor` keeps the invariant, the units outstanding and every
      existing investor; a new key starts with no units. */
  lemma AddedSpec(b: Book, name: string)
    requires Valid(b)
    ensures var r := Added(b, name);
      Valid(r) && r.total == b.total && r.navs == b.navs &&
      (forall k :: k in r.investors <==> k in b.investors || k == Lower(name)) &&
      (forall k :: k in b.investors ==> r.investors[k] == b.investors[k]) &&
      HeldBy(r, Lower(name)) == HeldBy(b, Lower(name))
  {
    var key := Lower(name);
    if key !in b.investors {
      var r := Added(b, name);
      var newcomer := NewInvestor(key);
      assert r.names == b.names + [key] && r.investors == b.investors[key := newcomer];
      assert key !in b.names;
      assert Distinct(r.names) by {
        forall i, j | 0 <= i < j < |r.names|
          ensures r.names[i] != r.names[j]
        {
          if j == |b.names| {
            assert r.names[i] == b.names[i];
          }
        }
      }
      assert forall k :: k in r.names <==> k in b.names || k == key;
      assert Consistent(newcomer);
      assert r.names[..|r.names| - 1] == b.names;
      TotalOfSame(b.names, r.investors, b.investors);
      assert TotalOf(r.names, r.investors) == TotalOf(b.names, r.investors) + newcomer.units;
    }
  }

  /** The units a flow moves credited to one key. */
  function Credited(b: Book, key: string, date: int, units: real): Book
    requires key in b.investors
  {
    b.(investors := b.investors[key := UpdateUnits(b.investors[key], date, units)], total := b.total + units)
  }

  /** Crediting keeps the invariant: the key and the units outstanding
      both move by the same amount, and no one else changes. */
  lemma CreditedSpec(b: Book, key: string, date: int, units: real)
    requires Valid(b) && key in b.investors
    ensures var r := Credited(b, key, date, units);
      Valid(r) && r.names == b.names && r.navs == b.navs && r.investors.Keys == b.investors.Keys &&
      r.investors[key].units == b.investors[key].units + units && r.total == b.total + units &&
      (forall k :: k in b.investors && k != key ==> r.investors[k] == b.investors[k])
  {
    UpdateUnitsSpec(b.investors[key], date, units);
    TotalOfChange(b.names, b.investors, key, UpdateUnits(b.investors[key], date, units));
  }

  // ---------------------------------------------------------------------------
  // Cash flows

  /** A row of the deposit and withdrawal ledger: its date (a midnight), the
      investor (absent when blank), the amount, and the two exchange cells. */
  datatype Flow = Flow(date: int, investor: Option<string>, amount: real, fromExchange: Option<string>, toExchange: Option<string>)

  const SecondsPerDay: int := 86400

  /** The time stamp of the midnight starting day `day`: a ledger date,
      parsed from `%d/%m/%Y`, carries no time of day. */
  function Midnight(day: int): int
  {
    day * SecondsPerDay
  }

  /** Money coming in from outside: no source, a destination. */
  predicate IsDeposit(f: Flow)
  {
    f.fromExchange.None? && f.toExchange.Some?
  }

  /** Money going out: a source, no destination. */
  predicate IsWithdrawal(f: Flow)
  {
    f.fromExchange.Some? && f.toExchange.None?
  }

  /** The flow's investor; a blank one is the owner's. */
  function InvestorOf(f: Flow, owner: string): string
  {
    if f.investor.Some? then f.investor.value else owner
  }

  /** A deposit or a withdrawal; any other ledger row is skipped. */
  predicate Moves(f: Flow)
  {
    IsDeposit(f) || IsWithdrawal(f)
  }

  /** The units a flow buys at `nav`: `amount / nav` for a deposit, and
      `-amount / nav` (a sale) for a withdrawal. */
  function Units(f: Flow, nav: real): real
    requires nav != 0.0
  {
    if IsDeposit(f) then f.amount / nav else -f.amount / nav
  }

  /** Units bought are the amount at the NAV, units sold its negation. */
  lemma UnitsSpec(f: Flow, nav: real)
    requires nav != 0.0 && Moves(f)
    ensures Units(f, nav) * nav == (if IsDeposit(f) then f.amount else -f.amount)
    ensures IsWithdrawal(f) ==> Units(f, nav) == -(f.amount / nav)
  {
    NegDiv(f.amount, nav);
  }

  /** The book during `process`, with the multi-investor flag. */
  datatype Pass = Pass(book: Book, multi: bool)

  /** One cash flow of `process`, with every investor looked up by its
      lower-cased name: flows of the fund itself are ignored; an unknown
      investor other than the owner switches to multi-investor mode and is
      added; a deposit buys and a withdrawal sells `amount / nav` units,
      credited to the owner before the switch and to the named investor
      after it; any other flow changes nothing more. */
  function ApplyFlow(p: Pass, date: int, nav: real, f: Flow, owner: string): Result<Pass, string>
  {
    var name := InvestorOf(f, owner);
    var key := Lower(name);
    if key == FundName then Ok(p)
    else
      var p1 := Switched(p, name, owner);
      if !Moves(f) then Ok(p1)
      else if nav == 0.0 then Err(ZeroNav)
      else
        var units := Units(f, nav);
        var target := if p1.multi then key else Lower(owner);
        var b2 := if p1.multi then Added(p1.book, name) else p1.book;
        if target !in b2.investors then Err(KeyError)
        else Ok(Pass(Credited(b2, target, date, units), p1.multi))
  }

  /** An unknown investor other than the owner switches the pass to
      multi-investor mode and is added. */
  function Switched(p: Pass, name: string, owner: string): Pass
  {
    var key := Lower(name);
    if key != Lower(owner) && key !in p.book.investors then Pass(Added(p.book, name), true) else p
  }

  /** The same step as the source writes it: the names compared and looked
      up are the raw ones, while `add_investor` stores them lower-cased. */
  function ApplyFlowAsWritten(p: Pass, date: int, nav: real, f: Flow, owner: string): Result<Pass, string>
  {
    var name := InvestorOf(f, owner);
    if Lower(name) == FundName then Ok(p)
    else
      var p1 := if name != owner && name !in p.book.investors then Pass(Added(p.book, name), true) else p;
      if !Moves(f) then Ok(p1)
      else if nav == 0.0 then Err(ZeroNav)
      else
        var units := Units(f, nav);
        var target := if p1.multi then name else owner;
        var b2 := if p1.multi then Added(p1.book, name) else p1.book;
        if target !in b2.investors then Err(KeyError)
        else Ok(Pass(Credited(b2, target, date, units), p1.multi))
  }

  /** The mode invariant: the owner is an investor, and before the switch
      to multi-investor mode the owner is the only one. */
  ghost predicate ModeInv(p: Pass, owner: string)
  {
    Lower(owner) in p.book.investors &&
    (!p.multi ==> forall k :: k in p.book.investors ==> k == Lower(owner))
  }

  /** The switch keeps the invariants and every holding, and happens
      exactly for a new investor. */
  lemma SwitchedSpec(p: Pass, name: string, owner: string)
    requires Valid(p.book) && ModeInv(p, owner)
    ensures var p1 := Switched(p, name, owner);
      var key := Lower(name);
      Valid(p1.book) && ModeInv(p1, owner) && p1.book.navs == p.book.navs && p1.book.total == p.book.total &&
      HeldBy(p1.book, key) == HeldBy(p.book, key) && key in p1.book.investors &&
      (p1.multi <==> p.multi || key !in p.book.investors) &&
      (!p1.multi ==> key == Lower(owner)) &&
      (forall k :: k in p.book.investors ==> k in p1.book.investors && p1.book.investors[k] == p.book.investors[k]) &&
      (forall k :: k in p1.book.investors && k != key ==> k in p.book.investors)
  {
    AddedSpec(p.book, name);
  }

  /** A cash flow fails only on a zero NAV for a deposit or withdrawal,
      and a flow of the fund itself changes nothing. */
  lemma ApplyFlowFails(p: Pass, date: int, nav: real, f: Flow, owner: string)
    requires ModeInv(p, owner)
    ensures var r := ApplyFlow(p, date, nav, f, owner);
      var key := Lower(InvestorOf(f, owner));
      (r.Err? <==> key != FundName && Moves(f) && nav == 0.0) &&
      (r.Err? ==> r.error == ZeroNav) &&
      (key == FundName ==> r == Ok(p))
  {
    var name := InvestorOf(f, owner);
    var key := Lower(name);
    if key != FundName && Moves(f) && nav != 0.0 {
      var p1 := Switched(p, name, owner);
      var target := if p1.multi then key else Lower(owner);
      if p1.multi {
        assert target in Added(p1.book, name).investors;
      } else {
        assert p1 == p;
      }
    }
  }

  /** The step taken when a deposit or withdrawal goes through: the
      switch, then a credit to the investor the flow names. */
  lemma ApplyFlowCredits(p: Pass, date: int, nav: real, f: Flow, owner: string)
    requires Valid(p.book) && ModeInv(p, owner)
    requires Lower(InvestorOf(f, owner)) != FundName && Moves(f) && nav != 0.0
    ensures var p1 := Switched(p, InvestorOf(f, owner), owner);
      var key := Lower(InvestorOf(f, owner));
      key in p1.book.investors &&
      ApplyFlow(p, date, nav, f, owner) ==
        Ok(Pass(Credited(p1.book, key, date, Units(f, nav)), p1.multi))
  {
    var name := InvestorOf(f, owner);
    SwitchedSpec(p, name, owner);
    AddedSpec(Switched(p, name, owner).book, name);
  }

  lemma NegDiv(a: real, n: real)
    requires n != 0.0
    ensures -a / n == -(a / n)
  {
    assert -a / n * n == -a;
    assert -(a / n) * n == -a;
  }

  /** What a cash flow keeps: the invariants, the NAV history, every
      existing investor, and every holding but the named investor's; the
      mode switches exactly when a new investor appears. */
  lemma ApplyFlowKeeps(p: Pass, date: int, nav: real, f: Flow, owner: string)
    requires Valid(p.book) && ModeInv(p, owner)
    ensures var r := ApplyFlow(p, date, nav, f, owner);
      var key := Lower(InvestorOf(f, owner));
      r.Ok? ==> (
        Valid(r.value.book) && ModeInv(r.value, owner) && r.value.book.navs == p.book.navs &&
        (r.value.multi <==> p.multi || (key != FundName && key !in p.book.investors)) &&
        (forall k :: k in p.book.investors ==> k in r.value.book.investors) &&
        (forall k :: k in r.value.book.investors && k != key ==> k in p.book.investors && r.value.book.investors[k] == p.book.investors[k]))
  {
    var name := InvestorOf(f, owner);
    var key := Lower(name);
    var r := ApplyFlow(p, date, nav, f, owner);
    if key != FundName {
      var p1 := Switched(p, name, owner);
      SwitchedSpec(p, name, owner);
      if !Moves(f) {
        assert r == Ok(p1);
      } else if nav != 0.0 {
        ApplyFlowCredits(p, date, nav, f, owner);
        CreditedSpec(p1.book, key, date, Units(f, nav));
      }
    } else {
      assert r == Ok(p);
    }
  }

  /** What a cash flow moves: a deposit or withdrawal moves its units in
      or out of the investor the flow names (lower-cased), in either mode,
      and the units outstanding by the same; a fund flow or a flow that is
      neither moves nothing. */
  lemma ApplyFlowMoves(p: Pass, date: int, nav: real, f: Flow, owner: string)
    requires Valid(p.book) && ModeInv(p, owner)
    ensures var r := ApplyFlow(p, date, nav, f, owner);
      var key := Lower(InvestorOf(f, owner));
      r.Ok? ==> (
        (key != FundName && Moves(f) && nav != 0.0 ==>
          HeldBy(r.value.book, key) == HeldBy(p.book, key) + Units(f, nav) && r.value.book.total == p.book.total + Units(f, nav)) &&
        (key == FundName || !Moves(f) ==>
          HeldBy(r.value.book, key) == HeldBy(p.book, key) && r.value.book.total == p.book.total))
  {
    var name := InvestorOf(f, owner);
    var key := Lower(name);
    var r := ApplyFlow(p, date, nav, f, owner);
    if key != FundName {
      var p1 := Switched(p, name, owner);
      SwitchedSpec(p, name, owner);
      if !Moves(f) {
        assert r == Ok(p1);
      } else if nav != 0.0 {
        ApplyFlowCredits(p, date, nav, f, owner);
        CreditedSpec(p1.book, key, date, Units(f, nav));
      }
    } else {
      assert r == Ok(p);
    }
  }

  /** A capitalised investor name: the source adds `alice` but then looks
      up `Alice`, and raises `KeyError`; with lower-cased lookups the
      deposit buys Alice her units. */
  lemma CapitalisedInvestorKeyError()
    ensures var b := Book(["bob"], map["bob" := UpdateUnits(NewInvestor("bob"), 0, 100.0)], 100.0, [NavRow(0, 1.0)]);
      var f := Flow(1, Some("Alice"), 10.0, None, Some("KRAKEN"));
      ApplyFlowAsWritten(Pass(b, false), 1, 1.0, f, "bob") == Err(KeyError) &&
      ApplyFlow(Pass(b, false), 1, 1.0, f, "bob").Ok? &&
      HeldBy(ApplyFlow(Pass(b, false), 1, 1.0, f, "bob").value.book, "alice") == 10.0
  {
    assert Lower("Alice") == "alice";
    assert Lower("bob") == "bob";
  }

  // ---------------------------------------------------------------------------
  // Dates and the net liquidation value

  /** A row of the balance file: its time stamp and the netliq. */
  datatype NetRow = NetRow(date: int, netliq: real)

  function RowDates(rows: seq<NetRow>): (r: seq<int>)
    ensures |r| == |rows| && forall i :: 0 <= i < |rows| ==> r[i] == rows[i].date
  {
    seq(|rows|, i requires 0 <= i < |rows| => rows[i].date)
  }

  function LedgerDates(flows: seq<Flow>): (r: seq<int>)
    ensures |r| == |flows| && forall i :: 0 <= i < |flows| ==> r[i] == flows[i].date
  {
    seq(|flows|, i requires 0 <= i < |flows| => flows[i].date)
  }

  /** The least element of a non-empty sequence. */
  function MinOf(s: seq<int>): (m: int)
    requires s != []
    ensures m in s && forall x :: x in s ==> m <= x
  {
    if |s| == 1 then s[0]
    else
      var m := MinOf(s[1..]);
      assert forall x :: x in s ==> x == s[0] || x in s[1..];
      if s[0] < m then s[0] else m
  }

  /** The elements other than `m`, in order. */
  function Drop(s: seq<int>, m: int): (r: seq<int>)
    ensures (forall x :: x in r <==> x in s && x != m) && |r| <= |s| && (m in s ==> |r| < |s|)
  {
    if s == [] then []
    else
      assert forall x :: x in s ==> x == s[0] || x in s[1..];
      (if s[0] == m then [] else [s[0]]) + Drop(s[1..], m)
  }

  /** The elements on or after `e`, in order. */
  function AtOrAfter(s: seq<int>, e: int): (r: seq<int>)
    ensures forall x :: x in r <==> x in s && x >= e
  {
    if s == [] then []
    else
      assert forall x :: x in s ==> x == s[0] || x in s[1..];
      (if s[0] >= e then [s[0]] else []) + AtOrAfter(s[1..], e)
  }

  predicate Increasing(s: seq<int>)
  {
    forall i, j :: 0 <= i < j < |s| ==> s[i] < s[j]
  }

  /** `drop_duplicates().sort_values()`: the least element, then the rest
      sorted. */
  function SortedDays(s: seq<int>): (r: seq<int>)
    decreases |s|
  {
    if s == [] then []
    else
      var m := MinOf(s);
      [m] + SortedDays(Drop(s, m))
  }

  /** The days come out once each, in increasing order. */
  lemma {:induction false} SortedDaysSpec(s: seq<int>)
    ensures var r := SortedDays(s);
      Increasing(r) && forall x :: x in r <==> x in s
    decreases |s|
  {
    if s != [] {
      var m := MinOf(s);
      var rest := SortedDays(Drop(s, m));
      SortedDaysSpec(Drop(s, m));
      assert forall x :: x in rest ==> m < x;
      IncreasingCons(m, rest);
      assert forall x :: x in [m] + rest <==> x == m || x in rest;
    }
  }

  /** A least element put in front keeps a sequence increasing. */
  lemma IncreasingCons(m: int, rest: seq<int>)
    requires Increasing(rest) && forall x :: x in rest ==> m < x
    ensures Increasing([m] + rest)
  {
    var r := [m] + rest;
    forall i, j | 0 <= i < j < |r|
      ensures r[i] < r[j]
    {
      assert r[j] == rest[j - 1] && r[j] in rest;
      if i > 0 {
        assert r[i] == rest[i - 1];
      }
    }
  }

  /** `all_dates`: every balance date and every ledger date, on or after
      the earliest balance date, once each and in order. */
  function Days(rows: seq<NetRow>, flows: seq<Flow>): seq<int>
    requires rows != []
  {
    SortedDays(AtOrAfter(RowDates(rows) + LedgerDates(flows), MinOf(RowDates(rows))))
  }

  /** The balance row a date reads: the first row of that date (`values[0]`),
      else the last of the latest rows before it (`iloc[-1]`), in file order. */
  function Latest(rows: seq<NetRow>, d: int): Option<NetRow>
  {
    if rows == [] then None
    else
      var r := Latest(rows[..|rows| - 1], d);
      var last := rows[|rows| - 1];
      if last.date > d then r
      else if r.None? then Some(last)
      else if r.value.date == d then r
      else if last.date >= r.value.date then Some(last)
      else r
  }

  /** A row is read exactly when one is dated on or before the date; it is
      then a row with the latest such date, so the date's own row when
      there is one. */
  lemma {:induction false} LatestSpec(rows: seq<NetRow>, d: int)
    ensures var r := Latest(rows, d);
      (r.Some? <==> exists i :: 0 <= i < |rows| && rows[i].date <= d) &&
      (r.Some? ==> (r.value in rows && r.value.date <= d &&
        forall i :: 0 <= i < |rows| && rows[i].date <= d ==> rows[i].date <= r.value.date))
  {
    if rows != [] {
      var init := rows[..|rows| - 1];
      LatestSpec(init, d);
      assert forall i :: 0 <= i < |init| ==> init[i] == rows[i];
      var r := Latest(rows, d);
      if r.Some? {
        assert r.value in init || r.value == rows[|rows| - 1];
      }
      if exists i :: 0 <= i < |rows| && rows[i].date <= d {
        var i :| 0 <= i < |rows| && rows[i].date <= d;
        if i < |init| {
          assert init[i].date <= d;
        }
      }
    }
  }
  /** With rows stamped at the date itself, the first of them is read
      (`values[0]`). */
  lemma {:induction false} LatestExact(rows: seq<NetRow>, d: int)
    requires exists i :: 0 <= i < |rows| && rows[i].date == d
    ensures exists i :: 0 <= i < |rows| && Latest(rows, d) == Some(rows[i]) && rows[i].date == d &&
                        (forall j :: 0 <= j < i ==> rows[j].date != d)
    decreases |rows|
  {
    var init := rows[..|rows| - 1];
    var n := |rows| - 1;
    assert forall i :: 0 <= i < |init| ==> init[i] == rows[i];
    if exists i :: 0 <= i < |init| && init[i].date == d {
      LatestExact(init, d);
      var i :| 0 <= i < |init| && Latest(init, d) == Some(init[i]) && init[i].date == d &&
        (forall j :: 0 <= j < i ==> init[j].date != d);
      assert Latest(rows, d) == Latest(init, d);
    } else {
      LatestSpec(init, d);
      var r0 := Latest(init, d);
      if r0.Some? {
        var k :| 0 <= k < |init| && init[k] == r0.value;
      }
      assert Latest(rows, d) == Some(rows[n]);
    }
  }

  /** With no row stamped at the date, the last of the latest earlier rows is
      read (`iloc[-1]`). */
  lemma {:induction false} LatestEarlier(rows: seq<NetRow>, d: int)
    requires forall i :: 0 <= i < |rows| ==> rows[i].date != d
    ensures Latest(rows, d).Some? ==>
      exists i :: 0 <= i < |rows| && Latest(rows, d) == Some(rows[i]) &&
        (forall j :: i < j < |rows| && rows[j].date <= d ==> rows[j].date < rows[i].date)
    decreases |rows|
  {
    if rows != [] {
      var init := rows[..|rows| - 1];
      var n := |rows| - 1;
      assert forall i :: 0 <= i < |init| ==> init[i] == rows[i];
      LatestEarlier(init, d);
      var r0 := Latest(init, d);
      var last := rows[n];
      if r0.None? {
        assert last.date <= d ==> Latest(rows, d) == Some(last);
      } else {
        var i :| 0 <= i < |init| && r0 == Some(init[i]) &&
          (forall j :: i < j < |init| && init[j].date <= d ==> init[j].date < init[i].date);
        assert r0.value.date != d;
        if last.date > d || last.date < r0.value.date {
          assert Latest(rows, d) == Some(rows[i]);
        } else {
          assert Latest(rows, d) == Some(rows[n]);
        }
      }
    }
  }

  /** The ledger rows of one day, in ledger order. */
  function FlowsOn(flows: seq<Flow>, d: int): (r: seq<Flow>)
    ensures forall f :: f in r <==> f in flows && f.date == d
  {
    if flows == [] then []
    else
      assert forall f :: f in flows ==> f == flows[0] || f in flows[1..];
      (if flows[0].date == d then [flows[0]] else []) + FlowsOn(flows[1..], d)
  }

  // ---------------------------------------------------------------------------
  // process

  /** The cash flows of a day, in order, stopping at the first failure. */
  function ApplyFlows(p: Pass, date: int, nav: real, fs: seq<Flow>, owner: string): Result<Pass, string>
  {
    if fs == [] then Ok(p)
    else
      var r := ApplyFlows(p, date, nav, fs[..|fs| - 1], owner);
      if r.Err? then r else ApplyFlow(r.value, date, nav, fs[|fs| - 1], owner)
  }

  /** The NAV of a day: the netliq per unit outstanding, or 1 with no
      units outstanding. */
  function Nav(value: real, total: real): real
  {
    if total > 0.0 then value / total else 1.0
  }

  /** One date of `process`: a date with no balance row on or before it is
      skipped; otherwise the NAV is recorded, then the day's flows are
      applied at it. */
  function ApplyDay(p: Pass, d: int, rows: seq<NetRow>, flows: seq<Flow>, owner: string): Result<Pass, string>
  {
    var row := Latest(rows, d);
    if row.None? then Ok(p)
    else
      var nav := Nav(row.value.netliq, p.book.total);
      ApplyFlows(Pass(p.book.(navs := p.book.navs + [NavRow(d, nav)]), p.multi), d, nav, FlowsOn(flows, d), owner)
  }

  /** The dates in order, stopping at the first failure. */
  function ApplyDays(p: Pass, days: seq<int>, rows: seq<NetRow>, flows: seq<Flow>, owner: string): Result<Pass, string>
  {
    if days == [] then Ok(p)
    else
      var r := ApplyDays(p, days[..|days| - 1], rows, flows, owner);
      if r.Err? then r else ApplyDay(r.value, days[|days| - 1], rows, flows, owner)
  }

  /** The first date: the owner is added and buys the initial netliq's
      worth of units at NAV 1, which become the units outstanding. */
  function Initial(b: Book, value: real, date: int, owner: string): Pass
  {
    var b1 := Added(b, owner);
    var key := Lower(owner);
    Pass(b1.(investors := b1.investors[key := UpdateUnits(b1.investors[key], date, value / 1.0)],
             total := value / 1.0,
             navs := b1.navs + [NavRow(date, 1.0)]), false)
  }

  /** `Portfolio.process`: with no balance row there is no first date;
      otherwise the owner's initial units on the first date, which is the
      earliest balance date, then each later date in order. */
  function Processed(b: Book, rows: seq<NetRow>, flows: seq<Flow>, owner: string): Result<Pass, string>
  {
    if rows == [] then Err(IndexError)
    else
      var days := Days(rows, flows);
      if days == [] then Err(IndexError)
      else
        var row := Latest(rows, days[0]);
        if row.None? then Err(IndexError)
        else ApplyDays(Initial(b, row.value.netliq, days[0], owner), days[1..], rows, flows, owner)
  }

  /** The dates walked start at the earliest balance date, are increasing,
      and each has a balance row on or before it, so none is skipped. */
  lemma DaysSpec(rows: seq<NetRow>, flows: seq<Flow>)
    requires rows != []
    ensures var days := Days(rows, flows);
      var e := MinOf(RowDates(rows));
      |days| > 0 && days[0] == e && Increasing(days) &&
      (forall d :: d in days <==> (d in RowDates(rows) || d in LedgerDates(flows)) && d >= e) &&
      (forall i :: 0 <= i < |days| ==> Latest(rows, days[i]).Some?) &&
      (forall i :: 1 <= i < |days| ==> days[i] > e)
  {
    var e := MinOf(RowDates(rows));
    var all := AtOrAfter(RowDates(rows) + LedgerDates(flows), e);
    SortedDaysSpec(all);
    var days := Days(rows, flows);
    assert e in RowDates(rows) + LedgerDates(flows);
    assert e in days;
    assert days[0] in all;
    var k :| 0 <= k < |rows| && rows[k].date == e;
    forall i | 0 <= i < |days|
      ensures Latest(rows, days[i]).Some?
    {
      var d := days[i];
      assert d in all;
      LatestSpec(rows, d);
      assert rows[k].date <= d;
    }
  }

  // ---------------------------------------------------------------------------
  // What process keeps

  /** The initial step on an empty book: the owner alone, holding the
      initial netliq in units, which are all the units outstanding. */
  lemma InitialSpec(value: real, date: int, owner: string)
    ensures var p := Initial(EmptyBook, value, date, owner);
      Valid(p.book) && ModeInv(p, owner) && !p.multi &&
      p.book.investors.Keys == {Lower(owner)} && HeldBy(p.book, Lower(owner)) == value &&
      p.book.total == value && p.book.navs == [NavRow(date, 1.0)]
  {
    var key := Lower(owner);
    var inv := UpdateUnits(NewInvestor(key), date, value / 1.0);
    var p := Initial(EmptyBook, value, date, owner);
    assert Added(EmptyBook, owner) == Book([key], map[key := NewInvestor(key)], 0.0, []);
    assert p.book == Book([key], map[key := inv], value / 1.0, [NavRow(date, 1.0)]);
    assert value / 1.0 == value;
    UpdateUnitsSpec(NewInvestor(key), date, value / 1.0);
    assert [key][..0] == [];
    assert TotalOf([key], map[key := inv]) == inv.units;
  }

  lemma {:induction false} ApplyFlowsValid(p: Pass, date: int, nav: real, fs: seq<Flow>, owner: string)
    requires Valid(p.book) && ModeInv(p, owner)
    ensures var r := ApplyFlows(p, date, nav, fs, owner);
      (r.Ok? ==> Valid(r.value.book) && ModeInv(r.value, owner) && r.value.book.navs == p.book.navs) &&
      (r.Err? ==> r.error == ZeroNav)
  {
    if fs != [] {
      ApplyFlowsValid(p, date, nav, fs[..|fs| - 1], owner);
      var r := ApplyFlows(p, date, nav, fs[..|fs| - 1], owner);
      if r.Ok? {
        ApplyFlowKeeps(r.value, date, nav, fs[|fs| - 1], owner);
        ApplyFlowFails(r.value, date, nav, fs[|fs| - 1], owner);
      }
    }
  }

  /** The NAV times the units outstanding is the netliq when there are
      units; with none it is 1. */
  lemma NavSpec(value: real, total: real)
    ensures total > 0.0 ==> Nav(value, total) * total == value
    ensures total <= 0.0 ==> Nav(value, total) == 1.0
  {
  }

  /** A date with a balance row records one NAV, from that row's netliq,
      and its flows keep the invariants. */
  lemma ApplyDaySpec(p: Pass, d: int, rows: seq<NetRow>, flows: seq<Flow>, owner: string)
    requires Valid(p.book) && ModeInv(p, owner) && Latest(rows, d).Some?
    ensures var r := ApplyDay(p, d, rows, flows, owner);
      (r.Err? ==> r.error == ZeroNav) &&
      (r.Ok? ==> (Valid(r.value.book) && ModeInv(r.value, owner) &&
        r.value.book.navs == p.book.navs + [NavRow(d, Nav(Latest(rows, d).value.netliq, p.book.total))]))
  {
    var nav := Nav(Latest(rows, d).value.netliq, p.book.total);
    var q := Pass(p.book.(navs := p.book.navs + [NavRow(d, nav)]), p.multi);
    assert q.book.names == p.book.names && q.book.investors == p.book.investors && q.book.total == p.book.total;
    ApplyFlowsValid(q, d, nav, FlowsOn(flows, d), owner);
  }

  lemma {:induction false} ApplyDaysValid(p: Pass, days: seq<int>, rows: seq<NetRow>, flows: seq<Flow>, owner: string)
    requires forall i :: 0 <= i < |days| ==> Latest(rows, days[i]).Some?
    requires Valid(p.book) && ModeInv(p, owner)
    ensures var r := ApplyDays(p, days, rows, flows, owner);
      (r.Ok? ==> Valid(r.value.book) && ModeInv(r.value, owner) && |r.value.book.navs| == |p.book.navs| + |days|) &&
      (r.Err? ==> r.error == ZeroNav)
  {
    if days != [] {
      var init := days[..|days| - 1];
      ApplyDaysValid(p, init, rows, flows, owner);
      var r := ApplyDays(p, init, rows, flows, owner);
      if r.Ok? {
        ApplyDaySpec(r.value, days[|days| - 1], rows, flows, owner);
      }
    }
  }

  /** Over a whole run from an empty book: it fails for want of a first
      date exactly when there is no balance row, and otherwise only on a
      zero NAV; on success the units
      outstanding are the sum of every investor's units, every investor's
      history runs up to their holding, the owner is an investor, and one
      NAV is recorded per date walked. */
  lemma ProcessValid(rows: seq<NetRow>, flows: seq<Flow>, owner: string)
    ensures var r := Processed(EmptyBook, rows, flows, owner);
      (rows == [] ==> r == Err(IndexError)) &&
      (rows != [] && r.Err? ==> r.error == ZeroNav) &&
      (r.Ok? ==> (Valid(r.value.book) && Lower(owner) in r.value.book.investors &&
        r.value.book.total == TotalOf(r.value.book.names, r.value.book.investors) &&
        |r.value.book.navs| == |Days(rows, flows)|))
  {
    if rows != [] {
      DaysSpec(rows, flows);
      var days := Days(rows, flows);
      var value := Latest(rows, days[0]).value.netliq;
      InitialSpec(value, days[0], owner);
      ApplyDaysValid(Initial(EmptyBook, value, days[0], owner), days[1..], rows, flows, owner);
    }
  }

  /** The ledger rows dated after `e`, in order. */
  function Later(flows: seq<Flow>, e: int): (r: seq<Flow>)
    ensures forall f :: f in r <==> f in flows && f.date > e
  {
    if flows == [] then []
    else
      assert forall f :: f in flows ==> f == flows[0] || f in flows[1..];
      (if flows[0].date > e then [flows[0]] else []) + Later(flows[1..], e)
  }

  /** A day after `e` has the same rows in both ledgers. */
  lemma {:induction false} FlowsOnLater(flows: seq<Flow>, e: int, d: int)
    requires d > e
    ensures FlowsOn(Later(flows, e), d) == FlowsOn(flows, d)
  {
    if flows != [] {
      FlowsOnLater(flows[1..], e, d);
      var head := if flows[0].date > e then [flows[0]] else [];
      assert Later(flows, e) == head + Later(flows[1..], e);
      if head == [] {
        assert Later(flows, e) == Later(flows[1..], e);
      } else {
        var l := Later(flows, e);
        assert l[0] == flows[0] && l[1..] == Later(flows[1..], e);
      }
    }
  }

  /** The ledger dates after `e` are the ledger dates of the rows after `e`. */
  lemma LaterDates(flows: seq<Flow>, e: int, d: int)
    ensures d in LedgerDates(Later(flows, e)) <==> d in LedgerDates(flows) && d > e
  {
    var late := Later(flows, e);
    if d in LedgerDates(flows) && d > e {
      var i :| 0 <= i < |flows| && LedgerDates(flows)[i] == d;
      assert flows[i] in late;
      var j :| 0 <= j < |late| && late[j] == flows[i];
      assert LedgerDates(late)[j] == d;
    }
    if d in LedgerDates(late) {
      var j :| 0 <= j < |late| && LedgerDates(late)[j] == d;
      assert late[j] in flows;
      var i :| 0 <= i < |flows| && flows[i] == late[j];
      assert LedgerDates(flows)[i] == d;
    }
  }

  /** Dropping the ledger rows on or before the first balance date leaves
      the dates walked unchanged. */
  lemma DaysLater(rows: seq<NetRow>, flows: seq<Flow>)
    requires rows != []
    ensures Days(rows, Later(flows, MinOf(RowDates(rows)))) == Days(rows, flows)
  {
    var e := MinOf(RowDates(rows));
    var late := Later(flows, e);
    DaysSpec(rows, flows);
    DaysSpec(rows, late);
    var d1 := Days(rows, flows);
    var d2 := Days(rows, late);
    forall d
      ensures d in d1 <==> d in d2
    {
      LaterDates(flows, e, d);
    }
    IncreasingUnique(d1, d2);
  }

  /** Ledger rows dated on or before the first balance date are never
      applied: dropping them changes nothing. */
  lemma EarlyFlowsIgnored(rows: seq<NetRow>, flows: seq<Flow>, owner: string, b: Book)
    requires rows != []
    ensures Processed(b, rows, Later(flows, MinOf(RowDates(rows))), owner) == Processed(b, rows, flows, owner)
  {
    var e := MinOf(RowDates(rows));
    DaysLater(rows, flows);
    DaysSpec(rows, flows);
    var d1 := Days(rows, flows);
    forall i | 0 <= i < |d1[1..]|
      ensures d1[1..][i] > e
    {
      assert d1[1..][i] == d1[i + 1];
    }
    DaysAgree(Initial(b, Latest(rows, d1[0]).value.netliq, d1[0], owner), d1[1..], rows, flows, owner, e);
  }

  // A deposit dated on a day that also has a balance snapshot: the owner
  // `bob` starts with 1000 on day 0 and deposits 500 on day 1, whose
  // snapshot reads 1600.
  const DemoRows: seq<NetRow> := [NetRow(300, 1000.0), NetRow(86700, 1600.0)]
  const DemoFlows: seq<Flow> := [Flow(86400, None, 500.0, None, Some("BINANCE"))]

  lemma DemoDays()
    ensures Days(DemoRows, DemoFlows) == [300, Midnight(1), Midnight(1) + 300]
  {
    var days := [300, 86400, 86700];
    DaysSpec(DemoRows, DemoFlows);
    assert RowDates(DemoRows) == [300, 86700];
    assert LedgerDates(DemoFlows) == [86400];
    assert MinOf(RowDates(DemoRows)) == 300;
    forall x
      ensures x in Days(DemoRows, DemoFlows) <==> x in days
    {
    }
    IncreasingUnique(Days(DemoRows, DemoFlows), days);
  }

  lemma DemoLatest()
    ensures Latest(DemoRows, 300) == Some(NetRow(300, 1000.0))
    ensures Latest(DemoRows, 86400) == Some(NetRow(300, 1000.0))
    ensures Latest(DemoRows, 86700) == Some(NetRow(86700, 1600.0))
  {
    assert DemoRows[..1] == [NetRow(300, 1000.0)];
  }

  /** The midnight of day 1: the deposit buys 500 units at the NAV of day 0's
      snapshot, 1. */
  lemma DemoMidnight(p0: Pass)
    requires p0 == Initial(EmptyBook, 1000.0, 300, "bob")
    ensures var p1 := ApplyDay(p0, 86400, DemoRows, DemoFlows, "bob");
      p1.Ok? && p1.value.book.total == 1500.0 && !p1.value.multi &&
      p1.value.book.navs == [NavRow(300, 1.0), NavRow(86400, 1.0)]
  {
    InitialSpec(1000.0, 300, "bob");
    DemoLatest();
    var f := DemoFlows[0];
    assert FlowsOn(DemoFlows, 86400) == DemoFlows;
    var q := Pass(p0.book.(navs := p0.book.navs + [NavRow(86400, 1.0)]), false);
    assert Nav(1000.0, 1000.0) == 1.0;
    assert ApplyFlows(q, 86400, 1.0, DemoFlows, "bob") == ApplyFlow(q, 86400, 1.0, f, "bob") by {
      assert DemoFlows[..0] == [];
    }
    assert Lower("bob") == "bob";
    assert Switched(q, "bob", "bob") == q;
    assert Units(f, 1.0) == 500.0;
  }

  /** A deposit dated on a day that also has a balance snapshot is walked at
      that day's midnight, before the snapshot: it buys units at the NAV of
      the latest earlier snapshot, and the snapshot then records a NAV of its
      own. Here the owner's 500 deposit on day 1 buys 500 units at NAV 1,
      and day 1's snapshot of 1600 then reads a NAV of 1600 / 1500. */
  lemma MidnightFlowPricedEarlier()
    ensures var r := Processed(EmptyBook, DemoRows, DemoFlows, "bob");
      r.Ok? && r.value.book.total == 1500.0 &&
      r.value.book.navs == [NavRow(300, 1.0), NavRow(Midnight(1), 1.0), NavRow(Midnight(1) + 300, 1600.0 / 1500.0)]
  {
    DemoDays();
    DemoLatest();
    var days := [300, 86400, 86700];
    var p0 := Initial(EmptyBook, 1000.0, 300, "bob");
    DemoMidnight(p0);
    var p1 := ApplyDay(p0, 86400, DemoRows, DemoFlows, "bob");
    assert FlowsOn(DemoFlows, 86700) == [];
    var p2 := ApplyDay(p1.value, 86700, DemoRows, DemoFlows, "bob");
    assert p2 == Ok(Pass(p1.value.book.(navs := p1.value.book.navs + [NavRow(86700, 1600.0 / 1500.0)]), false));
    assert ApplyDays(p0, days[1..], DemoRows, DemoFlows, "bob") == p2 by {
      assert days[1..][..1] == [86400];
      assert ApplyDays(p0, days[1..][..1], DemoRows, DemoFlows, "bob") == p1 by {
        assert days[1..][..1][..0] == [];
      }
    }
  }

  /** The first of an increasing listing is its least element, and the
      rest are the others. */
  lemma IncreasingHead(a: seq<int>)
    requires Increasing(a) && a != []
    ensures forall x :: x in a ==> a[0] <= x
    ensures forall x :: x in a[1..] <==> x in a && x != a[0]
  {
    forall x | x in a
      ensures a[0] <= x
    {
      var i :| 0 <= i < |a| && a[i] == x;
    }
    forall x | x in a && x != a[0]
      ensures x in a[1..]
    {
      var i :| 0 <= i < |a| && a[i] == x;
      assert a[1..][i - 1] == x;
    }
    forall x | x in a[1..]
      ensures x in a && x != a[0]
    {
      var i :| 0 <= i < |a[1..]| && a[1..][i] == x;
      assert a[i + 1] == x;
    }
  }

  lemma EmptyMatches(a: seq<int>, b: seq<int>)
    requires forall x :: x in a <==> x in b
    ensures a == [] <==> b == []
  {
    if a != [] {
      var x := a[0];
      assert x in a;
    }
    if b != [] {
      var x := b[0];
      assert x in b;
    }
  }

  /** Two increasing listings of the same days are equal. */
  lemma {:induction false} IncreasingUnique(a: seq<int>, b: seq<int>)
    requires Increasing(a) && Increasing(b) && forall x :: x in a <==> x in b
    ensures a == b
    decreases |a|
  {
    EmptyMatches(a, b);
    if a != [] {
      IncreasingHead(a);
      IncreasingHead(b);
      assert a[0] in b && b[0] in a;
      assert a[0] == b[0];
      assert Increasing(a[1..]) && Increasing(b[1..]);
      IncreasingUnique(a[1..], b[1..]);
      assert a == [a[0]] + a[1..] && b == [b[0]] + b[1..];
    }
  }

  /** Days after `e` read the same flows from the whole ledger and from
      its rows after `e`. */
  lemma {:induction false} DaysAgree(p: Pass, days: seq<int>, rows: seq<NetRow>, flows: seq<Flow>, owner: string, e: int)
    requires forall i :: 0 <= i < |days| ==> days[i] > e
    ensures ApplyDays(p, days, rows, Later(flows, e), owner) == ApplyDays(p, days, rows, flows, owner)
  {
    if days != [] {
      DaysAgree(p, days[..|days| - 1], rows, flows, owner, e);
      FlowsOnLater(flows, e, days[|days| - 1]);
    }
  }

  // ---------------------------------------------------------------------------
  // Failures stop the walk

  lemma {:induction false} ApplyFlowsStop(p: Pass, date: int, nav: real, fs: seq<Flow>, k: nat, owner: string)
    requires k <= |fs| && ApplyFlows(p, date, nav, fs[..k], owner).Err?
    ensures ApplyFlows(p, date, nav, fs, owner) == ApplyFlows(p, date, nav, fs[..k], owner)
  {
    if k < |fs| {
      assert fs[..|fs| - 1][..k] == fs[..k];
      ApplyFlowsStop(p, date, nav, fs[..|fs| - 1], k, owner);
    } else {
      assert fs[..k] == fs;
    }
  }

  lemma {:induction false} ApplyDaysStop(p: Pass, days: seq<int>, k: nat, rows: seq<NetRow>, flows: seq<Flow>, owner: string)
    requires k <= |days| && ApplyDays(p, days[..k], rows, flows, owner).Err?
    ensures ApplyDays(p, days, rows, flows, owner) == ApplyDays(p, days[..k], rows, flows, owner)
  {
    if k < |days| {
      assert days[..|days| - 1][..k] == days[..k];
      ApplyDaysStop(p, days[..|days| - 1], k, rows, flows, owner);
    } else {
      assert days[..k] == days;
    }
  }

  /** One more date of a walk that has not failed. */
  lemma ApplyDaysPrefix(p: Pass, days: seq<int>, i: nat, rows: seq<NetRow>, flows: seq<Flow>, owner: string)
    requires 1 <= i <= |days| && ApplyDays(p, days[..i - 1], rows, flows, owner).Ok?
    ensures ApplyDays(p, days[..i], rows, flows, owner)
      == ApplyDay(ApplyDays(p, days[..i - 1], rows, flows, owner).value, days[i - 1], rows, flows, owner)
  {
    assert days[..i][..i - 1] == days[..i - 1];
  }

  // ---------------------------------------------------------------------------
  // The portfolio object

  /** The portfolio during `process`; the balance rows and the ledger are
      arguments of `Process`. */
  class Portfolio {
    const owner: string
    var names: seq<string>
    var investors: map<string, Investor>
    var total: real
    var navs: seq<NavRow>

    function Snapshot(): Book
      reads this
    {
      Book(names, investors, total, navs)
    }

    constructor (owner: string)
      ensures this.owner == owner && Snapshot() == EmptyBook
    {
      this.owner := owner;
      names := [];
      investors := map[];
      total := 0.0;
      navs := [];
    }

    /** `add_investor`. */
    method AddInvestor(name: string)
      modifies this
      ensures Snapshot() == Added(old(Snapshot()), name)
    {
      var key := Lower(name);
      if key !in investors {
        investors := investors[key := NewInvestor(key)];
        names := names + [key];
      }
    }

    /** One ledger row of `process`. */
    method CashFlow(date: int, nav: real, f: Flow, multi: bool) returns (mode: bool, error: Option<string>)
      modifies this
      ensures var r := ApplyFlow(Pass(old(Snapshot()), multi), date, nav, f, owner);
        (r.Ok? ==> error.None? && Pass(Snapshot(), mode) == r.value) &&
        (r.Err? ==> error == Some(r.error))
    {
      mode := multi;
      error := None;
      var name := InvestorOf(f, owner);
      if Lower(name) == FundName {
        return;
      }
      if Lower(name) != Lower(owner) && Lower(name) !in investors {
        mode := true;
        AddInvestor(name);
      }
      var units: real;
      if Moves(f) {
        if nav == 0.0 {
          error := Some(ZeroNav);
          return;
        }
        units := if IsDeposit(f) then f.amount / nav else -f.amount / nav;
      } else {
        return;
      }
      var key := Lower(owner);
      if mode {
        AddInvestor(name);
        key := Lower(name);
      }
      if key !in investors {
        error := Some(KeyError);
        return;
      }
      investors := investors[key := UpdateUnits(investors[key], date, units)];
      total := total + units;
    }

    /** The ledger rows of one date, in order, at the date's NAV. */
    method CashFlows(date: int, nav: real, cashFlows: seq<Flow>, multi: bool) returns (mode: bool, error: Option<string>)
      modifies this
      ensures var r := ApplyFlows(Pass(old(Snapshot()), multi), date, nav, cashFlows, owner);
        (r.Ok? ==> error.None? && Pass(Snapshot(), mode) == r.value) &&
        (r.Err? ==> error == Some(r.error))
    {
      mode := multi;
      error := None;
      ghost var dayStart := Pass(Snapshot(), mode);
      for j := 0 to |cashFlows|
        invariant error.None?
        invariant ApplyFlows(dayStart, date, nav, cashFlows[..j], owner) == Ok(Pass(Snapshot(), mode))
      {
        assert cashFlows[..j + 1][..j] == cashFlows[..j];
        ghost var prev := Pass(Snapshot(), mode);
        assert ApplyFlows(dayStart, date, nav, cashFlows[..j + 1], owner) == ApplyFlow(prev, date, nav, cashFlows[j], owner);
        mode, error := CashFlow(date, nav, cashFlows[j], mode);
        if error.Some? {
          ApplyFlowsStop(dayStart, date, nav, cashFlows, j + 1, owner);
          return;
        }
      }
      assert cashFlows[..|cashFlows|] == cashFlows;
    }

    /** One date of `process`: the netliq of the date, the NAV, then the
        date's ledger rows. */
    method Day(date: int, rows: seq<NetRow>, flows: seq<Flow>, multi: bool) returns (mode: bool, error: Option<string>)
      modifies this
      ensures var r := ApplyDay(Pass(old(Snapshot()), multi), date, rows, flows, owner);
        (r.Ok? ==> error.None? && Pass(Snapshot(), mode) == r.value) &&
        (r.Err? ==> error == Some(r.error))
    {
      var row := Latest(rows, date);
      if row.None? {
        return multi, None;
      }
      var nav := Nav(row.value.netliq, total);
      navs := navs + [NavRow(date, nav)];
      mode, error := CashFlows(date, nav, FlowsOn(flows, date), multi);
    }

    /** The first date of `process`: the owner's initial units at NAV 1. */
    method Open(value: real, date: int)
      modifies this
      ensures Pass(Snapshot(), false) == Initial(old(Snapshot()), value, date, owner)
    {
      AddInvestor(owner);
      var key := Lower(owner);
      total := value / 1.0;
      investors := investors[key := UpdateUnits(investors[key], date, total)];
      navs := navs + [NavRow(date, 1.0)];
    }

    /** `process`: on success the book is the one `Processed` computes; on
        failure the error is its error. */
    method Process(rows: seq<NetRow>, flows: seq<Flow>) returns (error: Option<string>)
      modifies this
      ensures var r := Processed(old(Snapshot()), rows, flows, owner);
        (r.Ok? ==> error.None? && Snapshot() == r.value.book) &&
        (r.Err? ==> error == Some(r.error))
    {
      ghost var before := Snapshot();
      if rows == [] {
        return Some(IndexError);
      }
      var days := Days(rows, flows);
      if days == [] {
        return Some(IndexError);
      }
      var first := Latest(rows, days[0]);
      if first.None? {
        return Some(IndexError);
      }
      ghost var start := Initial(Snapshot(), first.value.netliq, days[0], owner);
      ghost var rest := days[1..];
      assert Processed(before, rows, flows, owner) == ApplyDays(start, rest, rows, flows, owner);
      Open(first.value.netliq, days[0]);
      var multi := false;
      assert Pass(Snapshot(), multi) == start;
      error := None;
      for i := 1 to |days|
        invariant error.None?
        invariant ApplyDays(start, rest[..i - 1], rows, flows, owner) == Ok(Pass(Snapshot(), multi))
      {
        ghost var prev := Pass(Snapshot(), multi);
        ApplyDaysPrefix(start, rest, i, rows, flows, owner);
        multi, error := Day(days[i], rows, flows, multi);
        if error.Some? {
          ApplyDaysStop(start, rest, i, rows, flows, owner);
          return;
        }
      }
      assert rest[..|days| - 1] == rest;
    }
  }
}
