/** Merging several position tables into one by symbol, as the Binance
    (spot then margin) and Bybit (derivatives then unified, or spot then
    derivatives) adapters do: a symbol seen before has its quantity and dollar
    value added to its existing row, a new symbol gets a new row with
    multiplier 1. */
module PositionMerge {
  import opened Common

  datatype Row = Row(symbol: string, quantity: real, dollar: real)

  function RowsOf(t: Table): (rs: seq<Row>)
    requires t.Valid()
    ensures |rs| == |t.symbol|
    ensures forall i :: 0 <= i < |rs| ==> rs[i] == Row(t.symbol[i], t.quantity[i], t.dollar[i])
    decreases |t.symbol|
  {
    if t.symbol == [] then []
    else
      var n := |t.symbol| - 1;
      RowsOf(Table(t.symbol[..n], t.multiplier[..n], t.quantity[..n], t.dollar[..n])) + [Row(t.symbol[n], t.quantity[n], t.dollar[n])]
  }

  /** The rows of all groups, group after group. */
  function AllRows(groups: seq<Table>): seq<Row>
    requires forall g :: g in groups ==> g.Valid()
  {
    if groups == [] then [] else AllRows(groups[..|groups| - 1]) + RowsOf(groups[|groups| - 1])
  }

  /** One step of the merge loop. */
  function Absorb(t: Table, r: Row): (u: Table)
    requires t.Valid()
    ensures u.Valid()
  {
    if r.symbol in t.symbol then
      var i := IndexOf(t.symbol, r.symbol);
      Table(t.symbol, t.multiplier, t.quantity[i := t.quantity[i] + r.quantity], t.dollar[i := t.dollar[i] + r.dollar])
    else
      t.Append(r.symbol, 1, r.quantity, r.dollar)
  }

  function Merge(rows: seq<Row>): (t: Table)
    ensures t.Valid()
  {
    if rows == [] then EmptyTable else Absorb(Merge(rows[..|rows| - 1]), rows[|rows| - 1])
  }

  function Symbols(rows: seq<Row>): (s: seq<string>)
    ensures |s| == |rows| && forall i :: 0 <= i < |rows| ==> s[i] == rows[i].symbol
  {
    if rows == [] then [] else Symbols(rows[..|rows| - 1]) + [rows[|rows| - 1].symbol]
  }

  /** The quantities, resp. dollar values, of the rows carrying `sym`, in order. */
  function QuantitiesOf(rows: seq<Row>, sym: string): seq<real>
  {
    if rows == [] then []
    else QuantitiesOf(rows[..|rows| - 1], sym) + (if rows[|rows| - 1].symbol == sym then [rows[|rows| - 1].quantity] else [])
  }

  function DollarsOf(rows: seq<Row>, sym: string): seq<real>
  {
    if rows == [] then []
    else DollarsOf(rows[..|rows| - 1], sym) + (if rows[|rows| - 1].symbol == sym then [rows[|rows| - 1].dollar] else [])
  }

  /** The merged table lists each symbol of the input exactly once, with
      multiplier 1. */
  lemma {:induction false} MergeSymbols(rows: seq<Row>)
    ensures var t := Merge(rows);
      Distinct(t.symbol)
      && (forall s :: s in t.symbol <==> s in Symbols(rows))
      && (forall i :: 0 <= i < |t.multiplier| ==> t.multiplier[i] == 1)
    decreases |rows|
  {
    if rows != [] {
      var init := rows[..|rows| - 1];
      MergeSymbols(init);
      assert Symbols(rows) == Symbols(init) + [rows[|rows| - 1].symbol];
    }
  }

  /** The merged table lists the symbols in the order of their first
      appearance. */
  lemma {:induction false} MergeOrder(rows: seq<Row>)
    ensures var t := Merge(rows);
      forall i, j :: 0 <= i < j < |t.symbol| ==>
        t.symbol[i] in Symbols(rows) && t.symbol[j] in Symbols(rows)
        && IndexOf(Symbols(rows), t.symbol[i]) < IndexOf(Symbols(rows), t.symbol[j])
    decreases |rows|
  {
    if rows != [] {
      var init := rows[..|rows| - 1];
      var r := rows[|rows| - 1];
      MergeOrder(init);
      MergeSymbols(init);
      var t0 := Merge(init);
      assert Symbols(rows) == Symbols(init) + [r.symbol];
      forall s | s in Symbols(init)
        ensures IndexOf(Symbols(rows), s) == IndexOf(Symbols(init), s)
      {
        IndexOfPrefix(Symbols(init), [r.symbol], s);
      }
      if r.symbol !in t0.symbol {
        assert r.symbol !in Symbols(init);
        assert IndexOf(Symbols(rows), r.symbol) == |init|;
      }
    }
  }

  /** Each merged row carries the sum of the quantities and of the dollar
      values of all input rows with its symbol. */
  lemma {:induction false} MergeSums(rows: seq<Row>)
    ensures var t := Merge(rows);
      forall i :: 0 <= i < |t.symbol| ==>
        t.quantity[i] == Sum(QuantitiesOf(rows, t.symbol[i])) && t.dollar[i] == Sum(DollarsOf(rows, t.symbol[i]))
    decreases |rows|
  {
    if rows != [] {
      var init := rows[..|rows| - 1];
      var r := rows[|rows| - 1];
      MergeSums(init);
      MergeSymbols(init);
      var t0 := Merge(init);
      var t := Merge(rows);
      var q0, d0 := QuantitiesOf(init, r.symbol), DollarsOf(init, r.symbol);
      assert QuantitiesOf(rows, r.symbol) == q0 + [r.quantity];
      assert DollarsOf(rows, r.symbol) == d0 + [r.dollar];
      if r.symbol !in t0.symbol {
        assert r.symbol !in Symbols(init);
        NoneOf(init, r.symbol);
      }
      forall i | 0 <= i < |t.symbol|
        ensures t.quantity[i] == Sum(QuantitiesOf(rows, t.symbol[i])) && t.dollar[i] == Sum(DollarsOf(rows, t.symbol[i]))
      {
        var s := t.symbol[i];
        if s == r.symbol {
          assert t.quantity[i] == Sum(q0) + r.quantity && t.dollar[i] == Sum(d0) + r.dollar by {
            if r.symbol in t0.symbol {
              assert IndexOf(t0.symbol, r.symbol) == i;
              assert t0.quantity[i] == Sum(q0) && t0.dollar[i] == Sum(d0);
            } else {
              assert q0 == [] && d0 == [];
            }
          }
          SumAppend(q0, [r.quantity]);
          SumAppend(d0, [r.dollar]);
          SumSingle(r.quantity);
          SumSingle(r.dollar);
        } else {
          assert i < |t0.symbol| && t0.symbol[i] == s && t.quantity[i] == t0.quantity[i] && t.dollar[i] == t0.dollar[i];
          assert t0.quantity[i] == Sum(QuantitiesOf(init, s)) && t0.dollar[i] == Sum(DollarsOf(init, s));
          assert QuantitiesOf(rows, s) == QuantitiesOf(init, s) + [] == QuantitiesOf(init, s);
          assert DollarsOf(rows, s) == DollarsOf(init, s) + [] == DollarsOf(init, s);
        }
      }
    }
  }

  lemma {:induction false} NoneOf(rows: seq<Row>, sym: string)
    requires sym !in Symbols(rows)
    ensures QuantitiesOf(rows, sym) == [] && DollarsOf(rows, sym) == []
    decreases |rows|
  {
    if rows != [] {
      assert Symbols(rows) == Symbols(rows[..|rows| - 1]) + [rows[|rows| - 1].symbol];
      NoneOf(rows[..|rows| - 1], sym);
    }
  }

  lemma IndexOfPrefix(a: seq<string>, b: seq<string>, x: string)
    requires x in a
    ensures x in a + b && IndexOf(a + b, x) == IndexOf(a, x)
  {
    var i := IndexOf(a, x);
    var j := IndexOf(a + b, x);
    assert (a + b)[i] == x;
  }

  lemma AllRowsStep(groups: seq<Table>, g: nat)
    requires forall t :: t in groups ==> t.Valid()
    requires g < |groups|
    ensures AllRows(groups[..g + 1]) == AllRows(groups[..g]) + RowsOf(groups[g])
  {
    assert groups[..g + 1][..g] == groups[..g];
  }

  lemma MergeStep(rows: seq<Row>, r: Row)
    ensures Merge(rows + [r]) == Absorb(Merge(rows), r)
  {
    assert (rows + [r])[..|rows|] == rows;
  }

  /** One turn of the inner merge loop: a row of an already-seen symbol (found
      with `list.index`) is added to that row, a new symbol is appended with
      multiplier 1. */
  method AbsorbRow(t: Table, symbol: string, quantity: real, dollar: real) returns (u: Table)
    requires t.Valid()
    ensures u == Absorb(t, Row(symbol, quantity, dollar))
  {
    if symbol in t.symbol {
      var index := IndexOf(t.symbol, symbol);
      u := t.(quantity := t.quantity[index := t.quantity[index] + quantity],
              dollar := t.dollar[index := t.dollar[index] + dollar]);
    } else {
      u := t.(symbol := t.symbol + [symbol], multiplier := t.multiplier + [1],
              quantity := t.quantity + [quantity], dollar := t.dollar + [dollar]);
    }
  }

  /** The inner merge loop over one group's rows: a row of an already-seen
      symbol (found with `list.index`) is added to that row, a new symbol is
      appended with multiplier 1. */
  method MergeGroup(acc: Table, group: Table, ghost done: seq<Row>) returns (out: Table)
    requires group.Valid() && acc == Merge(done)
    ensures out == Merge(done + RowsOf(group))
  {
    out := acc;
    ghost var seen := done;
    ghost var rows := RowsOf(group);
    var i := 0;
    while i < |group.symbol|
      invariant 0 <= i <= |group.symbol|
      invariant seen == done + rows[..i]
      invariant out == Merge(seen)
    {
      var symbol := group.symbol[i];
      ghost var r := Row(symbol, group.quantity[i], group.dollar[i]);
      assert r == rows[i];
      out := AbsorbRow(out, symbol, group.quantity[i], group.dollar[i]);
      MergeStep(seen, r);
      seen := seen + [r];
      assert rows[..i + 1] == rows[..i] + [r];
      i := i + 1;
    }
    assert rows[..i] == rows;
  }

  /** `_get_all_positions_sync` / `fetch_positions`: merge the groups in order. */
  method MergeGroups(groups: seq<Table>) returns (out: Table)
    requires forall g :: g in groups ==> g.Valid()
    ensures out == Merge(AllRows(groups))
  {
    out := EmptyTable;
    var g := 0;
    while g < |groups|
      invariant 0 <= g <= |groups|
      invariant out == Merge(AllRows(groups[..g]))
    {
      AllRowsStep(groups, g);
      out := MergeGroup(out, groups[g], AllRows(groups[..g]));
      g := g + 1;
    }
    assert groups[..g] == groups;
  }
}
