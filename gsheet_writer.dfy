// The Google-Sheet writer: how an incoming balance row is merged into the
// balance worksheet's columns, and how position columns are transposed into
// rows of the position worksheet.

module GsheetWriter {
  import opened Common

  /** A worksheet: its first row (the header; empty for an empty sheet) and
      the data rows under it. */
  datatype Sheet = Sheet(header: seq<string>, rows: seq<seq<Cell>>)

  const EmptySheet: Sheet := Sheet([], [])
  const Zero: Cell := Num(0.0)
  const ValueError: string := "ValueError"

  /** Equal as sets of column names. */
  predicate SameColumns(a: seq<string>, b: seq<string>)
  {
    (forall x :: x in a ==> x in b) && (forall x :: x in b ==> x in a)
  }

  /** `set_new_columns - set_headers`: the incoming columns the header lacks.
      Python leaves the order of a set open; incoming order is used. */
  function NewColumns(keys: seq<string>, header: seq<string>): seq<string>
  {
    Without(keys, set c | c in header)
  }

  /** An old record reindexed on `columns`: its own cell under each of its
      columns, 0 under the others. */
  function Reindex(header: seq<string>, row: seq<Cell>, columns: seq<string>): (r: seq<Cell>)
    ensures |r| == |columns|
    ensures forall i :: 0 <= i < |columns| ==> r[i] == (if columns[i] in header then At(header, row, columns[i]) else Zero)
  {
    seq(|columns|, i requires 0 <= i < |columns| => if columns[i] in header then At(header, row, columns[i]) else Zero)
  }

  function ReindexAll(header: seq<string>, rows: seq<seq<Cell>>, columns: seq<string>): (r: seq<seq<Cell>>)
    ensures |r| == |rows| && forall i :: 0 <= i < |rows| ==> r[i] == Reindex(header, rows[i], columns)
  {
    seq(|rows|, i requires 0 <= i < |rows| => Reindex(header, rows[i], columns))
  }

  // ---------------------------------------------------------------------------
  // The balance worksheet

  /** `update_balances`: an empty sheet gets the incoming keys as header and
      the row under them; equal column sets append the row in header order;
      otherwise the header is extended by the new columns, every old record
      is reindexed with 0 in them, the row is added with 0 under the columns
      it lacks, and the sheet is cleared and rewritten. */
  function BalanceUpdate(sheet: Sheet, d: seq<(string, Cell)>): Sheet
  {
    if sheet.header == [] then Sheet(Keys(d), [Cells(d, Keys(d), Blank)])
    else if SameColumns(sheet.header, Keys(d)) then Sheet(sheet.header, sheet.rows + [Cells(d, sheet.header, Blank)])
    else
      var columns := sheet.header + NewColumns(Keys(d), sheet.header);
      Sheet(columns, ReindexAll(sheet.header, sheet.rows, columns) + [Cells(d, columns, Zero)])
  }

  /** Under the merged header, an old record keeps its cell under each old
      column and holds 0 under each added one. */
  lemma ReindexCell(header: seq<string>, row: seq<Cell>, added: seq<string>, c: string)
    requires c in header || c in added
    ensures c in header + added
    ensures At(header + added, Reindex(header, row, header + added), c) == (if c in header then At(header, row, c) else Zero)
  {
    if c in header {
      IndexOfLeft(header, added, c);
    } else {
      IndexOfRight(header, added, c);
    }
  }

  /** The row `update_balances` adds: one row more; the old header a prefix of
      the new one; every incoming key a column with its cell under it; 0 under
      a column the row lacks. */
  predicate RowPlaced(sheet: Sheet, d: seq<(string, Cell)>, s: Sheet)
  {
    |s.rows| == (if sheet.header == [] then 1 else |sheet.rows| + 1) &&
    |sheet.header| <= |s.header| && s.header[..|sheet.header|] == sheet.header &&
    (forall k :: k in Keys(d) ==> k in s.header && Lookup(d, k).Some? && At(s.header, s.rows[|s.rows| - 1], k) == Lookup(d, k).value) &&
    (forall c :: c in s.header && c !in Keys(d) ==> At(s.header, s.rows[|s.rows| - 1], c) == Zero)
  }

  /** Every old row keeps its cells, with 0 under any added column. */
  predicate RowsKept(sheet: Sheet, s: Sheet)
    requires |sheet.rows| <= |s.rows|
  {
    forall i, c :: 0 <= i < |sheet.rows| && c in s.header ==>
      At(s.header, s.rows[i], c) == (if c in sheet.header then At(sheet.header, sheet.rows[i], c) else Zero)
  }

  /** What `update_balances` promises: one row is added; the old header is
      kept as a prefix of the new one; every incoming key has a column and
      its cell lies under it; a column the row lacks gets 0; and every old
      row keeps its cells, with 0 under any added column. */
  lemma BalanceUpdateSpec(sheet: Sheet, d: seq<(string, Cell)>)
    ensures var s := BalanceUpdate(sheet, d);
      |s.rows| == (if sheet.header == [] then 1 else |sheet.rows| + 1) &&
      s.header[..|sheet.header|] == sheet.header &&
      (forall k :: k in Keys(d) ==> k in s.header && Lookup(d, k).Some? && At(s.header, s.rows[|s.rows| - 1], k) == Lookup(d, k).value) &&
      (forall c :: c in s.header && c !in Keys(d) ==> At(s.header, s.rows[|s.rows| - 1], c) == Zero)
    ensures sheet.header != [] ==>
      var s := BalanceUpdate(sheet, d);
      forall i, c :: 0 <= i < |sheet.rows| && c in s.header ==>
        At(s.header, s.rows[i], c) == (if c in sheet.header then At(sheet.header, sheet.rows[i], c) else Zero)
  {
    var s := BalanceUpdate(sheet, d);
    forall k | k in Keys(d)
      ensures Lookup(d, k).Some?
    {
      LookupPresent(d, k);
    }
    if sheet.header == [] {
      UpdateIntoEmpty(sheet, d);
    } else if SameColumns(sheet.header, Keys(d)) {
      UpdateSameColumns(sheet, d);
    } else {
      UpdateNewColumns(sheet, d);
    }
    assert RowPlaced(sheet, d, s);
    assert sheet.header != [] ==> RowsKept(sheet, s);
  }

  lemma UpdateIntoEmpty(sheet: Sheet, d: seq<(string, Cell)>)
    requires sheet.header == [] && forall k :: k in Keys(d) ==> Lookup(d, k).Some?
    ensures RowPlaced(sheet, d, BalanceUpdate(sheet, d))
  {
    var s := BalanceUpdate(sheet, d);
    forall k | k in Keys(d)
      ensures At(s.header, s.rows[0], k) == Lookup(d, k).value
    {
      CellsAt(d, Keys(d), Blank, k);
    }
  }

  lemma UpdateSameColumns(sheet: Sheet, d: seq<(string, Cell)>)
    requires sheet.header != [] && SameColumns(sheet.header, Keys(d)) && forall k :: k in Keys(d) ==> Lookup(d, k).Some?
    ensures RowPlaced(sheet, d, BalanceUpdate(sheet, d))
    ensures RowsKept(sheet, BalanceUpdate(sheet, d))
  {
    var s := BalanceUpdate(sheet, d);
    forall k | k in Keys(d)
      ensures At(s.header, s.rows[|s.rows| - 1], k) == Lookup(d, k).value
    {
      CellsAt(d, sheet.header, Blank, k);
    }
    forall i, c | 0 <= i < |sheet.rows| && c in s.header
      ensures At(s.header, s.rows[i], c) == At(sheet.header, sheet.rows[i], c)
    {
      assert s.rows[i] == sheet.rows[i];
    }
  }

  lemma UpdateNewColumns(sheet: Sheet, d: seq<(string, Cell)>)
    requires sheet.header != [] && !SameColumns(sheet.header, Keys(d)) && forall k :: k in Keys(d) ==> Lookup(d, k).Some?
    ensures RowPlaced(sheet, d, BalanceUpdate(sheet, d))
    ensures RowsKept(sheet, BalanceUpdate(sheet, d))
  {
    var s := BalanceUpdate(sheet, d);
    var added := NewColumns(Keys(d), sheet.header);
    assert s.header == sheet.header + added;
    forall k | k in Keys(d)
      ensures k in s.header && At(s.header, s.rows[|s.rows| - 1], k) == Lookup(d, k).value
    {
      assert k in sheet.header || k in added;
      CellsAt(d, s.header, Zero, k);
    }
    forall c | c in s.header && c !in Keys(d)
      ensures At(s.header, s.rows[|s.rows| - 1], c) == Zero
    {
      LookupMissing(d, c);
      CellsAt(d, s.header, Zero, c);
    }
    forall i, c | 0 <= i < |sheet.rows| && c in s.header
      ensures At(s.header, s.rows[i], c) == (if c in sheet.header then At(sheet.header, sheet.rows[i], c) else Zero)
    {
      assert s.rows[i] == Reindex(sheet.header, sheet.rows[i], s.header);
      ReindexCell(sheet.header, sheet.rows[i], added, c);
    }
  }

  /** Nothing is appended in arrival order: a row whose keys arrive in an
      order other than the header's still lands under its own columns. */
  lemma ReorderedRowAligned()
    ensures var sheet := Sheet(["date", "netliq"], []);
      var d := [("netliq", Num(1.0)), ("date", Text("today"))];
      BalanceUpdate(sheet, d) == Sheet(["date", "netliq"], [[Text("today"), Num(1.0)]])
  {
    var d := [("netliq", Num(1.0)), ("date", Text("today"))];
    assert Keys(d) == ["netliq", "date"];
    assert Lookup(d, "date") == Some(Text("today"));
    assert Lookup(d, "netliq") == Some(Num(1.0));
    assert Cells(d, ["date", "netliq"], Blank) == [Text("today"), Num(1.0)];
  }

  // ---------------------------------------------------------------------------
  // The position worksheet

  /** `update_positions`: a non-empty header must equal the incoming keys as
      an ordered list, else `ValueError`; an empty sheet gets them as
      header; then `zip(*columns)` is appended. */
  function PositionUpdate(sheet: Sheet, columns: seq<(string, seq<Cell>)>): Result<Sheet, string>
  {
    if sheet.header != [] && sheet.header != Names(columns) then Err(ValueError)
    else Ok(Sheet(Names(columns), sheet.rows + Transpose(Lists(columns))))
  }

  /** The header check is on order, not only on the set: the update succeeds
      exactly when the sheet is empty or its header lists the incoming
      columns in their order. The sheet then has that header, the rows are
      appended, one per index below the shortest column, and each cell lies
      under its own column. */
  lemma PositionUpdateSpec(sheet: Sheet, columns: seq<(string, seq<Cell>)>)
    requires Distinct(Names(columns))
    ensures PositionUpdate(sheet, columns).Ok? <==> sheet.header == [] || sheet.header == Names(columns)
    ensures PositionUpdate(sheet, columns).Ok? ==>
      var s := PositionUpdate(sheet, columns).value;
      s.header == Names(columns) && s.rows == sheet.rows + Transpose(Lists(columns)) &&
      forall i, j :: 0 <= i < Shortest(Lists(columns)) && 0 <= j < |columns| ==>
        At(s.header, s.rows[|sheet.rows| + i], columns[j].0) == columns[j].1[i]
  {
    if PositionUpdate(sheet, columns).Ok? {
      var s := PositionUpdate(sheet, columns).value;
      forall i, j | 0 <= i < Shortest(Lists(columns)) && 0 <= j < |columns|
        ensures At(s.header, s.rows[|sheet.rows| + i], columns[j].0) == columns[j].1[i]
      {
        assert s.rows[|sheet.rows| + i] == Transpose(Lists(columns))[i];
        assert IndexOf(s.header, columns[j].0) == j;
      }
    }
  }

  /** The same columns in another order are refused. */
  lemma ReorderedHeaderRefused()
    ensures PositionUpdate(Sheet(["Symbol", "Quantity"], []), [("Quantity", []), ("Symbol", [])]) == Err(ValueError)
  {
    assert Names([("Quantity", []), ("Symbol", [])]) == ["Quantity", "Symbol"];
  }

  // ---------------------------------------------------------------------------
  // The writer object

  /** The writer with the two worksheets it maintains. */
  class Writer {
    var balances: Sheet
    var positions: Sheet

    constructor (balances: Sheet, positions: Sheet)
      ensures this.balances == balances && this.positions == positions
    {
      this.balances := balances;
      this.positions := positions;
    }

    /** Merges one balance row into the balance worksheet. */
    method UpdateBalances(d: seq<(string, Cell)>)
      modifies this
      ensures balances == BalanceUpdate(old(balances), d)
      ensures positions == old(positions)
    {
      var headers := balances.header;
      var newColumns := Keys(d);
      if headers == [] {
        balances := Sheet(newColumns, balances.rows);
        balances := Sheet(balances.header, [Cells(d, newColumns, Blank)]);
        return;
      }
      if SameColumns(headers, newColumns) {
        balances := Sheet(headers, balances.rows + [Cells(d, headers, Blank)]);
        return;
      }
      var allColumns := headers + NewColumns(newColumns, headers);
      var rows := ReindexAll(headers, balances.rows, allColumns);
      rows := rows + [Cells(d, allColumns, Zero)];
      balances := EmptySheet;
      balances := Sheet(allColumns, rows);
    }

    /** Appends the transposed position columns; a header mismatch leaves
        the worksheet as it was. */
    method UpdatePositions(columns: seq<(string, seq<Cell>)>) returns (error: Option<string>)
      modifies this
      ensures var u := PositionUpdate(old(positions), columns);
        (u.Ok? ==> positions == u.value && error.None?) &&
        (u.Err? ==> positions == old(positions) && error == Some(u.error))
      ensures balances == old(balances)
    {
      if positions.header != [] {
        if positions.header != Names(columns) {
          return Some(ValueError);
        }
      } else {
        positions := Sheet(Names(columns), positions.rows);
      }
      var rows := Transpose(Lists(columns));
      if rows != [] {
        positions := Sheet(positions.header, positions.rows + rows);
      }
      return None;
    }
  }
}
