// The CSV writer: how an incoming balance row is merged into the balance
// file's columns, and how position columns are transposed into rows of the
// position file.

module CsvWriter {
  import opened Common

  /** A CSV file on disk: absent, empty, or a header line with data rows. */
  datatype CsvFile = NoFile | EmptyFile | Csv(header: seq<string>, rows: seq<seq<Cell>>)

  const DateColumn: string := "date"
  const Zero: Cell := Num(0.0)
  const ValueError: string := "ValueError"
  const KeyError: string := "KeyError"
  const EmptyDataError: string := "EmptyDataError"

  /** Equal as sets of column names. */
  predicate SameColumns(a: seq<string>, b: seq<string>)
  {
    (forall x :: x in a ==> x in b) && (forall x :: x in b ==> x in a)
  }

  /** The columns other than `date`, in order. */
  function Others(columns: seq<string>): seq<string>
  {
    Without(columns, {DateColumn})
  }

  /** The incoming columns the header lacks. The source walks a set
      difference, whose order Python leaves open; incoming order is used. */
  function NewColumns(keys: seq<string>, header: seq<string>): seq<string>
  {
    Without(keys, set c | c in header)
  }

  /** The cells of `row` under `columns`, read through `header`. */
  function Project(header: seq<string>, row: seq<Cell>, columns: seq<string>): (r: seq<Cell>)
    ensures |r| == |columns| && forall i :: 0 <= i < |columns| ==> r[i] == At(header, row, columns[i])
  {
    seq(|columns|, i requires 0 <= i < |columns| => At(header, row, columns[i]))
  }

  function Zeros(n: nat): (r: seq<Cell>)
    ensures |r| == n && forall i :: 0 <= i < n ==> r[i] == Zero
  {
    seq(n, _ => Zero)
  }

  // ---------------------------------------------------------------------------
  // The balance file

  /** The file `pd.DataFrame([d]).set_index("date").to_csv` writes: `date`
      first, then the other keys in order, and the one row under them. A row
      without `date` raises `KeyError`. */
  function NewFile(d: seq<(string, Cell)>): Result<CsvFile, string>
  {
    var date := Lookup(d, DateColumn);
    if date.None? then Err(KeyError)
    else Ok(Csv([DateColumn] + Others(Keys(d)), [[date.value] + Cells(d, Others(Keys(d)), Blank)]))
  }

  /** A data frame read with `index_col="date"`: the `date` cells as index,
      the other columns as data. */
  datatype Frame = Frame(columns: seq<string>, index: seq<Cell>, data: seq<seq<Cell>>)

  function ReadIndexed(header: seq<string>, rows: seq<seq<Cell>>): (f: Frame)
    ensures f.columns == Others(header) && |f.index| == |rows| && |f.data| == |rows|
  {
    Frame(Others(header),
          seq(|rows|, i requires 0 <= i < |rows| => At(header, rows[i], DateColumn)),
          seq(|rows|, i requires 0 <= i < |rows| => Project(header, rows[i], Others(header))))
  }

  /** `df[column] = float(0)` for a column the frame lacks. */
  function AddColumn(f: Frame, column: string): Frame
  {
    Frame(f.columns + [column], f.index, seq(|f.data|, i requires 0 <= i < |f.data| => f.data[i] + [Zero]))
  }

  function AddColumns(f: Frame, columns: seq<string>): (r: Frame)
    ensures |r.index| == |f.index| && |r.data| == |f.data|
  {
    if columns == [] then f else AddColumn(AddColumns(f, columns[..|columns| - 1]), columns[|columns| - 1])
  }

  /** Adding columns appends them to the frame's columns and a zero per
      column to every row, leaving the index alone. */
  lemma {:induction false} AddColumnsSpec(f: Frame, columns: seq<string>)
    ensures AddColumns(f, columns).columns == f.columns + columns
    ensures AddColumns(f, columns).index == f.index
    ensures forall i :: 0 <= i < |f.data| ==> AddColumns(f, columns).data[i] == f.data[i] + Zeros(|columns|)
  {
    if columns != [] {
      var init := columns[..|columns| - 1];
      AddColumnsSpec(f, init);
      assert init + [columns[|columns| - 1]] == columns;
      forall i | 0 <= i < |f.data|
        ensures AddColumns(f, columns).data[i] == f.data[i] + Zeros(|columns|)
      {
        assert f.data[i] + Zeros(|init|) + [Zero] == f.data[i] + Zeros(|columns|);
      }
    }
  }

  /** `pd.concat` with the new row: its `date` cell joins the index and its
      other cells are aligned by column name; columns it lacks stay empty. */
  function Concat(f: Frame, date: Cell, d: seq<(string, Cell)>): Frame
  {
    Frame(f.columns, f.index + [date], f.data + [Cells(d, f.columns, Blank)])
  }

  /** `to_csv`: the index column first. */
  function ToCsv(f: Frame): CsvFile
    requires |f.index| == |f.data|
  {
    Csv([DateColumn] + f.columns, seq(|f.data|, i requires 0 <= i < |f.data| => [f.index[i]] + f.data[i]))
  }

  /** The rewrite when the row brings new columns. */
  function Rewrite(header: seq<string>, rows: seq<seq<Cell>>, date: Cell, d: seq<(string, Cell)>): CsvFile
  {
    ToCsv(Concat(AddColumns(ReadIndexed(header, rows), NewColumns(Keys(d), header)), date, d))
  }

  /** `update_balances` with the row of the equal-columns branch laid out by
      the header, as the other branches lay theirs out. */
  function BalanceUpdate(file: CsvFile, d: seq<(string, Cell)>): Result<CsvFile, string>
  {
    match file
    case NoFile => NewFile(d)
    case EmptyFile => NewFile(d)
    case Csv(header, rows) =>
      var date := Lookup(d, DateColumn);
      if date.None? then Err(ValueError)
      else if SameColumns(header, Keys(d)) then Ok(Csv(header, rows + [Cells(d, header, Blank)]))
      else if NewColumns(Keys(d), header) != [] then
        if DateColumn !in header then Err(ValueError) else Ok(Rewrite(header, rows, date.value, d))
      else Ok(Csv(header, rows + [Cells(d, header, Zero)]))
  }

  /** `update_balances` as written: with equal column sets the row is written
      in the incoming key order, whatever the header's order. */
  function BalanceUpdateAsWritten(file: CsvFile, d: seq<(string, Cell)>): Result<CsvFile, string>
  {
    if file.Csv? && Lookup(d, DateColumn).Some? && SameColumns(file.header, Keys(d))
    then Ok(Csv(file.header, file.rows + [Values(d)]))
    else BalanceUpdate(file, d)
  }

  /** The header is `date` first, but the row arrives as `netliq`, `date`:
      written in arrival order, the row's `date` cell holds the net
      liquidation value. */
  lemma EqualColumnsMisaligned()
    ensures BalanceUpdateAsWritten(Csv([DateColumn, "netliq"], []), [("netliq", Num(1.0)), (DateColumn, Text("today"))])
              == Ok(Csv([DateColumn, "netliq"], [[Num(1.0), Text("today")]]))
    ensures At([DateColumn, "netliq"], [Num(1.0), Text("today")], DateColumn) == Num(1.0)
    ensures Lookup([("netliq", Num(1.0)), (DateColumn, Text("today"))], DateColumn) == Some(Text("today"))
  {
    var header := [DateColumn, "netliq"];
    var d := [("netliq", Num(1.0)), (DateColumn, Text("today"))];
    assert Lookup(d, DateColumn) == Some(Text("today"));
    assert IndexOf(header, DateColumn) == 0;
    assert Keys(d) == ["netliq", DateColumn];
    assert SameColumns(header, Keys(d));
    assert Values(d) == [Num(1.0), Text("today")];
    var file := Csv(header, []);
    assert file.Csv? && Lookup(d, DateColumn).Some? && SameColumns(file.header, Keys(d));
    assert BalanceUpdateAsWritten(file, d) == Ok(Csv(header, [] + [Values(d)]));
    assert [] + [Values(d)] == [[Num(1.0), Text("today")]];
  }

  /** When the row arrives in the header's own order, the source's layout and
      the header layout agree. */
  lemma AsWrittenAgreesInHeaderOrder(header: seq<string>, rows: seq<seq<Cell>>, d: seq<(string, Cell)>)
    requires Keys(d) == header && Distinct(header)
    ensures BalanceUpdateAsWritten(Csv(header, rows), d) == BalanceUpdate(Csv(header, rows), d)
  {
    forall i | 0 <= i < |d|
      ensures Lookup(d, d[i].0) == Some(d[i].1)
    {
      LookupAt(d, i);
    }
    assert Values(d) == Cells(d, header, Blank);
  }

  /** A new file holds the one row, each key's cell under its own column. */
  lemma NewFileAligned(d: seq<(string, Cell)>)
    requires Lookup(d, DateColumn).Some?
    ensures NewFile(d).Ok? && NewFile(d).value.Csv?
    ensures var f := NewFile(d).value;
      SameColumns(f.header, Keys(d)) && |f.rows| == 1 &&
      forall k :: k in Keys(d) ==> Lookup(d, k).Some? && At(f.header, f.rows[0], k) == Lookup(d, k).value
  {
    DateKeyPresent(d);
    forall k | k in Keys(d)
      ensures Lookup(d, k).Some? && At(NewFile(d).value.header, NewFile(d).value.rows[0], k) == Lookup(d, k).value
    {
      NewFileCell(d, k);
    }
  }

  lemma DateKeyPresent(d: seq<(string, Cell)>)
    requires Lookup(d, DateColumn).Some?
    ensures DateColumn in Keys(d)
  {
    if DateColumn !in Keys(d) {
      LookupMissing(d, DateColumn);
    }
  }

  lemma NewFileCell(d: seq<(string, Cell)>, k: string)
    requires Lookup(d, DateColumn).Some? && k in Keys(d)
    ensures NewFile(d).Ok? && NewFile(d).value.Csv? && |NewFile(d).value.rows| == 1
    ensures Lookup(d, k).Some? && At(NewFile(d).value.header, NewFile(d).value.rows[0], k) == Lookup(d, k).value
  {
    LookupPresent(d, k);
    var others := Others(Keys(d));
    var cells := Cells(d, others, Blank);
    assert NewFile(d) == Ok(Csv([DateColumn] + others, [[Lookup(d, DateColumn).value] + cells]));
    if k != DateColumn {
      assert k in others;
      AtShifted(DateColumn, others, Lookup(d, DateColumn).value, cells, k);
      assert cells[IndexOf(others, k)] == Lookup(d, k).value;
    }
  }

  /** The file the rewrite produces: `date`, the old columns, the added ones;
      the old rows, each padded with zeros, then the new row. */
  lemma RewriteShape(header: seq<string>, rows: seq<seq<Cell>>, date: Cell, d: seq<(string, Cell)>)
    ensures var f := Rewrite(header, rows, date, d);
      var added := NewColumns(Keys(d), header);
      f.Csv? && f.header == [DateColumn] + (Others(header) + added) && |f.rows| == |rows| + 1 &&
      f.rows[|rows|] == [date] + Cells(d, Others(header) + added, Blank) &&
      forall i :: 0 <= i < |rows| ==>
        f.rows[i] == [At(header, rows[i], DateColumn)] + (Project(header, rows[i], Others(header)) + Zeros(|added|))
  {
    AddColumnsSpec(ReadIndexed(header, rows), NewColumns(Keys(d), header));
  }

  /** A cell read through a header with one more column in front. */
  lemma AtShifted(first: string, columns: seq<string>, head: Cell, rest: seq<Cell>, k: string)
    requires k != first && k in columns && |rest| == |columns|
    ensures At([first] + columns, [head] + rest, k) == rest[IndexOf(columns, k)]
  {
    IndexOfRight([first], columns, k);
  }

  /** After the rewrite, the new row has the key's cell under its column. */
  lemma RewriteCell(header: seq<string>, rows: seq<seq<Cell>>, date: Cell, d: seq<(string, Cell)>, k: string)
    requires Lookup(d, DateColumn) == Some(date) && k in Keys(d) && DateColumn in header
    ensures var f := Rewrite(header, rows, date, d);
      f.Csv? && |f.rows| == |rows| + 1 &&
      k in f.header && Lookup(d, k).Some? && At(f.header, f.rows[|rows|], k) == Lookup(d, k).value
  {
    RewriteShape(header, rows, date, d);
    LookupPresent(d, k);
    var columns := Others(header) + NewColumns(Keys(d), header);
    if k != DateColumn {
      assert k in columns;
      AtShifted(DateColumn, columns, date, Cells(d, columns, Blank), k);
    }
  }

  /** The rewrite keeps an old row's cell under each old column. */
  lemma RewriteKeepsCell(header: seq<string>, rows: seq<seq<Cell>>, date: Cell, d: seq<(string, Cell)>, i: nat, c: string)
    requires i < |rows| && c in header
    ensures var f := Rewrite(header, rows, date, d);
      f.Csv? && |f.rows| == |rows| + 1 && c in f.header && At(f.header, f.rows[i], c) == At(header, rows[i], c)
  {
    RewriteShape(header, rows, date, d);
    var others := Others(header);
    var added := NewColumns(Keys(d), header);
    if c != DateColumn {
      var rest := Project(header, rows[i], others) + Zeros(|added|);
      assert c in others;
      AtShifted(DateColumn, others + added, At(header, rows[i], DateColumn), rest, c);
      assert rest[IndexOf(others + added, c)] == At(header, rows[i], c) by {
        IndexOfLeft(others, added, c);
      }
    }
  }

  /** The rewrite puts 0 under each added column of an old row. */
  lemma RewriteZeroCell(header: seq<string>, rows: seq<seq<Cell>>, date: Cell, d: seq<(string, Cell)>, i: nat, c: string)
    requires i < |rows| && c in NewColumns(Keys(d), header) && DateColumn in header
    ensures var f := Rewrite(header, rows, date, d);
      f.Csv? && |f.rows| == |rows| + 1 && c in f.header && At(f.header, f.rows[i], c) == Zero
  {
    RewriteShape(header, rows, date, d);
    var others := Others(header);
    var added := NewColumns(Keys(d), header);
    assert c !in others && c != DateColumn;
    var rest := Project(header, rows[i], others) + Zeros(|added|);
    AtShifted(DateColumn, others + added, At(header, rows[i], DateColumn), rest, c);
    assert rest[IndexOf(others + added, c)] == Zero by {
      IndexOfRight(others, added, c);
    }
  }

  /** The rewrite keeps every old row: each old column keeps its cell and
      each added column holds 0. */
  lemma RewriteKeepsRows(header: seq<string>, rows: seq<seq<Cell>>, date: Cell, d: seq<(string, Cell)>, i: nat)
    requires DateColumn in header && i < |rows|
    ensures var f := Rewrite(header, rows, date, d);
      f.Csv? && |f.rows| == |rows| + 1 &&
      (forall c :: c in header ==> c in f.header && At(f.header, f.rows[i], c) == At(header, rows[i], c)) &&
      (forall c :: c in NewColumns(Keys(d), header) ==> c in f.header && At(f.header, f.rows[i], c) == Zero)
  {
    forall c | c in header
      ensures c in Rewrite(header, rows, date, d).header
      ensures At(Rewrite(header, rows, date, d).header, Rewrite(header, rows, date, d).rows[i], c) == At(header, rows[i], c)
    {
      RewriteKeepsCell(header, rows, date, d, i, c);
    }
    forall c | c in NewColumns(Keys(d), header)
      ensures c in Rewrite(header, rows, date, d).header
      ensures At(Rewrite(header, rows, date, d).header, Rewrite(header, rows, date, d).rows[i], c) == Zero
    {
      RewriteZeroCell(header, rows, date, d, i, c);
    }
  }

  /** What `update_balances` promises, on the header layout: it fails only
      for a row without `date` (or a header without it that must be
      rebuilt); otherwise one row is added, every incoming key has a column
      and its cell lies under it, and no column of the old header is lost. */
  lemma BalanceUpdateSpec(file: CsvFile, d: seq<(string, Cell)>)
    ensures BalanceUpdate(file, d).Err? <==>
              Lookup(d, DateColumn).None? || (file.Csv? && !SameColumns(file.header, Keys(d)) &&
                                              NewColumns(Keys(d), file.header) != [] && DateColumn !in file.header)
    ensures BalanceUpdate(file, d).Ok? ==>
      var f := BalanceUpdate(file, d).value;
      f.Csv? && |f.rows| == (if file.Csv? then |file.rows| else 0) + 1 &&
      (file.Csv? ==> forall c :: c in file.header ==> c in f.header) &&
      forall k :: k in Keys(d) ==> k in f.header && Lookup(d, k).Some? && At(f.header, f.rows[|f.rows| - 1], k) == Lookup(d, k).value
  {
    if BalanceUpdate(file, d).Ok? {
      var f := BalanceUpdate(file, d).value;
      if !file.Csv? {
        NewFileAligned(d);
      } else {
        var header := file.header;
        var date := Lookup(d, DateColumn).value;
        forall k | k in Keys(d)
          ensures Lookup(d, k).Some?
        {
          LookupPresent(d, k);
        }
        if SameColumns(header, Keys(d)) {
          forall k | k in Keys(d)
            ensures At(f.header, f.rows[|f.rows| - 1], k) == Lookup(d, k).value
          {
            CellsAt(d, header, Blank, k);
          }
        } else if NewColumns(Keys(d), header) != [] {
          RewriteShape(header, file.rows, date, d);
          forall k | k in Keys(d)
            ensures k in f.header && At(f.header, f.rows[|f.rows| - 1], k) == Lookup(d, k).value
          {
            RewriteCell(header, file.rows, date, d, k);
          }
          forall c | c in header
            ensures c in f.header
          {
            assert c == DateColumn || c in Others(header);
          }
        } else {
          forall k | k in Keys(d)
            ensures k in header && At(f.header, f.rows[|f.rows| - 1], k) == Lookup(d, k).value
          {
            assert k !in NewColumns(Keys(d), header);
            CellsAt(d, header, Zero, k);
          }
        }
      }
    } else if file.Csv? && Lookup(d, DateColumn).Some? {
      assert !SameColumns(file.header, Keys(d)) && NewColumns(Keys(d), file.header) != [];
    }
  }

  /** When the row has no new column but the sets differ, the header has
      columns the row lacks; those get 0. */
  lemma SubsetRowPadsZero(header: seq<string>, rows: seq<seq<Cell>>, d: seq<(string, Cell)>, c: string)
    requires Lookup(d, DateColumn).Some? && !SameColumns(header, Keys(d)) && NewColumns(Keys(d), header) == []
    requires c in header && c !in Keys(d)
    ensures BalanceUpdate(Csv(header, rows), d) == Ok(Csv(header, rows + [Cells(d, header, Zero)]))
    ensures At(header, Cells(d, header, Zero), c) == Zero
  {
    LookupMissing(d, c);
    CellsAt(d, header, Zero, c);
  }

  // ---------------------------------------------------------------------------
  // The position file

  /** `update_positions`: a missing file gets the header and the rows; an
      empty file fails to parse; a header whose column set differs raises;
      otherwise the rows are appended in incoming column order. */
  function PositionUpdate(file: CsvFile, columns: seq<(string, seq<Cell>)>): Result<CsvFile, string>
  {
    match file
    case NoFile => Ok(Csv(Names(columns), Transpose(Lists(columns))))
    case EmptyFile => Err(EmptyDataError)
    case Csv(header, rows) =>
      if !SameColumns(header, Names(columns)) then Err(ValueError)
      else Ok(Csv(header, rows + Transpose(Lists(columns))))
  }

  /** The update fails exactly on an empty file or a header whose column set
      differs; otherwise the header is kept (or written from the incoming
      names) and one row per index below the shortest column is appended. */
  lemma PositionUpdateSpec(file: CsvFile, columns: seq<(string, seq<Cell>)>)
    ensures PositionUpdate(file, columns).Err? <==>
      file.EmptyFile? || (file.Csv? && !SameColumns(file.header, Names(columns)))
    ensures PositionUpdate(file, columns).Ok? ==>
      var f := PositionUpdate(file, columns).value;
      f.Csv? && f.header == (if file.Csv? then file.header else Names(columns))
      && f.rows == (if file.Csv? then file.rows else []) + Transpose(Lists(columns))
      && |f.rows| == (if file.Csv? then |file.rows| else 0) + Shortest(Lists(columns))
  {
  }

  /** When the header lists the columns in incoming order, each appended cell
      lies under its own column. */
  lemma PositionCellAt(file: CsvFile, columns: seq<(string, seq<Cell>)>, i: nat, j: nat)
    requires Distinct(Names(columns))
    requires PositionUpdate(file, columns).Ok? && PositionUpdate(file, columns).value.header == Names(columns)
    requires i < Shortest(Lists(columns)) && j < |columns|
    ensures var f := PositionUpdate(file, columns).value;
      At(f.header, f.rows[|if file.Csv? then file.rows else []| + i], columns[j].0) == columns[j].1[i]
  {
    var f := PositionUpdate(file, columns).value;
    var old_rows := if file.Csv? then file.rows else [];
    var row := Transpose(Lists(columns))[i];
    assert f.rows[|old_rows| + i] == row;
    assert row[j] == Lists(columns)[j][i] == columns[j].1[i];
    IndexOfDistinct(f.header, j);
  }

  // ---------------------------------------------------------------------------
  // The writer object

  /** The writer with the two files it maintains. */
  class Writer {
    var balanceFile: CsvFile
    var positionFile: CsvFile

    constructor (balanceFile: CsvFile, positionFile: CsvFile)
      ensures this.balanceFile == balanceFile && this.positionFile == positionFile
    {
      this.balanceFile := balanceFile;
      this.positionFile := positionFile;
    }

    /** Merges one balance row into the balance file; an error leaves the
        file as it was. */
    method UpdateBalances(d: seq<(string, Cell)>) returns (error: Option<string>)
      modifies this
      ensures var u := BalanceUpdate(old(balanceFile), d);
        (u.Ok? ==> balanceFile == u.value && error.None?) &&
        (u.Err? ==> balanceFile == old(balanceFile) && error == Some(u.error))
      ensures positionFile == old(positionFile)
    {
      match balanceFile {
        case NoFile =>
          var n := NewFile(d);
          if n.Err? {
            return Some(n.error);
          }
          balanceFile := n.value;
        case EmptyFile =>
          var n := NewFile(d);
          if n.Err? {
            return Some(n.error);
          }
          balanceFile := n.value;
        case Csv(header, rows) =>
          var date := Lookup(d, DateColumn);
          if date.None? {
            return Some(ValueError);
          }
          if SameColumns(header, Keys(d)) {
            balanceFile := Csv(header, rows + [Cells(d, header, Blank)]);
          } else {
            var added := NewColumns(Keys(d), header);
            if added != [] {
              if DateColumn !in header {
                return Some(ValueError);
              }
              var f := ReadIndexed(header, rows);
              for i := 0 to |added|
                invariant f == AddColumns(ReadIndexed(header, rows), added[..i])
              {
                assert added[..i + 1][..i] == added[..i];
                f := AddColumn(f, added[i]);
              }
              assert added[..|added|] == added;
              f := Concat(f, date.value, d);
              balanceFile := ToCsv(f);
            } else {
              balanceFile := Csv(header, rows + [Cells(d, header, Zero)]);
            }
          }
      }
      return None;
    }

    /** Appends the transposed position columns to the position file; an
        error leaves the file as it was. */
    method UpdatePositions(columns: seq<(string, seq<Cell>)>) returns (error: Option<string>)
      modifies this
      ensures var u := PositionUpdate(old(positionFile), columns);
        (u.Ok? ==> positionFile == u.value && error.None?) &&
        (u.Err? ==> positionFile == old(positionFile) && error == Some(u.error))
      ensures balanceFile == old(balanceFile)
    {
      var header: seq<string>;
      var rows: seq<seq<Cell>>;
      match positionFile {
        case NoFile =>
          header, rows := Names(columns), [];
        case EmptyFile =>
          return Some(EmptyDataError);
        case Csv(h, r) =>
          if !SameColumns(h, Names(columns)) {
            return Some(ValueError);
          }
          header, rows := h, r;
      }
      var zipped := Transpose(Lists(columns));
      ghost var before := rows;
      for i := 0 to |zipped|
        invariant rows == before + zipped[..i]
      {
        assert zipped[..i + 1] == zipped[..i] + [zipped[i]];
        rows := rows + [zipped[i]];
      }
      assert zipped[..|zipped|] == zipped;
      positionFile := Csv(header, rows);
      return None;
    }
  }
}
