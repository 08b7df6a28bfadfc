// The older single-process runner: its day-boundary predicate on ISO 8601
// week dates (ISO 8601:2004 section 4.1.4), the manual balance, and the gate
// of the periodic FLEX loop that writes the netliq file once a day.

module LegacyRunner {
  import opened Common

  /** An ISO week date: year, week number, and weekday (Monday 0 to Sunday 6,
      as Python's `weekday()`). */
  datatype IsoDate = IsoDate(year: int, week: int, weekday: int)

  const FileNotFoundError: string := "FileNotFoundError"
  const KeyError: string := "KeyError"

  /** `is_new_day`: with no file it is a new day; otherwise the last written
      date and today are compared by week number, then by weekday. The year
      is not looked at. */
  predicate IsNewDay(last: Option<IsoDate>, today: IsoDate)
  {
    if last.None? then true
    else if today.week != last.value.week then true
    else today.weekday != last.value.weekday
  }

  /** Two dates fall on the same (week, weekday). */
  predicate SameSlot(a: IsoDate, b: IsoDate)
  {
    a.week == b.week && a.weekday == b.weekday
  }

  /** A new day is exactly a different (week, weekday) slot, so within one
      ISO year it is exactly a different date, and the same date is never
      a new day. */
  lemma NewDaySpec(last: IsoDate, today: IsoDate)
    ensures IsNewDay(Some(last), today) <==> !SameSlot(last, today)
    ensures last.year == today.year ==> (IsNewDay(Some(last), today) <==> last != today)
    ensures !IsNewDay(Some(today), today)
  {
  }

  /** The same week number and weekday a year apart is not a new day. */
  lemma YearNotCompared()
    ensures !IsNewDay(Some(IsoDate(2023, 1, 0)), IsoDate(2024, 1, 0))
  {
  }

  // ---------------------------------------------------------------------------
  // The IB report day

  /** The two files the runner writes. */
  datatype FileKind = NetliqFile | PositionsFile

  /** `is_ib_flew_new_day`: the same predicate with the report time of the
      IB statement matching the file (balance for netliq, positions for
      positions) in place of today. */
  predicate IsIbFlexNewDay(kind: FileKind, last: Option<IsoDate>, balanceGenerated: IsoDate, positionsGenerated: IsoDate)
  {
    IsNewDay(last, if kind == NetliqFile then balanceGenerated else positionsGenerated)
  }

  /** The report day is checked against the file's last date; only the
      statement matching the file matters. */
  lemma IbFlexNewDaySpec(kind: FileKind, last: Option<IsoDate>, balanceGenerated: IsoDate, positionsGenerated: IsoDate)
    ensures kind == NetliqFile ==>
      (IsIbFlexNewDay(kind, last, balanceGenerated, positionsGenerated) <==> last.None? || !SameSlot(last.value, balanceGenerated))
    ensures kind == PositionsFile ==>
      (IsIbFlexNewDay(kind, last, balanceGenerated, positionsGenerated) <==> last.None? || !SameSlot(last.value, positionsGenerated))
  {
  }

  // ---------------------------------------------------------------------------
  // The manual balance

  /** `get_manual_balance`: 0 when the flag is off; otherwise the first
      value of the `manual_balance` column of the file, which must exist
      (a missing file raises `FileNotFoundError`, an empty column
      `KeyError`). */
  function ManualBalance(flag: bool, file: Option<seq<real>>): Result<real, string>
  {
    if !flag then Ok(0.0)
    else if file.None? then Err(FileNotFoundError)
    else if file.value == [] then Err(KeyError)
    else Ok(file.value[0])
  }

  /** The manual balance by case. */
  lemma ManualBalanceSpec(flag: bool, file: Option<seq<real>>)
    ensures !flag ==> ManualBalance(flag, file) == Ok(0.0)
    ensures flag && file.None? ==> ManualBalance(flag, file) == Err(FileNotFoundError)
    ensures ManualBalance(flag, file).Ok? && flag ==> file.Some? && |file.value| > 0 && ManualBalance(flag, file).value == file.value[0]
  {
  }

  // ---------------------------------------------------------------------------
  // The periodic FLEX loop

  /** What one pass of the loop sees: today's date, the IB balance report's
      date, the netliq the fetcher computes, and the manual-balance file. */
  datatype Tick = Tick(today: IsoDate, ibGenerated: IsoDate, netliq: real, manualFile: Option<seq<real>>)

  /** A row of the netliq file: its date and its netliq. */
  datatype NetRow = NetRow(date: IsoDate, netliq: real)

  /** The file's rows after some passes, and the exception that ended the
      loop, if any. */
  datatype Run = Run(rows: seq<NetRow>, error: Option<string>)

  function LastDate(rows: seq<NetRow>): Option<IsoDate>
  {
    if rows == [] then None else Some(rows[|rows| - 1].date)
  }

  /** The write gate: a new local day and a new IB report day. */
  predicate Gate(rows: seq<NetRow>, t: Tick)
  {
    IsNewDay(LastDate(rows), t.today) && IsIbFlexNewDay(NetliqFile, LastDate(rows), t.ibGenerated, t.ibGenerated)
  }

  /** One pass: when the gate opens, the manual balance is read and a row
      dated today with the netliq plus the manual balance is appended. */
  function Step(rows: seq<NetRow>, t: Tick, flag: bool): Run
  {
    if !Gate(rows, t) then Run(rows, None)
    else
      var manual := ManualBalance(flag, t.manualFile);
      if manual.Err? then Run(rows, Some(manual.error))
      else Run(rows + [NetRow(t.today, t.netliq + manual.value)], None)
  }

  /** The passes in order, stopping at the first exception. */
  function Passes(rows: seq<NetRow>, ticks: seq<Tick>, flag: bool): Run
  {
    if ticks == [] then Run(rows, None)
    else
      var before := Passes(rows, ticks[..|ticks| - 1], flag);
      if before.error.Some? then before else Step(before.rows, ticks[|ticks| - 1], flag)
  }

  /** Rows are only ever appended, at most one per pass, and every appended
      row is dated with a day slot other than the row before it, so no two
      consecutive rows fall on the same day. */
  lemma {:induction false} PassesSpec(rows: seq<NetRow>, ticks: seq<Tick>, flag: bool)
    ensures var r := Passes(rows, ticks, flag);
      |r.rows| >= |rows| && r.rows[..|rows|] == rows &&
      |r.rows| - |rows| <= |ticks| &&
      forall i :: |rows| <= i < |r.rows| ==> i == 0 || !SameSlot(r.rows[i - 1].date, r.rows[i].date)
  {
    if ticks != [] {
      var before := Passes(rows, ticks[..|ticks| - 1], flag);
      PassesSpec(rows, ticks[..|ticks| - 1], flag);
      if before.error.None? {
        var t := ticks[|ticks| - 1];
        var r := Step(before.rows, t, flag);
        if |r.rows| > |before.rows| {
          assert r.rows[..|before.rows|] == before.rows;
          assert r.rows[..|rows|] == before.rows[..|rows|];
        }
      }
    }
  }

  /** The runner with the netliq file it maintains. */
  class FlexRunner {
    var rows: seq<NetRow>

    constructor (rows: seq<NetRow>)
      ensures this.rows == rows
    {
      this.rows := rows;
    }

    /** `periodic_flex`: the first pass (always made, because the field
        that would skip it is never set), then one pass per tick, until the
        manual balance raises. */
    method PeriodicFlex(first: Tick, ticks: seq<Tick>, flag: bool) returns (error: Option<string>)
      modifies this
      ensures Passes(old(rows), [first] + ticks, flag) == Run(rows, error)
    {
      var all := [first] + ticks;
      ghost var start := rows;
      error := None;
      var i := 0;
      while i < |all|
        invariant 0 <= i <= |all|
        invariant Passes(start, all[..i], flag) == Run(rows, error)
        invariant error.Some? ==> Passes(start, all, flag) == Run(rows, error)
        decreases |all| - i
      {
        assert all[..i + 1][..i] == all[..i];
        var t := all[i];
        if IsNewDay(LastDate(rows), t.today) {
          if IsIbFlexNewDay(NetliqFile, LastDate(rows), t.ibGenerated, t.ibGenerated) {
            var manual := ManualBalance(flag, t.manualFile);
            if manual.Err? {
              error := Some(manual.error);
              PassesStop(start, all, i + 1, flag);
              return;
            }
            rows := rows + [NetRow(t.today, t.netliq + manual.value)];
          }
        }
        i := i + 1;
      }
      assert all[..|all|] == all;
    }
  }

  /** Once a pass raises, later ticks change nothing. */
  lemma {:induction false} PassesStop(rows: seq<NetRow>, ticks: seq<Tick>, k: nat, flag: bool)
    requires k <= |ticks| && Passes(rows, ticks[..k], flag).error.Some?
    ensures Passes(rows, ticks, flag) == Passes(rows, ticks[..k], flag)
  {
    if k < |ticks| {
      assert ticks[..|ticks| - 1][..k] == ticks[..k];
      PassesStop(rows, ticks[..|ticks| - 1], k, flag);
    } else {
      assert ticks[..k] == ticks;
    }
  }
}
