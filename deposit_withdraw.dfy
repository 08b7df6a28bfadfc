// The deposit and withdrawal handler: validation of the answers typed by the
// user, and the ledger file whose header is written once.

module DepositWithdraw {
  import opened Common

  const ValueError: string := "ValueError"
  const NotImplementedError: string := "NotImplementedError"

  /** The exchanges a deposit or withdrawal may name. */
  const Supported: seq<string> := ["BINANCE", "BYBIT", "DYDX", "ETHEREUM", "IB", "TRADESTATION", "KRAKEN", "ONCHAIN"]

  // ---------------------------------------------------------------------------
  // Exchange answers

  /** `get_from_exchange` / `get_to_exchange`: an empty answer means no
      exchange; otherwise the upper-cased answer must be supported. */
  function ExchangeAnswer(answer: string): Result<Option<string>, string>
  {
    if answer == "" then Ok(None)
    else if Upper(answer) !in Supported then Err(NotImplementedError)
    else Ok(Some(Upper(answer)))
  }

  /** An accepted exchange is a supported one, whatever the case it was
      typed in, and any case of a supported name is accepted. */
  lemma ExchangeAnswerSpec(answer: string)
    ensures ExchangeAnswer(answer) == Ok(None) <==> answer == ""
    ensures ExchangeAnswer(answer).Err? <==> answer != "" && Upper(answer) !in Supported
    ensures ExchangeAnswer(answer).Ok? && ExchangeAnswer(answer).value.Some? ==>
      ExchangeAnswer(answer).value.value in Supported && ExchangeAnswer(answer).value.value == Upper(answer)
  {
  }

  /** Supported names are upper case, so typing one in lower case gives it back. */
  lemma LowerCaseAccepted()
    ensures ExchangeAnswer("kraken") == Ok(Some("KRAKEN"))
  {
    assert Upper("kraken") == "KRAKEN";
  }

  // ---------------------------------------------------------------------------
  // Dates in `%d/%m/%Y`

  predicate IsDigit(c: char)
  {
    '0' <= c <= '9'
  }

  function Digit(c: char): int
  {
    c as int - '0' as int
  }

  function DigitChar(n: nat): char
    requires n < 10
  {
    ('0' as int + n) as char
  }

  /** `%d` reads `3[01]|[12]\d|0[1-9]|[1-9]| [1-9]`. */
  function DayField(t: string): Option<int>
  {
    if |t| == 2 && t[0] == '3' && (t[1] == '0' || t[1] == '1') then Some(30 + Digit(t[1]))
    else if |t| == 2 && (t[0] == '1' || t[0] == '2') && IsDigit(t[1]) then Some(10 * Digit(t[0]) + Digit(t[1]))
    else if |t| == 2 && t[0] == '0' && '1' <= t[1] <= '9' then Some(Digit(t[1]))
    else if |t| == 1 && '1' <= t[0] <= '9' then Some(Digit(t[0]))
    else if |t| == 2 && t[0] == ' ' && '1' <= t[1] <= '9' then Some(Digit(t[1]))
    else None
  }

  /** `%m` reads `1[0-2]|0[1-9]|[1-9]`. */
  function MonthField(t: string): Option<int>
  {
    if |t| == 2 && t[0] == '1' && '0' <= t[1] <= '2' then Some(10 + Digit(t[1]))
    else if |t| == 2 && t[0] == '0' && '1' <= t[1] <= '9' then Some(Digit(t[1]))
    else if |t| == 1 && '1' <= t[0] <= '9' then Some(Digit(t[0]))
    else None
  }

  /** `%Y` reads exactly four digits. */
  function YearField(t: string): Option<int>
  {
    if |t| == 4 && IsDigit(t[0]) && IsDigit(t[1]) && IsDigit(t[2]) && IsDigit(t[3])
    then Some(1000 * Digit(t[0]) + 100 * Digit(t[1]) + 10 * Digit(t[2]) + Digit(t[3]))
    else None
  }

  predicate Leap(year: int)
  {
    year % 4 == 0 && (year % 100 != 0 || year % 400 == 0)
  }

  function DaysIn(month: int, year: int): int
  {
    if month == 2 then (if Leap(year) then 29 else 28)
    else if month == 4 || month == 6 || month == 9 || month == 11 then 30
    else 31
  }

  /** A day of the proleptic Gregorian calendar, years 1 to 9999. */
  predicate Calendar(d: Date)
  {
    1 <= d.year <= 9999 && 1 <= d.month <= 12 && 1 <= d.day <= DaysIn(d.month, d.year)
  }

  /** The date read from three slash-free fields joined by slashes. */
  function FromFields(day: Option<int>, month: Option<int>, year: Option<int>): Option<Date>
  {
    if day.None? || month.None? || year.None? then None
    else if !Calendar(Date(year.value, month.value, day.value)) then None
    else Some(Date(year.value, month.value, day.value))
  }

  /** `datetime.strptime(s, "%d/%m/%Y")`: the three fields between the two
      slashes, with nothing left over, naming a calendar day. None of the
      fields can hold a '/', so the pattern can only match by splitting at
      the slashes. */
  function ParseDate(s: string): Option<Date>
  {
    var parts := Split(s, {'/'});
    if |parts| != 3 then None
    else FromFields(DayField(parts[0]), MonthField(parts[1]), YearField(parts[2]))
  }

  /** `is_valid_date`: true iff the date parses. */
  predicate IsValidDate(s: string)
  {
    ParseDate(s).Some?
  }

  function TwoDigits(n: nat): string
    requires n < 100
  {
    [DigitChar(n / 10), DigitChar(n % 10)]
  }

  function FourDigits(n: nat): string
    requires n < 10000
  {
    TwoDigits(n / 100) + TwoDigits(n % 100)
  }

  /** `strftime('%d/%m/%Y')` for a year written with four digits. */
  function Format(d: Date): string
    requires Calendar(d) && d.year >= 1000
  {
    TwoDigits(d.day) + "/" + TwoDigits(d.month) + "/" + FourDigits(d.year)
  }

  lemma DayRoundTrip(n: nat)
    requires 1 <= n <= 31
    ensures DayField(TwoDigits(n)) == Some(n)
  {
    var t := TwoDigits(n);
    assert Digit(t[0]) == n / 10 && Digit(t[1]) == n % 10;
  }

  lemma MonthRoundTrip(n: nat)
    requires 1 <= n <= 12
    ensures MonthField(TwoDigits(n)) == Some(n)
  {
    var t := TwoDigits(n);
    assert Digit(t[0]) == n / 10 && Digit(t[1]) == n % 10;
  }

  lemma YearRoundTrip(n: nat)
    requires n < 10000
    ensures YearField(FourDigits(n)) == Some(n)
  {
    var high, low := n / 100, n % 100;
    var t := FourDigits(n);
    assert Digit(t[0]) == high / 10 && Digit(t[1]) == high % 10;
    assert Digit(t[2]) == low / 10 && Digit(t[3]) == low % 10;
    assert 1000 * (high / 10) + 100 * (high % 10) == 100 * high;
    assert 10 * (low / 10) + low % 10 == low;
    assert 100 * high + low == n;
  }

  /** Text made of three slash-free fields is parsed field by field. */
  lemma ParseFields(a: string, b: string, c: string)
    requires Plain(a, {'/'}) && Plain(b, {'/'}) && Plain(c, {'/'})
    ensures ParseDate(a + "/" + b + "/" + c) == FromFields(DayField(a), MonthField(b), YearField(c))
  {
    assert a + "/" + b + "/" + c == (a + ['/'] + b) + ['/'] + c;
    SplitLast(a + ['/'] + b, '/', c, {'/'});
    SplitLast(a, '/', b, {'/'});
    SplitSingle(a, {'/'});
    assert Split(a + "/" + b + "/" + c, {'/'}) == [a, b, c];
  }

  /** Today's date as the handler writes it is always a valid date, and it
      reads back as the same day. */
  lemma FormatParses(d: Date)
    requires Calendar(d) && d.year >= 1000
    ensures ParseDate(Format(d)) == Some(d)
  {
    var dd, mm, yyyy := TwoDigits(d.day), TwoDigits(d.month), FourDigits(d.year);
    ParseFields(dd, mm, yyyy);
    DayRoundTrip(d.day);
    MonthRoundTrip(d.month);
    YearRoundTrip(d.year);
  }

  /** The calendar is checked: February 29th only in leap years, no 31st
      in April. */
  lemma CalendarChecked()
    ensures IsValidDate("29/02/2024") && !IsValidDate("29/02/2023") && !IsValidDate("31/04/2024")
  {
    LeapDayAccepted();
    DaysOutsideMonthRefused();
  }

  /** A day past the end of its month is refused: February 29th of a common
      year, April 31st. */
  lemma DaysOutsideMonthRefused()
    ensures !IsValidDate("29/02/2023")
    ensures !IsValidDate("31/04/2024")
  {
    ParseFields("29", "02", "2023");
    assert "29" + "/" + "02" + "/" + "2023" == "29/02/2023";
    ParseFields("31", "04", "2024");
    assert "31" + "/" + "04" + "/" + "2024" == "31/04/2024";
  }

  lemma LeapDayAccepted()
    ensures IsValidDate("29/02/2024")
  {
    ParseFields("29", "02", "2024");
    assert "29" + "/" + "02" + "/" + "2024" == "29/02/2024";
  }

  /** Single digits and a space-padded day are read as `strptime` reads them. */
  lemma ShortFieldsAccepted()
    ensures ParseDate("1/2/2024") == Some(Date(2024, 2, 1))
    ensures ParseDate(" 5/01/2024") == Some(Date(2024, 1, 5))
  {
    ParseFields("1", "2", "2024");
    assert "1" + "/" + "2" + "/" + "2024" == "1/2/2024";
    ParseFields(" 5", "01", "2024");
    assert " 5" + "/" + "01" + "/" + "2024" == " 5/01/2024";
  }

  /** A two-digit year and a thirteenth month are refused. */
  lemma MalformedRefused()
    ensures !IsValidDate("01/01/24") && !IsValidDate("01/13/2024")
  {
    ParseFields("01", "01", "24");
    assert "01" + "/" + "01" + "/" + "24" == "01/01/24";
    ParseFields("01", "13", "2024");
    assert "01" + "/" + "13" + "/" + "2024" == "01/13/2024";
  }

  /** `get_date`: an empty answer takes today's UTC date; any other answer
      must be a valid date and is kept as typed. */
  function GetDate(answer: string, today: Date): Result<string, string>
    requires Calendar(today) && today.year >= 1000
  {
    if answer == "" then Ok(Format(today))
    else if !IsValidDate(answer) then Err(ValueError)
    else Ok(answer)
  }

  /** Every date the handler accepts is valid, and only invalid typed
      dates are refused. */
  lemma GetDateSpec(answer: string, today: Date)
    requires Calendar(today) && today.year >= 1000
    ensures GetDate(answer, today).Err? <==> answer != "" && !IsValidDate(answer)
    ensures GetDate(answer, today).Ok? ==> IsValidDate(GetDate(answer, today).value)
    ensures answer != "" && GetDate(answer, today).Ok? ==> GetDate(answer, today).value == answer
  {
    FormatParses(today);
  }

  // ---------------------------------------------------------------------------
  // The record and its ledger file

  /** One deposit or withdrawal; withdrawals carry a negative amount by
      convention, which nothing checks. */
  datatype Record = Record(date: string, fromExchange: Option<string>, toExchange: Option<string>, amount: real, comment: string)

  /** The answers are read in field order, so the first invalid one raises.
      `float(amount)` is outside the model: `amount` is its result, `None`
      when it raises. */
  function NewRecord(dateAnswer: string, today: Date, fromAnswer: string, toAnswer: string, amount: Option<real>, comment: string)
    : Result<Record, string>
    requires Calendar(today) && today.year >= 1000
  {
    var date := GetDate(dateAnswer, today);
    if date.Err? then Err(date.error)
    else
      var from := ExchangeAnswer(fromAnswer);
      if from.Err? then Err(from.error)
      else
        var to := ExchangeAnswer(toAnswer);
        if to.Err? then Err(to.error)
        else if amount.None? then Err(ValueError)
        else Ok(Record(date.value, from.value, to.value, amount.value, comment))
  }

  /** A record that is built has a valid date and only supported exchanges. */
  lemma NewRecordValid(dateAnswer: string, today: Date, fromAnswer: string, toAnswer: string, amount: Option<real>, comment: string)
    requires Calendar(today) && today.year >= 1000
    ensures NewRecord(dateAnswer, today, fromAnswer, toAnswer, amount, comment).Ok? ==>
      var r := NewRecord(dateAnswer, today, fromAnswer, toAnswer, amount, comment).value;
      IsValidDate(r.date) &&
      (r.fromExchange.Some? ==> r.fromExchange.value in Supported) &&
      (r.toExchange.Some? ==> r.toExchange.value in Supported)
    ensures NewRecord(dateAnswer, today, fromAnswer, toAnswer, amount, comment).Err? <==>
      (dateAnswer != "" && !IsValidDate(dateAnswer)) || ExchangeAnswer(fromAnswer).Err? || ExchangeAnswer(toAnswer).Err? || amount.None?
  {
    GetDateSpec(dateAnswer, today);
  }

  const FileName: string := "deposits_and_withdraws.csv"
  const HiddenFile: string := ".DS_Store"

  /** The header line, the dataclass's field names. */
  const Header: seq<Cell> := [Text("date"), Text("from_exchange"), Text("to_exchange"), Text("amount"), Text("comment")]

  function OptionalCell(s: Option<string>): Cell
  {
    if s.None? then Blank else Text(s.value)
  }

  /** The line `csv.DictWriter.writerow` writes; `None` is left empty. */
  function Row(r: Record): seq<Cell>
  {
    [Text(r.date), OptionalCell(r.fromExchange), OptionalCell(r.toExchange), Num(r.amount), Text(r.comment)]
  }

  /** `is_file_in_folder`: a file of that name with some content, other than `.DS_Store`. */
  predicate IsFileInFolder(files: map<string, seq<seq<Cell>>>, name: string)
  {
    name in files && name != HiddenFile && files[name] != []
  }

  /** The file after one record is appended: the header first when the file
      was not found. */
  function Appended(files: map<string, seq<seq<Cell>>>, name: string, r: Record): seq<seq<Cell>>
  {
    var existing := if name in files then files[name] else [];
    existing + (if IsFileInFolder(files, name) then [] else [Header]) + [Row(r)]
  }

  /** The folder after the records are written one after another. */
  function WrittenAll(files: map<string, seq<seq<Cell>>>, name: string, records: seq<Record>): map<string, seq<seq<Cell>>>
  {
    if records == [] then files
    else
      var before := WrittenAll(files, name, records[..|records| - 1]);
      before[name := Appended(before, name, records[|records| - 1])]
  }

  function Rows(records: seq<Record>): (rows: seq<seq<Cell>>)
    ensures |rows| == |records| && forall i :: 0 <= i < |records| ==> rows[i] == Row(records[i])
  {
    if records == [] then [] else Rows(records[..|records| - 1]) + [Row(records[|records| - 1])]
  }

  /** The header is written once: starting from no file or an empty one,
      any number of writes leave the header followed by one line per record. */
  lemma {:induction false} HeaderOnce(files: map<string, seq<seq<Cell>>>, name: string, records: seq<Record>)
    requires name != HiddenFile && !IsFileInFolder(files, name) && records != []
    ensures name in WrittenAll(files, name, records)
    ensures WrittenAll(files, name, records)[name] == [Header] + Rows(records)
  {
    var init := records[..|records| - 1];
    var last := records[|records| - 1];
    var before := WrittenAll(files, name, init);
    WrittenLast(files, name, records);
    if init == [] {
      assert Appended(before, name, last) == [Header] + [Row(last)] by {
        assert before == files;
      }
      assert Rows(records) == [Row(last)];
    } else {
      HeaderOnce(files, name, init);
      assert Appended(before, name, last) == before[name] + [Row(last)] by {
        assert IsFileInFolder(before, name);
        assert before[name] + [] == before[name];
      }
      assert [Header] + Rows(init) + [Row(last)] == [Header] + (Rows(init) + [Row(last)]);
    }
  }

  /** Writing one more record replaces the file with its appended version. */
  lemma WrittenLast(files: map<string, seq<seq<Cell>>>, name: string, records: seq<Record>)
    requires records != []
    ensures var all := WrittenAll(files, name, records);
      name in all && all[name] == Appended(WrittenAll(files, name, records[..|records| - 1]), name, records[|records| - 1])
  {
  }

  /** A file already holding lines gets only the records' lines. */
  lemma {:induction false} ExistingFileNoHeader(files: map<string, seq<seq<Cell>>>, name: string, records: seq<Record>)
    requires IsFileInFolder(files, name)
    ensures name in WrittenAll(files, name, records)
    ensures WrittenAll(files, name, records)[name] == files[name] + Rows(records)
  {
    if records == [] {
      assert files[name] + [] == files[name];
    } else {
      var init := records[..|records| - 1];
      ExistingFileNoHeader(files, name, init);
      assert files[name] + Rows(init) + [Row(records[|records| - 1])] == files[name] + Rows(records);
    }
  }

  /** The folder the handler writes into; the names are those of regular
      files, with their lines. */
  class Ledger {
    var files: map<string, seq<seq<Cell>>>

    constructor (files: map<string, seq<seq<Cell>>>)
      ensures this.files == files
    {
      this.files := files;
    }

    /** `write_dataclass_to_csv`: appends the record, after the header when
        the file was not found. */
    method WriteRecord(r: Record, name: string)
      modifies this
      ensures files == old(files)[name := Appended(old(files), name, r)]
    {
      var fileExists := IsFileInFolder(files, name);
      var lines := if name in files then files[name] else [];
      var header := [];
      if !fileExists {
        header := [Header];
      }
      lines := lines + header + [Row(r)];
      files := files[name := lines];
    }
  }
}
