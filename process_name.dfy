// The process name taken from a log-file path.

module ProcessName {
  import opened Common

  const Separators: set<char> := {'/', '.'}
  const IndexError: string := "IndexError"

  /** `re.split(r"[/.]", log_file)[-2]`: the second-to-last piece; a path
      with a single piece has no such piece. */
  function GetProcessName(logFile: string): Result<string, string>
  {
    var parts := Split(logFile, Separators);
    if |parts| < 2 then Err(IndexError) else Ok(parts[|parts| - 2])
  }

  /** The lookup fails exactly when the path has no '/' and no '.'. */
  lemma FailsWithoutSeparator(logFile: string)
    ensures GetProcessName(logFile).Err? <==> Plain(logFile, Separators)
    ensures GetProcessName(logFile).Err? ==> GetProcessName(logFile).error == IndexError
  {
    SplitSingle(logFile, Separators);
  }

  /** Otherwise the name is the separator-free text just before the last
      separator: writing the path as `b + r + [c] + t`, with `c` its last
      separator and `r` the longest separator-free text before `c`, the
      name is `r`. */
  lemma NameBeforeLastSeparator(b: string, r: string, c: char, t: string)
    requires b == [] || b[|b| - 1] in Separators
    requires Plain(r, Separators) && c in Separators && Plain(t, Separators)
    ensures GetProcessName(b + r + [c] + t) == Ok(r)
  {
    SplitLast(b + r, c, t, Separators);
    SplitLastPiece(b, r, Separators);
  }

  /** The log file of the account-data fetcher names that process. */
  lemma FetcherLogName()
    ensures GetProcessName(" ~/log/account_data_fetcher.log") == Ok("account_data_fetcher")
  {
    assert " ~/log/" + "account_data_fetcher" + ['.'] + "log" == " ~/log/account_data_fetcher.log";
    NameBeforeLastSeparator(" ~/log/", "account_data_fetcher", '.', "log");
  }

  /** Empty pieces are kept: two adjacent separators give an empty name, and
      a trailing separator makes the last word the name. */
  lemma EmptyPiecesKept()
    ensures GetProcessName("a//b") == Ok("")
    ensures GetProcessName("a/b.") == Ok("b")
  {
    assert "a/" + "" + ['/'] + "b" == "a//b";
    NameBeforeLastSeparator("a/", "", '/', "b");
    assert "a/" + "b" + ['.'] + "" == "a/b.";
    NameBeforeLastSeparator("a/", "b", '.', "");
  }
}
