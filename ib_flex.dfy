// Interactive Brokers Flex adapter: a cached statement that is refetched only
// when it is older than two minutes, the balance and position tables read from
// it, and the two nested retry loops that download a statement.

module IbFlexFetcher {
  import opened Common

  // ---------------------------------------------------------------------------
  // Statements and their freshness

  /** One open position of a Flex statement. */
  datatype OpenPosition = OpenPosition(symbol: string, multiplier: real, position: real, markPrice: real)

  /** A Flex statement: `whenGenerated` is IB's report time in seconds, on IB's
      clock (UTC-5); `endingValue` is `ChangeInNAV.endingValue`. */
  datatype Statement = Statement(whenGenerated: real, endingValue: real, openPositions: seq<OpenPosition>)

  const HoursFromUtc: int := -5
  const FreshSeconds: real := 120.0
  const BalanceQuery: string := "BALANCE"
  const PositionsQuery: string := "POSITIONS"

  /** Python truthiness of the check's result, where None is falsy. */
  predicate Truthy(b: Option<bool>)
  {
    b == Some(true)
  }

  /** The current time on IB's clock, from the UTC time `utcNow` in seconds. */
  function IbClock(utcNow: real): real
  {
    utcNow + (HoursFromUtc * 3600) as real
  }

  /** The freshness check: no statement is never fresh; for the two known
      query types the statement is fresh while it is less than 120 seconds old
      on IB's clock; any other query type falls off the end and yields None. */
  function IsAcceptable(statement: Option<Statement>, queryType: string, utcNow: real): Option<bool>
  {
    if statement.None? then Some(false)
    else if queryType == BalanceQuery then Some(IbClock(utcNow) - statement.value.whenGenerated < FreshSeconds)
    else if queryType == PositionsQuery then Some(IbClock(utcNow) - statement.value.whenGenerated < FreshSeconds)
    else None
  }

  /** A statement stays fresh until five hours and two minutes (UTC) after its
      IB-clock report time, and only for the two known query types. */
  lemma FreshWindow(statement: Option<Statement>, queryType: string, utcNow: real)
    ensures Truthy(IsAcceptable(statement, queryType, utcNow)) <==>
              statement.Some? && (queryType == BalanceQuery || queryType == PositionsQuery) &&
              utcNow < statement.value.whenGenerated + 18000.0 + 120.0
    ensures statement.Some? && queryType != BalanceQuery && queryType != PositionsQuery ==>
              IsAcceptable(statement, queryType, utcNow).None?
  {
  }

  /** A statement fresh at some time was fresh at every earlier time. */
  lemma FreshEarlier(statement: Option<Statement>, queryType: string, earlier: real, later: real)
    requires earlier <= later && Truthy(IsAcceptable(statement, queryType, later))
    ensures Truthy(IsAcceptable(statement, queryType, earlier))
  {
  }

  /** The statement a read works on: the cached one while it is fresh,
      otherwise the first statement of a new download. `fetched` is what the
      download and the parser return, or the error they raise. */
  function Current(cached: Option<Statement>, queryType: string, utcNow: real, fetched: Result<seq<Statement>, string>): Result<Statement, string>
  {
    if Truthy(IsAcceptable(cached, queryType, utcNow)) then Ok(cached.value)
    else match fetched
      case Err(e) => Err(e)
      case Ok(statements) => if statements == [] then Err(IndexError) else Ok(statements[0])
  }

  const IndexError: string := "IndexError"

  /** The download happens exactly when the cached statement is not fresh, and
      a fresh cached statement is used as it is. */
  lemma CurrentSpec(cached: Option<Statement>, queryType: string, utcNow: real, fetched: Result<seq<Statement>, string>)
    ensures Truthy(IsAcceptable(cached, queryType, utcNow)) ==> Current(cached, queryType, utcNow, fetched) == Ok(cached.value)
    ensures !Truthy(IsAcceptable(cached, queryType, utcNow)) ==>
              (Current(cached, queryType, utcNow, fetched).Ok? <==> fetched.Ok? && fetched.value != [])
    ensures !Truthy(IsAcceptable(cached, queryType, utcNow)) && fetched.Ok? && fetched.value != [] ==>
              Current(cached, queryType, utcNow, fetched).value == fetched.value[0]
  {
  }

  /** Within one freshness window two reads agree, whatever the second
      download would have returned. */
  lemma NoRefetchWhileFresh(s: Statement, queryType: string, utcNow: real, fetched: Result<seq<Statement>, string>)
    requires queryType == BalanceQuery || queryType == PositionsQuery
    requires IbClock(utcNow) - s.whenGenerated < FreshSeconds
    ensures Current(Some(s), queryType, utcNow, fetched) == Ok(s)
  {
  }

  // ---------------------------------------------------------------------------
  // Reading the statement

  /** `round(float(endingValue), 3)`. */
  function BalanceOf(s: Statement): (r: real)
    ensures s.endingValue - 0.0005 <= r <= s.endingValue + 0.0005
  {
    RoundClose(s.endingValue, 3);
    Round(s.endingValue, 3)
  }

  /** The dollar value of one position: mark price times the float
      multiplier times the truncated quantity, rounded to 3 decimals. */
  function DollarOf(p: OpenPosition): real
  {
    Round(Mul(Mul(p.markPrice, p.multiplier), Trunc(p.position) as real), 3)
  }

  /** The position table of a statement, one row per open position in order. */
  function PositionsTable(ps: seq<OpenPosition>): (t: Table)
    ensures t.Valid() && t.Rows() == |ps|
  {
    if ps == [] then EmptyTable
    else
      var p := ps[|ps| - 1];
      PositionsTable(ps[..|ps| - 1]).Append(p.symbol, Trunc(p.multiplier), Trunc(p.position) as real, DollarOf(p))
  }

  /** Row i holds position i: its symbol, and its multiplier, quantity and
      dollar value as the source casts and rounds them. */
  lemma {:induction false} PositionsTableRows(ps: seq<OpenPosition>, i: nat)
    requires i < |ps|
    ensures PositionsTable(ps).symbol[i] == ps[i].symbol
    ensures PositionsTable(ps).multiplier[i] == Trunc(ps[i].multiplier)
    ensures PositionsTable(ps).quantity[i] == Trunc(ps[i].position) as real
    ensures PositionsTable(ps).dollar[i] == DollarOf(ps[i])
  {
    var init := ps[..|ps| - 1];
    var p := ps[|ps| - 1];
    assert PositionsTable(ps) == PositionsTable(init).Append(p.symbol, Trunc(p.multiplier), Trunc(p.position) as real, DollarOf(p));
    if i < |ps| - 1 {
      PositionsTableRows(init, i);
      assert init[i] == ps[i];
    }
  }

  /** The dollar value is within half a thousandth of mark price times
      multiplier times the truncated quantity. */
  lemma DollarClose(p: OpenPosition)
    ensures p.markPrice * p.multiplier * Trunc(p.position) as real - 0.0005 <= DollarOf(p)
    ensures DollarOf(p) <= p.markPrice * p.multiplier * Trunc(p.position) as real + 0.0005
  {
    RoundClose(Mul(Mul(p.markPrice, p.multiplier), Trunc(p.position) as real), 3);
  }

  // ---------------------------------------------------------------------------
  // Polling for a statement

  /** An exception leaving one download attempt. */
  datatype Raised = ResponseCodeError(code: int) | ReadTimeout | OtherTimeout

  /** What one download attempt yields; `StillPolling` is an attempt whose
      poll loop has not finished when the server's answers run out. */
  datatype AttemptResult = Content(data: string) | Raise(e: Raised) | StillPolling

  /** The server's answer to one poll: a timeout (a read timeout or another
      kind), the statement, a "not ready, wait this many seconds", or an error
      code raised by the response check. */
  datatype PollReply = TimedOut(read: bool) | Ready(content: string) | NotReady(wait: real) | CodeError(code: int)

  /** The outcome of a poll loop with the timeouts it used and the pauses it
      took, in order. */
  datatype PollRun = PollRun(outcome: AttemptResult, timeouts: seq<int>, sleeps: seq<real>)

  /** A run preceded by the timeouts and pauses of earlier requests. */
  function After(timeouts: seq<int>, sleeps: seq<real>, run: PollRun): PollRun
  {
    PollRun(run.outcome, timeouts + run.timeouts, sleeps + run.sleeps)
  }

  const PollTimeoutStep: int := 30
  const PollTimeoutLimit: nat := 6
  const PollRetryPause: real := 10.0

  /** Whether the loop goes on after `reply` to its `attempt`-th request. */
  predicate Continues(reply: PollReply, attempt: nat)
  {
    reply.NotReady? || (reply.TimedOut? && attempt < PollTimeoutLimit)
  }

  /** The pause after a reply that lets the loop go on. */
  function PauseAfter(reply: PollReply): real
  {
    if reply.NotReady? then reply.wait else PollRetryPause
  }

  /** The outcome of a reply that ends the loop. */
  function Settle(reply: PollReply): AttemptResult
  {
    match reply
    case Ready(c) => Content(c)
    case CodeError(code) => Raise(ResponseCodeError(code))
    case TimedOut(read) => Raise(if read then ReadTimeout else OtherTimeout)
    case NotReady(_) => StillPolling
  }

  /** The poll loop from its `attempt`-th request on, given the replies still
      to come. */
  function PollFrom(replies: seq<PollReply>, attempt: nat): PollRun
    decreases |replies|
  {
    if replies == [] then PollRun(StillPolling, [], [])
    else if Continues(replies[0], attempt) then
      After([PollTimeoutStep * attempt], [PauseAfter(replies[0])], PollFrom(replies[1..], attempt + 1))
    else PollRun(Settle(replies[0]), [PollTimeoutStep * attempt], [])
  }

  /** Request the statement, then poll for it. A request refused with an
      error code raises that code before any poll. */
  function RequestAndPoll(request: Result<string, int>, replies: seq<PollReply>): PollRun
  {
    if request.Err? then PollRun(Raise(ResponseCodeError(request.error)), [], [])
    else PollFrom(replies, 1)
  }

  /** The k-th request (from 1) waits 30·k seconds; every reply before the
      last one let the loop go on and was followed by its pause; the last one
      settles the outcome, unless the replies ran out first. */
  lemma {:induction false} PollFromSpec(replies: seq<PollReply>, attempt: nat)
    requires attempt >= 1
    ensures var r := PollFrom(replies, attempt);
      |r.sleeps| <= |r.timeouts| <= |replies| &&
      (forall i :: 0 <= i < |r.timeouts| ==> r.timeouts[i] == PollTimeoutStep * (attempt + i)) &&
      (r.outcome.StillPolling? <==> |r.sleeps| == |replies|) &&
      (r.outcome.StillPolling? ==> |r.timeouts| == |replies|) &&
      (!r.outcome.StillPolling? ==>
         (|r.timeouts| == |r.sleeps| + 1 &&
          !Continues(replies[|r.sleeps|], attempt + |r.sleeps|) && r.outcome == Settle(replies[|r.sleeps|]))) &&
      (forall i :: 0 <= i < |r.sleeps| ==> Continues(replies[i], attempt + i) && r.sleeps[i] == PauseAfter(replies[i]))
  {
    if replies != [] && Continues(replies[0], attempt) {
      var rest := PollFrom(replies[1..], attempt + 1);
      PollFromSpec(replies[1..], attempt + 1);
      var r := PollFrom(replies, attempt);
      assert r.timeouts == [PollTimeoutStep * attempt] + rest.timeouts;
      assert r.sleeps == [PauseAfter(replies[0])] + rest.sleeps;
      forall i | 0 <= i < |r.sleeps|
        ensures Continues(replies[i], attempt + i) && r.sleeps[i] == PauseAfter(replies[i])
      {
        if i > 0 {
          assert replies[1..][i - 1] == replies[i];
        }
      }
      if !r.outcome.StillPolling? {
        assert replies[1..][|rest.sleeps|] == replies[|r.sleeps|];
      }
    }
  }

  /** A timeout is raised out of the poll loop only by the sixth request or a
      later one. */
  lemma TimeoutRaisedLate(replies: seq<PollReply>)
    ensures var r := PollFrom(replies, 1);
      r.outcome.Raise? && (r.outcome.e.ReadTimeout? || r.outcome.e.OtherTimeout?) ==> |r.timeouts| >= PollTimeoutLimit
  {
    PollFromSpec(replies, 1);
  }

  /** One request of the poll loop, seen from the loop's position k. */
  lemma PollStep(replies: seq<PollReply>, k: nat)
    requires k < |replies|
    ensures PollFrom(replies[k..], k + 1) ==
              if Continues(replies[k], k + 1)
              then After([PollTimeoutStep * (k + 1)], [PauseAfter(replies[k])], PollFrom(replies[k + 1..], k + 2))
              else PollRun(Settle(replies[k]), [PollTimeoutStep * (k + 1)], [])
  {
    assert replies[k..][0] == replies[k];
    assert replies[k..][1..] == replies[k + 1..];
  }

  lemma AfterAfter(t1: seq<int>, s1: seq<real>, t2: seq<int>, s2: seq<real>, run: PollRun)
    ensures After(t1, s1, After(t2, s2, run)) == After(t1 + t2, s1 + s2, run)
  {
    assert t1 + (t2 + run.timeouts) == (t1 + t2) + run.timeouts;
    assert s1 + (s2 + run.sleeps) == (s1 + s2) + run.sleeps;
  }

  /** The poll loop, one request per reply, stopping where the source returns
      or raises. */
  method RequestStatementAndPoll(request: Result<string, int>, replies: seq<PollReply>) returns (r: PollRun)
    ensures r == RequestAndPoll(request, replies)
  {
    if request.Err? {
      return PollRun(Raise(ResponseCodeError(request.error)), [], []);
    }
    var timeouts: seq<int> := [];
    var sleeps: seq<real> := [];
    var pollAttempts := 0;
    assert After(timeouts, sleeps, PollFrom(replies, 1)) == PollFrom(replies, 1);
    while pollAttempts < |replies|
      invariant 0 <= pollAttempts <= |replies|
      invariant PollFrom(replies, 1) == After(timeouts, sleeps, PollFrom(replies[pollAttempts..], pollAttempts + 1))
    {
      var reply := replies[pollAttempts];
      ghost var before := PollFrom(replies[pollAttempts..], pollAttempts + 1);
      PollStep(replies, pollAttempts);
      pollAttempts := pollAttempts + 1;
      var timeout := PollTimeoutStep * pollAttempts;
      var pause: real;
      match reply {
      case TimedOut(read) =>
        if pollAttempts >= PollTimeoutLimit {
          return PollRun(Raise(if read then ReadTimeout else OtherTimeout), timeouts + [timeout], sleeps);
        }
        pause := PollRetryPause;
        assert Continues(reply, pollAttempts) && PauseAfter(reply) == pause;
      case Ready(content) =>
        return PollRun(Content(content), timeouts + [timeout], sleeps);
      case NotReady(wait) =>
        pause := wait;
        assert Continues(reply, pollAttempts) && PauseAfter(reply) == pause;
      case CodeError(code) =>
        return PollRun(Raise(ResponseCodeError(code)), timeouts + [timeout], sleeps);
      }
      assert before == After([timeout], [pause], PollFrom(replies[pollAttempts..], pollAttempts + 1));
      AfterAfter(timeouts, sleeps, [timeout], [pause], PollFrom(replies[pollAttempts..], pollAttempts + 1));
      timeouts := timeouts + [timeout];
      sleeps := sleeps + [pause];
    }
    assert replies[pollAttempts..] == [];
    return After(timeouts, sleeps, PollRun(StillPolling, [], []));
  }

  // ---------------------------------------------------------------------------
  // Downloading with retries

  /** One download attempt as the server plays it: the answer to the request
      and the answers to the polls that follow. */
  datatype Exchange = Exchange(request: Result<string, int>, replies: seq<PollReply>)

  /** What `get_data` returns or raises. `NoAnswer` is an attempt still
      polling when the server's answers run out. */
  datatype DataResult = Data(content: string) | Unusual(code: int) | Exhausted | Propagated(e: Raised) | NoAnswer

  /** The result of `get_data` with the pauses it took between attempts. */
  datatype Download = Download(result: DataResult, pauses: seq<int>)

  const MaxRetries: nat := 10
  const InProgressCode: int := 1018
  const ReadTimeoutPause: int := 15

  function Outcome(x: Exchange): AttemptResult
  {
    RequestAndPoll(x.request, x.replies).outcome
  }

  /** Whether an attempt's outcome makes `get_data` try again. */
  predicate Retryable(o: AttemptResult)
  {
    o == Raise(ResponseCodeError(InProgressCode)) || o == Raise(ReadTimeout)
  }

  /** The pause before retrying after attempt `attempt`: 5·attempt seconds
      for code 1018, 15 seconds for a read timeout. */
  function RetryPause(attempt: nat, o: AttemptResult): int
  {
    if o == Raise(ResponseCodeError(InProgressCode)) then 5 * attempt else ReadTimeoutPause
  }

  /** The result of `get_data` for an attempt outcome that ends it: other
      response codes become an "unusual error", other timeouts propagate. */
  function Settled(o: AttemptResult): DataResult
  {
    match o
    case Content(d) => Data(d)
    case StillPolling => NoAnswer
    case Raise(e) => if e.ResponseCodeError? then Unusual(e.code) else Propagated(e)
  }

  function Delayed(pauses: seq<int>, d: Download): Download
  {
    Download(d.result, pauses + d.pauses)
  }

  /** `get_data` from its `attempt`-th try on. */
  function DataFrom(exchanges: nat -> Exchange, attempt: nat): Download
    decreases MaxRetries + 1 - attempt
  {
    if attempt > MaxRetries then Download(Exhausted, [])
    else
      var o := Outcome(exchanges(attempt));
      if Retryable(o) then Delayed([RetryPause(attempt, o)], DataFrom(exchanges, attempt + 1))
      else Download(Settled(o), [])
  }

  /** One attempt of `get_data`, within the ten: a retryable outcome pauses
      and goes on, any other settles the result. */
  lemma DataFromUnfold(exchanges: nat -> Exchange, attempt: nat, pauses: seq<int>)
    requires attempt <= MaxRetries
    ensures var o := Outcome(exchanges(attempt));
      (Retryable(o) ==> (Delayed(pauses, DataFrom(exchanges, attempt)) ==
         Delayed(pauses + [RetryPause(attempt, o)], DataFrom(exchanges, attempt + 1)))) &&
      (!Retryable(o) ==> Delayed(pauses, DataFrom(exchanges, attempt)) == Download(Settled(o), pauses))
  {
    var o := Outcome(exchanges(attempt));
    if Retryable(o) {
      var rest := DataFrom(exchanges, attempt + 1);
      assert pauses + ([RetryPause(attempt, o)] + rest.pauses) == (pauses + [RetryPause(attempt, o)]) + rest.pauses;
    } else {
      assert pauses + [] == pauses;
    }
  }

  /** What `get_data` does with the outcome of one attempt: stop with the
      result it settles, or pause before the next attempt. */
  method Decide(attempt: nat, o: AttemptResult) returns (stop: bool, r: DataResult, pause: int)
    ensures stop <==> !Retryable(o)
    ensures stop ==> r == Settled(o)
    ensures !stop ==> pause == RetryPause(attempt, o)
  {
    r, pause := Exhausted, 0;
    match o {
    case Content(d) =>
      return true, Data(d), 0;
    case StillPolling =>
      return true, NoAnswer, 0;
    case Raise(e) =>
      if e.ResponseCodeError? {
        if e.code != InProgressCode {
          return true, Unusual(e.code), 0;
        }
        pause := 5 * attempt;
      } else if e.ReadTimeout? {
        pause := ReadTimeoutPause;
      } else {
        return true, Propagated(e), 0;
      }
    }
    stop := false;
  }

  /** The retry loop of `get_data`: attempts 1 to 10, each a full request and
      poll. */
  method GetData(exchanges: nat -> Exchange) returns (r: DataResult, pauses: seq<int>)
    ensures Download(r, pauses) == DataFrom(exchanges, 1)
  {
    pauses := [];
    assert Delayed(pauses, DataFrom(exchanges, 1)) == DataFrom(exchanges, 1);
    for attempt := 1 to MaxRetries + 1
      invariant DataFrom(exchanges, 1) == Delayed(pauses, DataFrom(exchanges, attempt))
    {
      var x := exchanges(attempt);
      var run := RequestStatementAndPoll(x.request, x.replies);
      var o := run.outcome;
      assert o == Outcome(exchanges(attempt));
      DataFromUnfold(exchanges, attempt, pauses);
      var stop, result, pause := Decide(attempt, o);
      if stop {
        return result, pauses;
      }
      pauses := pauses + [pause];
    }
    assert DataFrom(exchanges, MaxRetries + 1) == Download(Exhausted, []);
    assert pauses + [] == pauses;
    return Exhausted, pauses;
  }

  /** From attempt k on, no attempt past the tenth is made, the loop gives up
      exactly when it reaches the end, and otherwise its result is what the
      first non-retryable attempt settles. */
  lemma {:induction false} DataFromEnd(exchanges: nat -> Exchange, k: nat)
    requires 1 <= k <= MaxRetries + 1
    ensures var d := DataFrom(exchanges, k);
      k + |d.pauses| <= MaxRetries + 1 &&
      (d.result == Exhausted <==> k + |d.pauses| == MaxRetries + 1) &&
      (d.result != Exhausted ==> !Retryable(Outcome(exchanges(k + |d.pauses|))) &&
                                 d.result == Settled(Outcome(exchanges(k + |d.pauses|))))
    decreases MaxRetries + 1 - k
  {
    var d := DataFrom(exchanges, k);
    if k <= MaxRetries && Retryable(Outcome(exchanges(k))) {
      var next := DataFrom(exchanges, k + 1);
      assert d.result == next.result && |d.pauses| == 1 + |next.pauses|;
      DataFromEnd(exchanges, k + 1);
    } else {
      assert d.pauses == [];
    }
  }

  /** One attempt of `get_data` from attempt k on: a retryable attempt adds
      its pause; any other outcome, or running past the tenth attempt, adds
      none. */
  lemma DataFromStep(exchanges: nat -> Exchange, k: nat)
    ensures var o := Outcome(exchanges(k));
      k <= MaxRetries && Retryable(o) ==>
        DataFrom(exchanges, k).pauses == [RetryPause(k, o)] + DataFrom(exchanges, k + 1).pauses
    ensures !(k <= MaxRetries && Retryable(Outcome(exchanges(k)))) ==> DataFrom(exchanges, k).pauses == []
  {
  }

  /** The i-th pause from attempt k on follows a retryable attempt and has
      its prescribed length. */
  lemma {:induction false} DataFromPause(exchanges: nat -> Exchange, k: nat, i: nat)
    requires 1 <= k <= MaxRetries + 1 && i < |DataFrom(exchanges, k).pauses|
    ensures Retryable(Outcome(exchanges(k + i)))
    ensures DataFrom(exchanges, k).pauses[i] == RetryPause(k + i, Outcome(exchanges(k + i)))
    decreases MaxRetries + 1 - k
  {
    DataFromStep(exchanges, k);
    if i > 0 {
      DataFromPause(exchanges, k + 1, i - 1);
      assert (k + 1) + (i - 1) == k + i;
    }
  }

  /** `get_data` as a whole: at most ten attempts; every pause follows a code
      1018 (5·attempt seconds) or a read timeout (15 seconds); it raises
      "beyond max_retries" exactly when all ten attempts were retryable, and
      otherwise returns or raises what the first other outcome settles. */
  lemma GetDataSpec(exchanges: nat -> Exchange)
    ensures var d := DataFrom(exchanges, 1);
      (if d.result == Exhausted then |d.pauses| else |d.pauses| + 1) <= MaxRetries &&
      (forall i :: 0 <= i < |d.pauses| ==>
         Retryable(Outcome(exchanges(i + 1))) && d.pauses[i] == RetryPause(i + 1, Outcome(exchanges(i + 1)))) &&
      (d.result == Exhausted <==> forall a :: 1 <= a <= MaxRetries ==> Retryable(Outcome(exchanges(a)))) &&
      (d.result != Exhausted ==> d.result == Settled(Outcome(exchanges(|d.pauses| + 1))))
  {
    DataFromEnd(exchanges, 1);
    GetDataPauses(exchanges);
    GetDataExhausted(exchanges);
  }

  /** Every pause of `get_data` follows a retryable attempt and has its
      prescribed length. */
  lemma GetDataPauses(exchanges: nat -> Exchange)
    ensures var d := DataFrom(exchanges, 1);
      forall i :: 0 <= i < |d.pauses| ==>
        Retryable(Outcome(exchanges(i + 1))) && d.pauses[i] == RetryPause(i + 1, Outcome(exchanges(i + 1)))
  {
    var d := DataFrom(exchanges, 1);
    forall i | 0 <= i < |d.pauses|
      ensures Retryable(Outcome(exchanges(i + 1))) && d.pauses[i] == RetryPause(i + 1, Outcome(exchanges(i + 1)))
    {
      DataFromPause(exchanges, 1, i);
      assert 1 + i == i + 1;
    }
  }

  /** `get_data` gives up exactly when all ten attempts were retryable. */
  lemma GetDataExhausted(exchanges: nat -> Exchange)
    ensures DataFrom(exchanges, 1).result == Exhausted <==> forall a :: 1 <= a <= MaxRetries ==> Retryable(Outcome(exchanges(a)))
  {
    var d := DataFrom(exchanges, 1);
    DataFromEnd(exchanges, 1);
    if d.result == Exhausted {
      forall a | 1 <= a <= MaxRetries
        ensures Retryable(Outcome(exchanges(a)))
      {
        DataFromPause(exchanges, 1, a - 1);
        assert 1 + (a - 1) == a;
      }
    } else {
      assert !Retryable(Outcome(exchanges(1 + |d.pauses|)));
    }
  }

  // ---------------------------------------------------------------------------
  // The adapter object

  /** The adapter with its two cached statements. */
  class DataFetcher {
    var balanceObject: Option<Statement>
    var positionsObject: Option<Statement>

    constructor ()
      ensures balanceObject.None? && positionsObject.None?
    {
      balanceObject := None;
      positionsObject := None;
    }

    /** Refreshes the balance statement unless it is fresh and returns its
        report time. A failed download raises and leaves the cache alone. */
    method UpdateBalanceAndGetIbDatetime(utcNow: real, fetched: Result<seq<Statement>, string>) returns (r: Result<real, string>)
      modifies this
      ensures var c := Current(old(balanceObject), BalanceQuery, utcNow, fetched);
        (c.Ok? ==> balanceObject == Some(c.value) && r == Ok(c.value.whenGenerated)) &&
        (c.Err? ==> balanceObject == old(balanceObject) && r == Err(c.error))
      ensures positionsObject == old(positionsObject)
    {
      var s := RefreshBalance(utcNow, fetched);
      r := if s.Ok? then Ok(s.value.whenGenerated) else Err(s.error);
    }

    /** Same for the positions statement. */
    method UpdatePositionsAndGetIbDatetime(utcNow: real, fetched: Result<seq<Statement>, string>) returns (r: Result<real, string>)
      modifies this
      ensures var c := Current(old(positionsObject), PositionsQuery, utcNow, fetched);
        (c.Ok? ==> positionsObject == Some(c.value) && r == Ok(c.value.whenGenerated)) &&
        (c.Err? ==> positionsObject == old(positionsObject) && r == Err(c.error))
      ensures balanceObject == old(balanceObject)
    {
      var s := RefreshPositions(utcNow, fetched);
      r := if s.Ok? then Ok(s.value.whenGenerated) else Err(s.error);
    }

    /** The balance: the statement's ending NAV rounded to 3 decimals. */
    method FetchBalance(utcNow: real, fetched: Result<seq<Statement>, string>) returns (r: Result<real, string>)
      modifies this
      ensures var c := Current(old(balanceObject), BalanceQuery, utcNow, fetched);
        (c.Ok? ==> balanceObject == Some(c.value) && r == Ok(BalanceOf(c.value))) &&
        (c.Err? ==> balanceObject == old(balanceObject) && r == Err(c.error))
      ensures positionsObject == old(positionsObject)
    {
      var s := RefreshBalance(utcNow, fetched);
      r := if s.Ok? then Ok(BalanceOf(s.value)) else Err(s.error);
    }

    /** The position table of the positions statement. */
    method FetchPositions(utcNow: real, fetched: Result<seq<Statement>, string>) returns (r: Result<Table, string>)
      modifies this
      ensures var c := Current(old(positionsObject), PositionsQuery, utcNow, fetched);
        (c.Ok? ==> positionsObject == Some(c.value) && r == Ok(PositionsTable(c.value.openPositions))) &&
        (c.Err? ==> positionsObject == old(positionsObject) && r == Err(c.error))
      ensures balanceObject == old(balanceObject)
    {
      var s := RefreshPositions(utcNow, fetched);
      if s.Err? {
        return Err(s.error);
      }
      var ps := s.value.openPositions;
      var t := EmptyTable;
      for i := 0 to |ps|
        invariant t == PositionsTable(ps[..i])
      {
        assert ps[..i + 1][..i] == ps[..i];
        var p := ps[i];
        t := t.Append(p.symbol, Trunc(p.multiplier), Trunc(p.position) as real,
                      Round(Mul(Mul(p.markPrice, p.multiplier), Trunc(p.position) as real), 3));
      }
      assert ps[..|ps|] == ps;
      return Ok(t);
    }

    /** `get_balance_object` behind the freshness check. */
    method RefreshBalance(utcNow: real, fetched: Result<seq<Statement>, string>) returns (s: Result<Statement, string>)
      modifies this
      ensures s == Current(old(balanceObject), BalanceQuery, utcNow, fetched)
      ensures s.Ok? ==> balanceObject == Some(s.value)
      ensures s.Err? ==> balanceObject == old(balanceObject)
      ensures positionsObject == old(positionsObject)
    {
      if !Truthy(IsAcceptable(balanceObject, BalanceQuery, utcNow)) {
        if fetched.Err? {
          return Err(fetched.error);
        }
        if fetched.value == [] {
          return Err(IndexError);
        }
        balanceObject := Some(fetched.value[0]);
      }
      s := Ok(balanceObject.value);
    }

    /** `get_positions_object` behind the freshness check. */
    method RefreshPositions(utcNow: real, fetched: Result<seq<Statement>, string>) returns (s: Result<Statement, string>)
      modifies this
      ensures s == Current(old(positionsObject), PositionsQuery, utcNow, fetched)
      ensures s.Ok? ==> positionsObject == Some(s.value)
      ensures s.Err? ==> positionsObject == old(positionsObject)
      ensures balanceObject == old(balanceObject)
    {
      if !Truthy(IsAcceptable(positionsObject, PositionsQuery, utcNow)) {
        if fetched.Err? {
          return Err(fetched.error);
        }
        if fetched.value == [] {
          return Err(IndexError);
        }
        positionsObject := Some(fetched.value[0]);
      }
      s := Ok(positionsObject.value);
    }
  }
}
