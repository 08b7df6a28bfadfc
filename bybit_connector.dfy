/** The Bybit connector: the string its request signature is computed over,
    and the retry loop around each request. The HMAC itself, the HTTP call and
    the sleep after a transport error or an unreadable body are left out; each
    attempt's outcome and clock reading are parameters. A rate-limited reply
    (`10006`) only has its reset time read for a log line: the loop goes round
    again at once. */
module BybitConnector {
  import opened Common

  const DefaultRecvWindow: nat := 5000
  const RecvWindowStep: nat := 2500
  const RecvWindowError: int := 10002
  const RateLimitError: int := 10006
  const DefaultMaxRetries: int := 10
  const DefaultRetryCodes: set<int> := {10002, 10006, 30034, 30035, 130035, 130150}
  const SignKey: string := "sign"

  // ---------------------------------------------------------------------------
  // Signature preimage

  /** The keys that take part in the signature, in sorted order: `sign` and keys
      whose value is `None` are dropped. */
  function SignedKeys(ks: seq<string>, params: map<string, Option<string>>): (r: seq<string>)
    ensures forall k :: k in r <==> k in ks && k != SignKey && k in params && params[k].Some?
  {
    if ks == [] then []
    else
      var k := ks[|ks| - 1];
      SignedKeys(ks[..|ks| - 1], params)
        + (if k != SignKey && k in params && params[k].Some? then [k] else [])
  }

  /** Dropping keys keeps them strictly increasing. */
  lemma {:induction false} SignedKeysSorted(ks: seq<string>, params: map<string, Option<string>>)
    requires Increasing(ks)
    ensures Increasing(SignedKeys(ks, params))
    decreases |ks|
  {
    if ks != [] {
      var init := ks[..|ks| - 1];
      assert Increasing(init) by {
        forall i, j | 0 <= i < j < |init|
          ensures Less(init[i], init[j])
        {
          assert init[i] == ks[i] && init[j] == ks[j];
        }
      }
      SignedKeysSorted(init, params);
      var r0 := SignedKeys(init, params);
      forall i | 0 <= i < |r0|
        ensures Less(r0[i], ks[|ks| - 1])
      {
        assert r0[i] in init;
        var j :| 0 <= j < |init| && init[j] == r0[i];
        assert ks[j] == r0[i];
      }
      var r := SignedKeys(ks, params);
      forall i, j | 0 <= i < j < |r|
        ensures Less(r[i], r[j])
      {
        assert r[i] == r0[i];
        if j < |r0| {
          assert r[j] == r0[j];
        } else {
          assert r[j] == ks[|ks| - 1];
        }
      }
    }
  }

  function Assignments(ks: seq<string>, params: map<string, Option<string>>): (r: seq<string>)
    requires forall k :: k in ks ==> k in params && params[k].Some?
    ensures |r| == |ks|
    ensures forall i :: 0 <= i < |ks| ==> r[i] == ks[i] + "=" + params[ks[i]].value
  {
    if ks == [] then [] else [ks[0] + "=" + params[ks[0]].value] + Assignments(ks[1..], params)
  }

  /** The `&`-joined `k=v` pairs of the signed keys in sorted order. */
  function Query(params: map<string, Option<string>>): string
  {
    var ks := SignedKeys(SortedKeys(params.Keys), params);
    Join(Assignments(ks, params), "&")
  }

  /** The string `__sign` feeds to HMAC-SHA256: timestamp, API key, receive
      window, then the query. */
  function SignPreimage(timestamp: nat, apiKey: string, recvWindow: nat, params: map<string, Option<string>>): string
  {
    DecimalString(timestamp) + apiKey + DecimalString(recvWindow) + Query(params)
  }

  /** The query lists, once each and in strictly increasing key order, exactly
      the keys other than `sign` whose value is not `None`, each as `k=v`. */
  lemma QueryContents(params: map<string, Option<string>>)
    ensures var ks := SignedKeys(SortedKeys(params.Keys), params);
      Query(params) == Join(Assignments(ks, params), "&")
      && (forall k :: k in ks <==> k in params && k != SignKey && params[k].Some?)
      && Increasing(ks)
  {
    SortedKeysSpec(params.Keys);
    SignedKeysSorted(SortedKeys(params.Keys), params);
  }

  /** Adding or changing the `sign` entry does not change the preimage. */
  lemma {:induction false} SignEntryIgnored(params: map<string, Option<string>>, v: Option<string>)
    ensures Query(params[SignKey := v]) == Query(params - {SignKey})
  {
    var a := params[SignKey := v];
    var b := params - {SignKey};
    var ka := SignedKeys(SortedKeys(a.Keys), a);
    var kb := SignedKeys(SortedKeys(b.Keys), b);
    SortedKeysSpec(a.Keys);
    SortedKeysSpec(b.Keys);
    SignedKeysSorted(SortedKeys(a.Keys), a);
    SignedKeysSorted(SortedKeys(b.Keys), b);
    forall k
      ensures k in ka <==> k in kb
    {
      assert k in a.Keys <==> k in SortedKeys(a.Keys);
      assert k in b.Keys <==> k in SortedKeys(b.Keys);
    }
    SortedUnique(ka, kb);
    AssignmentsAgree(ka, a, b);
  }

  lemma {:induction false} AssignmentsAgree(ks: seq<string>, p: map<string, Option<string>>, q: map<string, Option<string>>)
    requires forall k :: k in ks ==> k in p && k in q && p[k] == q[k] && p[k].Some?
    ensures Assignments(ks, p) == Assignments(ks, q)
  {
    if ks != [] {
      assert ks[0] in ks;
      assert forall k :: k in ks[1..] ==> k in ks;
      AssignmentsAgree(ks[1..], p, q);
    }
  }

  // ---------------------------------------------------------------------------
  // Retry loop

  /** What one attempt produced: a transport error (timeout, SSL, connection or
      rate-limit exception), a body that is not JSON, or a JSON reply with its
      `rate_limit_reset_ms` entry when it has one. */
  datatype Outcome = Transport | NotJson | Reply(retCode: int, body: string, resetMs: Option<int>)

  /** `FailedRequestError` 400 (retries exceeded) or 409 (JSON), the re-raised
      transport exception, `InvalidRequestError` with the reply's code, the
      `KeyError` of a rate-limited reply without its reset time. */
  datatype Failure = RetriesExceeded | Reraised | Conflict | Invalid(code: int) | MissingReset

  /** A whitelisted `10006` reply without `rate_limit_reset_ms`: reading it raises. */
  predicate ResetMissing(o: Outcome, codes: set<int>)
  {
    o.Reply? && o.retCode == RateLimitError && RateLimitError in codes && o.resetMs.None?
  }

  /** The result, the receive window afterwards and the number of requests sent. */
  datatype Run = Run(result: Result<string, Failure>, recvWindow: nat, sent: nat)

  /** Whether the loop goes round again after this outcome. */
  predicate Retried(o: Outcome, forceRetry: bool, codes: set<int>)
  {
    match o
    case Transport => forceRetry
    case NotJson => forceRetry
    case Reply(code, _, reset) => code != 0 && code in codes && !(code == RateLimitError && reset.None?)
  }

  /** What the request returns or raises on an outcome that is not retried. */
  function Final(o: Outcome, codes: set<int>): Result<string, Failure>
  {
    match o
    case Transport => Err(Reraised)
    case NotJson => Err(Conflict)
    case Reply(code, body, _) =>
      if code == 0 then Ok(body)
      else if ResetMissing(o, codes) then Err(MissingReset)
      else Err(Invalid(code))
  }

  function NextWindow(o: Outcome, window: nat): nat
  {
    if o.Reply? && o.retCode == RecvWindowError then window + RecvWindowStep else window
  }

  /** The loop from a state with `budget` left before the decrement and `sent`
      requests already made. */
  function Handle(budget: int, window: nat, sent: nat, outcome: nat -> Outcome, forceRetry: bool, codes: set<int>): Run
    decreases if budget > 0 then budget else 0
  {
    if budget - 1 < 0 then Run(Err(RetriesExceeded), window, sent)
    else
      var o := outcome(sent);
      if Retried(o, forceRetry, codes) then Handle(budget - 1, NextWindow(o, window), sent + 1, outcome, forceRetry, codes)
      else Run(Final(o, codes), window, sent + 1)
  }

  /** One attempt of the loop with budget left. */
  lemma HandleUnfold(budget: int, window: nat, sent: nat, outcome: nat -> Outcome, forceRetry: bool, codes: set<int>)
    requires budget >= 1
    ensures var o := outcome(sent);
      Handle(budget, window, sent, outcome, forceRetry, codes)
      == if Retried(o, forceRetry, codes) then Handle(budget - 1, NextWindow(o, window), sent + 1, outcome, forceRetry, codes)
         else Run(Final(o, codes), window, sent + 1)
  {
  }

  function Max0(n: int): nat
  {
    if n > 0 then n else 0
  }

  /** Number of `10002` replies among attempts `lo` to `hi - 1`. */
  function WindowErrors(outcome: nat -> Outcome, lo: nat, hi: int): nat
    decreases hi
  {
    if hi <= lo then 0
    else WindowErrors(outcome, lo, hi - 1) + (if outcome(hi - 1).Reply? && outcome(hi - 1).retCode == RecvWindowError then 1 else 0)
  }

  lemma {:induction false} WindowErrorsFront(outcome: nat -> Outcome, lo: nat, hi: int)
    requires lo < hi
    ensures WindowErrors(outcome, lo, hi) ==
      (if outcome(lo).Reply? && outcome(lo).retCode == RecvWindowError then 1 else 0) + WindowErrors(outcome, lo + 1, hi)
    decreases hi
  {
    if lo + 1 < hi {
      WindowErrorsFront(outcome, lo, hi - 1);
    }
  }

  /** The receive window after the first `n` attempts, starting from `start`. */
  function WindowAfter(start: nat, outcome: nat -> Outcome, n: nat): nat
  {
    start + RecvWindowStep * WindowErrors(outcome, 0, n)
  }

  /** Each attempt moves the window as `NextWindow` says. */
  lemma WindowAfterStep(start: nat, outcome: nat -> Outcome, n: nat)
    ensures WindowAfter(start, outcome, n + 1) == NextWindow(outcome(n), WindowAfter(start, outcome, n))
  {
  }

  /** The strings signed for the first `n` attempts. */
  function Preimages(clock: nat -> nat, apiKey: string, start: nat, outcome: nat -> Outcome, params: map<string, Option<string>>, n: nat): (r: seq<string>)
    ensures |r| == n
  {
    if n == 0 then []
    else Preimages(clock, apiKey, start, outcome, params, n - 1) + [SignPreimage(clock(n - 1), apiKey, WindowAfter(start, outcome, n - 1), params)]
  }

  /** The i-th request signs the clock reading of attempt i and the window
      as the replies before it left it. */
  lemma {:induction false} PreimagesAt(clock: nat -> nat, apiKey: string, start: nat, outcome: nat -> Outcome, params: map<string, Option<string>>, n: nat, i: nat)
    requires i < n
    ensures Preimages(clock, apiKey, start, outcome, params, n)[i] == SignPreimage(clock(i), apiKey, WindowAfter(start, outcome, i), params)
  {
    if i < n - 1 {
      PreimagesAt(clock, apiKey, start, outcome, params, n - 1, i);
    }
  }

  /** The requests that were retried: all of them when the budget ran out,
      all but the last otherwise. */
  function RetriedCount(run: Run): int
  {
    if run.result == Err(RetriesExceeded) then run.sent else run.sent - 1
  }

  /** At most `max_retries` requests are sent. Running out of budget means every
      request sent was retried and exactly `max_retries` were sent; otherwise every
      request but the last was retried and the last one decides the result. The
      window grew by 2500 for each `10002` reply among the retried requests. */
  lemma {:induction false} HandleSpec(budget: int, window: nat, sent: nat, outcome: nat -> Outcome, forceRetry: bool, codes: set<int>)
    ensures sent <= Handle(budget, window, sent, outcome, forceRetry, codes).sent <= sent + Max0(budget)
    ensures var run := Handle(budget, window, sent, outcome, forceRetry, codes);
      forall i: nat :: sent <= i < RetriedCount(run) ==> Retried(outcome(i), forceRetry, codes)
    ensures var run := Handle(budget, window, sent, outcome, forceRetry, codes);
      run.result == Err(RetriesExceeded) ==> run.sent == sent + Max0(budget)
    ensures var run := Handle(budget, window, sent, outcome, forceRetry, codes);
      run.result != Err(RetriesExceeded) ==>
        run.sent > sent && !Retried(outcome(run.sent - 1), forceRetry, codes) && run.result == Final(outcome(run.sent - 1), codes)
    ensures var run := Handle(budget, window, sent, outcome, forceRetry, codes);
      run.recvWindow == window + RecvWindowStep * WindowErrors(outcome, sent, RetriedCount(run))
    decreases if budget > 0 then budget else 0
  {
    if budget - 1 >= 0 {
      var o := outcome(sent);
      if Retried(o, forceRetry, codes) {
        HandleSpec(budget - 1, NextWindow(o, window), sent + 1, outcome, forceRetry, codes);
        var run := Handle(budget, window, sent, outcome, forceRetry, codes);
        if sent < RetriedCount(run) {
          WindowErrorsFront(outcome, sent, RetriedCount(run));
        }
      }
    }
  }

  /** The request returns `body` exactly when some attempt within the budget
      answered `retCode` 0 with `body` and every attempt before it was retried. */
  lemma SucceedsIff(budget: int, window: nat, outcome: nat -> Outcome, forceRetry: bool, codes: set<int>, body: string)
    ensures Handle(budget, window, 0, outcome, forceRetry, codes).result == Ok(body) <==>
      exists n: nat :: n < budget && outcome(n).Reply? && outcome(n).retCode == 0 && outcome(n).body == body &&
          (forall i: nat :: i < n ==> Retried(outcome(i), forceRetry, codes))
  {
    var run := Handle(budget, window, 0, outcome, forceRetry, codes);
    HandleSpec(budget, window, 0, outcome, forceRetry, codes);
    if run.result == Ok(body) {
      var n: nat := run.sent - 1;
      assert n < budget && outcome(n).Reply? && outcome(n).retCode == 0 && outcome(n).body == body &&
          (forall i: nat :: i < n ==> Retried(outcome(i), forceRetry, codes));
    }
    if (exists n: nat :: n < budget && outcome(n).Reply? && outcome(n).retCode == 0 && outcome(n).body == body &&
          (forall i: nat :: i < n ==> Retried(outcome(i), forceRetry, codes))) {
      var n: nat :| n < budget && outcome(n).Reply? && outcome(n).retCode == 0 && outcome(n).body == body &&
          (forall i: nat :: i < n ==> Retried(outcome(i), forceRetry, codes));
      assert !Retried(outcome(n), forceRetry, codes);
      assert run.result != Err(RetriesExceeded);
      assert run.sent - 1 == n;
    }
  }

  /** A whitelisted reply never ends the request; a reply with any other nonzero
      code raises `InvalidRequestError` with that code, and it is the last request. */
  lemma InvalidOnlyOutsideWhitelist(budget: int, window: nat, outcome: nat -> Outcome, forceRetry: bool, codes: set<int>, code: int)
    ensures Handle(budget, window, 0, outcome, forceRetry, codes).result == Err(Invalid(code)) ==>
      code != 0 && code !in codes
      && Handle(budget, window, 0, outcome, forceRetry, codes).sent >= 1
      && outcome(Handle(budget, window, 0, outcome, forceRetry, codes).sent - 1).Reply?
      && outcome(Handle(budget, window, 0, outcome, forceRetry, codes).sent - 1).retCode == code
  {
    HandleSpec(budget, window, 0, outcome, forceRetry, codes);
  }

  /** A whitelisted rate-limited reply is retried at once when it carries its
      reset time; without it the request raises `KeyError` on that reply, which
      is the last one sent. */
  lemma RateLimitReply(budget: int, window: nat, outcome: nat -> Outcome, forceRetry: bool, codes: set<int>)
    ensures forall b, t :: Retried(Reply(RateLimitError, b, Some(t)), forceRetry, codes) <==> RateLimitError in codes
    ensures var run := Handle(budget, window, 0, outcome, forceRetry, codes);
      run.result == Err(MissingReset) <==> run.sent >= 1 && RetriedCount(run) == run.sent - 1 && ResetMissing(outcome(run.sent - 1), codes)
  {
    HandleSpec(budget, window, 0, outcome, forceRetry, codes);
  }

  /** Without `force_retry`, the first transport error is re-raised and the first
      unreadable body gives `FailedRequestError` 409, after that single request. */
  lemma NoForceRetry(budget: int, window: nat, sent: nat, outcome: nat -> Outcome, codes: set<int>)
    requires budget >= 1 && !outcome(sent).Reply?
    ensures Handle(budget, window, sent, outcome, false, codes) ==
      Run(if outcome(sent) == Transport then Err(Reraised) else Err(Conflict), window, sent + 1)
  {
  }

  /** Every attempt allowed by the budget failing in a retried way ends in
      `FailedRequestError` 400 after exactly `max_retries` requests. */
  lemma ExhaustedBudget(budget: int, window: nat, sent: nat, outcome: nat -> Outcome, forceRetry: bool, codes: set<int>)
    requires forall i: nat :: sent <= i < sent + Max0(budget) ==> Retried(outcome(i), forceRetry, codes)
    ensures Handle(budget, window, sent, outcome, forceRetry, codes).result == Err(RetriesExceeded)
    ensures Handle(budget, window, sent, outcome, forceRetry, codes).sent == sent + Max0(budget)
  {
    HandleSpec(budget, window, sent, outcome, forceRetry, codes);
  }

  /** The retry state of one connector. */
  class Connector {
    const apiKey: string
    const maxRetries: int
    const forceRetry: bool
    const retryCodes: set<int>
    /** `__X_BAPI_RECV_WINDOW`, raised in place on `10002`. */
    var recvWindow: nat

    constructor (apiKey: string, maxRetries: int, forceRetry: bool, retryCodes: Option<set<int>>)
      ensures this.apiKey == apiKey && this.maxRetries == maxRetries && this.forceRetry == forceRetry
      ensures this.retryCodes == (if retryCodes.None? then DefaultRetryCodes else retryCodes.value)
      ensures recvWindow == DefaultRecvWindow
    {
      this.apiKey := apiKey;
      this.maxRetries := maxRetries;
      this.forceRetry := forceRetry;
      this.retryCodes := if retryCodes.None? then DefaultRetryCodes else retryCodes.value;
      recvWindow := DefaultRecvWindow;
    }

    /** The handling of one attempt's outcome: a transport error or an
        unreadable body is retried only under `force_retry`; a nonzero
        `retCode` on the whitelist is retried, raising the window on
        `10002`; a whitelisted `10006` reply without its reset time raises
        `KeyError`; any other reply ends the request. */
    method Respond(o: Outcome) returns (stop: bool, r: Result<string, Failure>)
      modifies this
      ensures stop <==> !Retried(o, forceRetry, retryCodes)
      ensures stop ==> r == Final(o, retryCodes) && recvWindow == old(recvWindow)
      ensures !stop ==> recvWindow == NextWindow(o, old(recvWindow))
    {
      stop, r := true, Err(RetriesExceeded);
      match o {
        case Transport =>
          if !forceRetry {
            return true, Err(Reraised);
          }
        case NotJson =>
          if !forceRetry {
            return true, Err(Conflict);
          }
        case Reply(code, body, reset) =>
          if code != 0 {
            if code in retryCodes {
              if code == RecvWindowError {
                recvWindow := recvWindow + RecvWindowStep;
              } else if code == RateLimitError && reset.None? {
                return true, Err(MissingReset);
              }
            } else {
              return true, Err(Invalid(code));
            }
          } else {
            return true, Ok(body);
          }
      }
      stop := false;
    }

    /** `__prepare_and_handle_request`: `clock(i)` is the millisecond reading of
        attempt `i` and `outcome(i)` what its request produced. `preimages` are the
        strings signed for the requests actually sent. */
    method PrepareAndHandleRequest(params: map<string, Option<string>>, clock: nat -> nat, outcome: nat -> Outcome)
      returns (r: Result<string, Failure>, preimages: seq<string>)
      modifies this
      ensures Run(r, recvWindow, |preimages|) == Handle(maxRetries, old(recvWindow), 0, outcome, forceRetry, retryCodes)
      ensures preimages == Preimages(clock, apiKey, old(recvWindow), outcome, params, |preimages|)
    {
      var retriesAttempted := maxRetries;
      preimages := [];
      while true
        invariant retriesAttempted <= maxRetries
        invariant Handle(maxRetries, old(recvWindow), 0, outcome, forceRetry, retryCodes)
               == Handle(retriesAttempted, recvWindow, |preimages|, outcome, forceRetry, retryCodes)
        invariant recvWindow == WindowAfter(old(recvWindow), outcome, |preimages|)
        invariant preimages == Preimages(clock, apiKey, old(recvWindow), outcome, params, |preimages|)
        decreases if retriesAttempted > 0 then retriesAttempted else 0
      {
        var attempt := |preimages|;
        var preimage := SignPreimage(clock(attempt), apiKey, recvWindow, params);
        WindowAfterStep(old(recvWindow), outcome, attempt);
        retriesAttempted := retriesAttempted - 1;
        if retriesAttempted < 0 {
          return Err(RetriesExceeded), preimages;
        }
        HandleUnfold(retriesAttempted + 1, recvWindow, attempt, outcome, forceRetry, retryCodes);
        preimages := preimages + [preimage];
        var stop, res := Respond(outcome(attempt));
        if stop {
          return res, preimages;
        }
      }
    }
  }
}
