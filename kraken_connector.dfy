/** The Kraken connector's request loop: the retry budget, the nonce written
    into the request parameters and signed on every private attempt, and the
    handling of transport failures, unreadable bodies and the `error` list of
    a reply. The HTTP call, the sleeps and the HMAC-SHA512 itself are left out;
    each attempt's outcome and clock reading are parameters. */
module KrakenConnector {
  import opened Common

  const DefaultMaxRetries: int := 10
  const DefaultRetryCodes: set<string> := {"EOrder:Rate limit exceeded"}
  const NonceKey: string := "nonce"

  // ---------------------------------------------------------------------------
  // Request parameters (a dictionary in insertion order) and what is signed

  datatype Param = Param(key: string, value: string)

  /** `params[key] = value`: an existing key keeps its place, a new one goes last. */
  function SetParam(params: seq<Param>, key: string, value: string): (r: seq<Param>)
  {
    if params == [] then [Param(key, value)]
    else if params[0].key == key then [Param(key, value)] + params[1..]
    else [params[0]] + SetParam(params[1..], key, value)
  }

  function Keys(params: seq<Param>): seq<string>
  {
    if params == [] then [] else [params[0].key] + Keys(params[1..])
  }

  /** After the assignment the key holds the value, every other entry is kept,
      and nothing else is added. */
  lemma {:induction false} SetParamSpec(params: seq<Param>, key: string, value: string)
    ensures Param(key, value) in SetParam(params, key, value)
    ensures forall p :: p in params && p.key != key ==> p in SetParam(params, key, value)
    ensures forall p :: p in SetParam(params, key, value) ==> p == Param(key, value) || p in params
  {
    if params != [] && params[0].key != key {
      SetParamSpec(params[1..], key, value);
      var r := SetParam(params, key, value);
      assert r == [params[0]] + SetParam(params[1..], key, value);
      forall p | p in params && p.key != key
        ensures p in r
      {
        if p != params[0] {
          assert p in params[1..];
        }
      }
    }
  }

  /** The key order changes only by appending a new key. */
  lemma {:induction false} SetParamKeys(params: seq<Param>, key: string, value: string)
    ensures Keys(SetParam(params, key, value)) == if key in Keys(params) then Keys(params) else Keys(params) + [key]
  {
    if params != [] && params[0].key != key {
      SetParamKeys(params[1..], key, value);
      assert Keys(params) == [params[0].key] + Keys(params[1..]);
    }
  }

  /** Writing the same key twice leaves only the second value. */
  lemma {:induction false} SetParamTwice(params: seq<Param>, key: string, a: string, b: string)
    ensures SetParam(SetParam(params, key, a), key, b) == SetParam(params, key, b)
  {
    if params != [] && params[0].key != key {
      SetParamTwice(params[1..], key, a, b);
    }
  }

  /** `urlencode(params)`: `k=v` pairs in insertion order joined by `&`, for
      keys and values that need no percent-escaping. */
  function Postdata(params: seq<Param>): string
  {
    Join(Pairs(params), "&")
  }

  function Pairs(params: seq<Param>): (r: seq<string>)
    ensures |r| == |params| && forall i :: 0 <= i < |params| ==> r[i] == params[i].key + "=" + params[i].value
  {
    if params == [] then [] else [params[0].key + "=" + params[0].value] + Pairs(params[1..])
  }

  /** What `__sign` authenticates: the URL path, and the bytes hashed with
      SHA-256 before being appended to it (the nonce, then the post data). */
  datatype SignInput = SignInput(urlPath: string, hashed: string)

  /** One request as sent: its parameters and, for a private endpoint, the
      signed input of its headers. */
  datatype Request = Request(params: seq<Param>, signed: Option<SignInput>)

  /** The request of attempt `i` with clock reading `ms`. */
  function RequestAt(isPrivate: bool, path: string, params: seq<Param>, ms: nat): Request
  {
    if isPrivate then
      var withNonce := SetParam(params, NonceKey, DecimalString(ms));
      Request(withNonce, Some(SignInput(path, DecimalString(ms) + Postdata(withNonce))))
    else Request(params, None)
  }

  // ---------------------------------------------------------------------------
  // Retry loop

  /** What one attempt produced: a client or timeout error, a body that is not
      JSON, or a JSON reply with its `error` list (empty when the field is
      missing or empty). */
  datatype Outcome = Transport | NotJson | Reply(errors: seq<string>, body: string)

  /** `FailedRequestError` (retries exceeded, or the body was not JSON), the
      re-raised transport exception, `InvalidRequestError` with the error list. */
  datatype Failure = RetriesExceeded | Reraised | Conflict | Invalid(errors: seq<string>)

  /** The result and the number of requests sent. */
  datatype Run = Run(result: Result<string, Failure>, sent: nat)

  /** Whether the loop goes round again after this outcome. */
  predicate Retried(o: Outcome, forceRetry: bool, codes: set<string>)
  {
    match o
    case Transport => forceRetry
    case NotJson => forceRetry
    case Reply(errors, _) => exists e :: e in errors && e in codes
  }

  /** What the request returns or raises on an outcome that is not retried. */
  function Final(o: Outcome): Result<string, Failure>
  {
    match o
    case Transport => Err(Reraised)
    case NotJson => Err(Conflict)
    case Reply(errors, body) => if errors == [] then Ok(body) else Err(Invalid(errors))
  }

  /** The loop from a state with `budget` left before the decrement and `sent`
      requests already made. */
  function Handle(budget: int, sent: nat, outcome: nat -> Outcome, forceRetry: bool, codes: set<string>): Run
    decreases if budget > 0 then budget else 0
  {
    if budget - 1 < 0 then Run(Err(RetriesExceeded), sent)
    else if Retried(outcome(sent), forceRetry, codes) then Handle(budget - 1, sent + 1, outcome, forceRetry, codes)
    else Run(Final(outcome(sent)), sent + 1)
  }

  function Max0(n: int): nat
  {
    if n > 0 then n else 0
  }

  /** At most `max_retries` requests are sent. Running out of budget means every
      request was retried and exactly `max_retries` were sent; otherwise every
      request but the last was retried and the last one decides the result. */
  lemma {:induction false} HandleSpec(budget: int, sent: nat, outcome: nat -> Outcome, forceRetry: bool, codes: set<string>)
    ensures sent <= Handle(budget, sent, outcome, forceRetry, codes).sent <= sent + Max0(budget)
    ensures var run := Handle(budget, sent, outcome, forceRetry, codes);
      run.result == Err(RetriesExceeded) ==>
        run.sent == sent + Max0(budget) && forall i: nat :: sent <= i < run.sent ==> Retried(outcome(i), forceRetry, codes)
    ensures var run := Handle(budget, sent, outcome, forceRetry, codes);
      run.result != Err(RetriesExceeded) ==>
        run.sent > sent && !Retried(outcome(run.sent - 1), forceRetry, codes) && run.result == Final(outcome(run.sent - 1))
        && forall i: nat :: sent <= i < run.sent - 1 ==> Retried(outcome(i), forceRetry, codes)
    decreases if budget > 0 then budget else 0
  {
    if budget - 1 >= 0 && Retried(outcome(sent), forceRetry, codes) {
      HandleSpec(budget - 1, sent + 1, outcome, forceRetry, codes);
    }
  }

  /** An error list raises `InvalidRequestError` exactly when it is not empty and
      none of its entries is a retry code; an empty one returns the body. */
  lemma FinalReply(errors: seq<string>, body: string, forceRetry: bool, codes: set<string>)
    ensures !Retried(Reply(errors, body), forceRetry, codes) ==>
      (Final(Reply(errors, body)) == Ok(body) <==> errors == [])
      && (Final(Reply(errors, body)).Err? <==> errors != [] && forall e :: e in errors ==> e !in codes)
  {
  }

  /** The request returns `body` exactly when some attempt within the budget
      answered with an empty error list and `body`, and every attempt before it
      was retried. */
  lemma SucceedsIff(budget: int, outcome: nat -> Outcome, forceRetry: bool, codes: set<string>, body: string)
    ensures Handle(budget, 0, outcome, forceRetry, codes).result == Ok(body) <==>
      exists n: nat :: n < budget && outcome(n) == Reply([], body) && forall i: nat :: i < n ==> Retried(outcome(i), forceRetry, codes)
  {
    var run := Handle(budget, 0, outcome, forceRetry, codes);
    HandleSpec(budget, 0, outcome, forceRetry, codes);
    if run.result == Ok(body) {
      var n: nat := run.sent - 1;
      assert n < budget && outcome(n) == Reply([], body) && forall i: nat :: i < n ==> Retried(outcome(i), forceRetry, codes);
    }
    if (exists n: nat :: n < budget && outcome(n) == Reply([], body) && forall i: nat :: i < n ==> Retried(outcome(i), forceRetry, codes)) {
      var n: nat :| n < budget && outcome(n) == Reply([], body) && forall i: nat :: i < n ==> Retried(outcome(i), forceRetry, codes);
      assert !Retried(outcome(n), forceRetry, codes);
      assert run.result != Err(RetriesExceeded);
      assert run.sent - 1 == n;
    }
  }

  /** Without `force_retry`, the first transport error is re-raised and the first
      unreadable body raises `FailedRequestError`, after that single request. */
  lemma NoForceRetry(budget: int, sent: nat, outcome: nat -> Outcome, codes: set<string>)
    requires budget >= 1 && !outcome(sent).Reply?
    ensures Handle(budget, sent, outcome, false, codes) ==
      Run(if outcome(sent) == Transport then Err(Reraised) else Err(Conflict), sent + 1)
  {
  }

  /** The requests of the first `n` attempts. */
  function Requests(isPrivate: bool, path: string, params: seq<Param>, clock: nat -> nat, n: nat): (r: seq<Request>)
    ensures |r| == n
  {
    if n == 0 then [] else Requests(isPrivate, path, params, clock, n - 1) + [RequestAt(isPrivate, path, params, clock(n - 1))]
  }

  /** Attempt `i` sends the request built from the clock reading of attempt `i`. */
  lemma {:induction false} RequestsAt(isPrivate: bool, path: string, params: seq<Param>, clock: nat -> nat, n: nat, i: nat)
    requires i < n
    ensures Requests(isPrivate, path, params, clock, n)[i] == RequestAt(isPrivate, path, params, clock(i))
  {
    if i < n - 1 {
      RequestsAt(isPrivate, path, params, clock, n - 1, i);
    }
  }

  /** The request parameters after the attempt at clock reading `last`, if
      any: a private call carries that attempt's nonce. */
  function NonceParams(isPrivate: bool, reqParams: seq<Param>, last: Option<nat>): seq<Param>
  {
    if isPrivate && last.Some? then SetParam(reqParams, NonceKey, DecimalString(last.value)) else reqParams
  }

  /** The preparation of one attempt: a private call writes a fresh nonce into
      the parameters and signs the path with the nonce and the post data. */
  method Prepare(isPrivate: bool, path: string, reqParams: seq<Param>, params: seq<Param>, ghost last: Option<nat>,
                 ms: nat, ghost clock: nat -> nat, ghost sent: seq<Request>)
    returns (next: seq<Param>, request: Request)
    requires params == NonceParams(isPrivate, reqParams, last) && ms == clock(|sent|)
    requires sent == Requests(isPrivate, path, reqParams, clock, |sent|)
    ensures next == NonceParams(isPrivate, reqParams, Some(clock(|sent|)))
    ensures sent + [request] == Requests(isPrivate, path, reqParams, clock, |sent| + 1)
  {
    next := params;
    var headers: Option<SignInput> := None;
    if isPrivate {
      var nonce := DecimalString(ms);
      if last.Some? {
        SetParamTwice(reqParams, NonceKey, DecimalString(last.value), nonce);
      }
      next := SetParam(params, NonceKey, nonce);
      headers := Some(SignInput(path, nonce + Postdata(next)));
    }
    request := Request(next, headers);
  }

  /** `krakenApiConnector`: its settings do not change after construction. */
  class Connector {
    const apiKey: string
    const maxRetries: int
    const forceRetry: bool
    const retryCodes: set<string>

    constructor (apiKey: string, maxRetries: int, forceRetry: bool, retryCodes: Option<set<string>>)
      ensures this.apiKey == apiKey && this.maxRetries == maxRetries && this.forceRetry == forceRetry
      ensures this.retryCodes == (if retryCodes.None? then DefaultRetryCodes else retryCodes.value)
    {
      this.apiKey := apiKey;
      this.maxRetries := maxRetries;
      this.forceRetry := forceRetry;
      this.retryCodes := if retryCodes.None? then DefaultRetryCodes else retryCodes.value;
    }

    /** The handling of one attempt's outcome: a transport error or an
        unreadable body is retried only under `force_retry`; an error list
        with an entry on the whitelist is retried; any other reply ends the
        request. */
    method Respond(o: Outcome) returns (stop: bool, r: Result<string, Failure>)
      ensures stop <==> !Retried(o, forceRetry, retryCodes)
      ensures stop ==> r == Final(o)
    {
      stop, r := true, Err(RetriesExceeded);
      match o {
        case Transport =>
          if !forceRetry {
            return true, Err(Reraised);
          }
        case NotJson =>
          if !forceRetry {
            return true, Err(Conflict);
          }
        case Reply(errors, body) =>
          if errors != [] {
            if !exists e :: e in errors && e in retryCodes {
              return true, Err(Invalid(errors));
            }
          } else {
            return true, Ok(body);
          }
      }
      stop := false;
    }

    /** `__prepare_and_handle_request`: `clock(i)` is the millisecond reading of
        attempt `i` and `outcome(i)` what its request produced. `sent` are the
        requests actually made. */
    method PrepareAndHandleRequest(isPrivate: bool, path: string, reqParams: seq<Param>, clock: nat -> nat, outcome: nat -> Outcome)
      returns (r: Result<string, Failure>, sent: seq<Request>)
      ensures Run(r, |sent|) == Handle(maxRetries, 0, outcome, forceRetry, retryCodes)
      ensures sent == Requests(isPrivate, path, reqParams, clock, |sent|)
    {
      var retriesAttempted := maxRetries;
      var params := reqParams;
      ghost var last: Option<nat> := None;
      sent := [];
      while true
        invariant retriesAttempted <= maxRetries
        invariant Handle(maxRetries, 0, outcome, forceRetry, retryCodes) == Handle(retriesAttempted, |sent|, outcome, forceRetry, retryCodes)
        invariant sent == Requests(isPrivate, path, reqParams, clock, |sent|)
        invariant params == NonceParams(isPrivate, reqParams, last)
        decreases if retriesAttempted > 0 then retriesAttempted else 0
      {
        var attempt := |sent|;
        var request;
        params, request := Prepare(isPrivate, path, reqParams, params, last, clock(attempt), clock, sent);
        last := Some(clock(attempt));
        retriesAttempted := retriesAttempted - 1;
        if retriesAttempted < 0 {
          return Err(RetriesExceeded), sent;
        }
        sent := sent + [request];
        var stop, res := Respond(outcome(attempt));
        if stop {
          return res, sent;
        }
      }
    }
  }
}
