/**
 The retry decisions of one call of the REST client: how an answer moves the
 attempt counters, which pause it asks for, and when the call gives up.
 */
module Retry {
  import opened Basics

  datatype Client = Client(
    maxAttempts: nat,
    rateLimitMaxElapsed: real,
    maxRetryDelay: real,
    backoffFactor: real)

  ghost predicate ValidClient(client: Client) {
    client.maxAttempts >= 1 && client.rateLimitMaxElapsed > 0.0 && client.maxRetryDelay > 0.0
  }

  /** What a failed response says about when to come back; seconds as parsed, relative to now. */
  datatype Hint = RetryAfter(seconds: real) | UntilReset(seconds: real) | NoHint

  /** How one HTTP exchange ended; `refresh` is the verdict of the bearer 401 handler. */
  datatype Answer =
    | Success
    | Unauthorized(refresh: bool)
    | ClientError
    | RateLimited(hint: Hint, jitter: real)
    | ServerError(hint: Hint, jitter: real)
    | ReadTimeout(jitter: real)
    | TransportFailure(jitter: real)
    | OtherFailure

  predicate IsTransient(a: Answer) {
    a.ServerError? || a.ReadTimeout? || a.TransportFailure?
  }

  /** The counters of one call, with the pauses it has been granted so far. */
  datatype Call = Call(
    startedAt: real,
    readTimeoutLimit: nat,
    attempt: nat,
    rateLimitAttempt: nat,
    transientAttempt: nat,
    readTimeoutAttempt: nat,
    refreshed: bool,
    rateRetries: nat,
    rateDelay: real,
    totalDelay: real)

  function NewCall(startedAt: real, readTimeoutLimit: nat): Call {
    Call(startedAt, readTimeoutLimit, 1, 0, 0, 0, false, 0, 0.0, 0.0)
  }

  datatype Verdict = Stop | Resend | DeferFamily(delay: real) | DeferOutage(delay: real)

  function PowerOfTwo(n: nat): real {
    if n == 0 then 1.0 else 2.0 * PowerOfTwo(n - 1)
  }

  function Clamp(client: Client, delay: real): real {
    Max(Min(delay, client.maxRetryDelay), 0.0)
  }

  function RetryDelay(client: Client, hint: Hint, attempt: nat, jitter: real): real
    requires attempt >= 1
  {
    match hint
    case RetryAfter(seconds) => Clamp(client, Max(seconds, 1.0) + jitter)
    case UntilReset(seconds) => Clamp(client, Max(seconds + 1.0, 1.0) + jitter)
    case NoHint => Clamp(client, client.backoffFactor * PowerOfTwo(attempt - 1) + jitter)
  }

  /** Count an answer and decide what follows it. */
  function Settle(client: Client, c: Call, a: Answer): (Call, Verdict) {
    match a
    case Success => (c, Stop)
    case Unauthorized(refresh) =>
      if refresh && !c.refreshed then (c.(refreshed := true), Resend) else (c, Stop)
    case ClientError => (c, Stop)
    case RateLimited(hint, jitter) =>
      var c1 := c.(rateLimitAttempt := c.rateLimitAttempt + 1);
      (c1, DeferFamily(RetryDelay(client, hint, c1.rateLimitAttempt, jitter)))
    case ServerError(hint, jitter) =>
      var c1 := c.(transientAttempt := c.transientAttempt + 1);
      (c1, if c1.transientAttempt >= client.maxAttempts then Stop
           else DeferOutage(RetryDelay(client, hint, c1.transientAttempt, jitter)))
    case ReadTimeout(jitter) =>
      var c1 := c.(transientAttempt := c.transientAttempt + 1, readTimeoutAttempt := c.readTimeoutAttempt + 1);
      (c1, if c1.readTimeoutAttempt >= c.readTimeoutLimit then Stop
           else DeferOutage(RetryDelay(client, NoHint, c1.transientAttempt, jitter)))
    case TransportFailure(jitter) =>
      var c1 := c.(transientAttempt := c.transientAttempt + 1);
      (c1, if c1.transientAttempt >= client.maxAttempts then Stop
           else DeferOutage(RetryDelay(client, NoHint, c1.transientAttempt, jitter)))
    case OtherFailure => (c, Stop)
  }

  predicate RateBudgetLeft(client: Client, elapsed: real, effective: real) {
    elapsed + effective < client.rateLimitMaxElapsed
  }

  function GrantRatePause(c: Call, effective: real): Call {
    c.(rateRetries := c.rateRetries + 1, rateDelay := c.rateDelay + effective, totalDelay := c.totalDelay + effective)
  }

  function GrantOutagePause(c: Call, effective: real): Call {
    c.(totalDelay := c.totalDelay + effective)
  }

  // ----- Delay bounds

  lemma {:induction false} PowerOfTwoAtLeastOne(n: nat)
    ensures PowerOfTwo(n) >= 1.0
  {
    if n > 0 {
      PowerOfTwoAtLeastOne(n - 1);
    }
  }

  lemma Scaled(x: real, factor: real) returns (y: real)
    requires x > 0.0 && factor >= 1.0
    ensures y == x * factor && y >= x
  {
    y := x * factor;
    assert y - x == x * (factor - 1.0);
  }

  /** The least pause a 429 can ask for, whatever its headers say. */
  function DelayFloor(client: Client): real {
    Min(1.0, Min(client.backoffFactor, client.maxRetryDelay))
  }

  lemma RetryDelayAtLeastFloor(client: Client, hint: Hint, attempt: nat, jitter: real)
    requires ValidClient(client) && attempt >= 1 && jitter >= 0.0
    ensures RetryDelay(client, hint, attempt, jitter) >= DelayFloor(client)
    ensures 0.0 <= RetryDelay(client, hint, attempt, jitter) <= client.maxRetryDelay
  {
    var floor := DelayFloor(client);
    assert floor <= 1.0 && floor <= client.maxRetryDelay && floor <= client.backoffFactor;
    match hint
    case RetryAfter(seconds) =>
      ClampKeepsFloor(client, floor, Max(seconds, 1.0) + jitter);
    case UntilReset(seconds) =>
      ClampKeepsFloor(client, floor, Max(seconds + 1.0, 1.0) + jitter);
    case NoHint =>
      PowerOfTwoAtLeastOne(attempt - 1);
      if floor > 0.0 {
        var base := Scaled(client.backoffFactor, PowerOfTwo(attempt - 1));
        ClampKeepsFloor(client, floor, base + jitter);
      }
  }

  lemma ClampKeepsFloor(client: Client, floor: real, delay: real)
    requires floor <= client.maxRetryDelay && floor <= delay
    ensures Clamp(client, delay) >= floor
  {
  }

  // ----- Counter invariant of a call that is still going

  /** Holds whenever the call may still send. */
  ghost predicate Going(client: Client, c: Call) {
    && 1 <= c.readTimeoutLimit <= client.maxAttempts
    && c.readTimeoutAttempt < c.readTimeoutLimit
    && c.readTimeoutAttempt <= c.transientAttempt
    && c.transientAttempt - c.readTimeoutAttempt < client.maxAttempts
  }

  /** The bound on transient failures, in force for going and for finished calls. */
  ghost predicate TransientBounded(client: Client, c: Call) {
    c.transientAttempt <= client.maxAttempts + c.readTimeoutLimit - 1
  }

  lemma SettleBoundsTransients(client: Client, c: Call, a: Answer)
    requires ValidClient(client) && Going(client, c)
    ensures TransientBounded(client, c)
    ensures var (c1, v) := Settle(client, c, a);
            && TransientBounded(client, c1)
            && (!v.Stop? ==> Going(client, c1))
  {
  }

  // ----- One call against scripted exchanges

  /** One send: its answer, the elapsed seconds read before its pause, and the pause the throttle granted. */
  datatype Exchange = Exchange(answer: Answer, elapsed: real, granted: real)

  datatype Ending = Returned | Raised | Exhausted | StillSending

  /** The call after one exchange: the new counters, and how it ended unless it sends again. */
  function After(client: Client, c: Call, x: Exchange): (Call, Ending) {
    var (c1, verdict) := Settle(client, c, x.answer);
    match verdict
    case Stop => (c1, if x.answer.Success? then Returned else if IsTransient(x.answer) then Exhausted else Raised)
    case Resend => (c1, StillSending)
    case DeferFamily(_) =>
      if RateBudgetLeft(client, x.elapsed, x.granted) then (GrantRatePause(c1, x.granted), StillSending)
      else (c1, Exhausted)
    case DeferOutage(_) => (GrantOutagePause(c1, x.granted), StillSending)
  }

  /** How the call ends, and how many exchanges of the script it uses. */
  function Outcome(client: Client, c: Call, script: seq<Exchange>): (Ending, nat)
    decreases |script|
  {
    if script == [] then (StillSending, 0)
    else
      var (c1, ending) := After(client, c, script[0]);
      if !ending.StillSending? then (ending, 1)
      else
        var (later, sends) := Outcome(client, c1, script[1..]);
        (later, sends + 1)
  }

  /** The retry loop of the program, on its own counters. */
  method SendRequest(client: Client, readTimeoutLimit: nat, script: seq<Exchange>)
    returns (ending: Ending, sends: nat)
    ensures (ending, sends) == Outcome(client, NewCall(0.0, readTimeoutLimit), script)
  {
    sends := 0;
    var transientAttempt, readTimeoutAttempt, refreshed := 0, 0, false;
    ghost var start, c := NewCall(0.0, readTimeoutLimit), NewCall(0.0, readTimeoutLimit);
    while sends < |script|
      invariant sends <= |script|
      invariant c.transientAttempt == transientAttempt && c.readTimeoutAttempt == readTimeoutAttempt
      invariant c.refreshed == refreshed && c.readTimeoutLimit == readTimeoutLimit
      invariant var rest := Outcome(client, c, script[sends..]);
                Outcome(client, start, script) == (rest.0, sends + rest.1)
    {
      var exchange := script[sends];
      assert script[sends..][1..] == script[sends + 1..];
      c := After(client, c, exchange).0;
      sends := sends + 1;
      match exchange.answer
      case Success =>
        return Returned, sends;
      case Unauthorized(refresh) =>
        if refreshed || !refresh {
          return Raised, sends;
        }
        refreshed := true;
      case RateLimited(_, _) =>
        if exchange.elapsed + exchange.granted >= client.rateLimitMaxElapsed {
          return Exhausted, sends;
        }
      case ReadTimeout(_) =>
        transientAttempt := transientAttempt + 1;
        readTimeoutAttempt := readTimeoutAttempt + 1;
        if readTimeoutAttempt >= readTimeoutLimit {
          return Exhausted, sends;
        }
      case ServerError(_, _) =>
        transientAttempt := transientAttempt + 1;
        if transientAttempt >= client.maxAttempts {
          return Exhausted, sends;
        }
      case TransportFailure(_) =>
        transientAttempt := transientAttempt + 1;
        if transientAttempt >= client.maxAttempts {
          return Exhausted, sends;
        }
      case ClientError =>
        return Raised, sends;
      case OtherFailure =>
        return Raised, sends;
    }
    return StillSending, sends;
  }

  // ----- What a call keeps, whatever it is answered

  function CountTransient(script: seq<Exchange>): nat {
    if script == [] then 0 else (if IsTransient(script[0].answer) then 1 else 0) + CountTransient(script[1..])
  }

  function CountUnauthorized(script: seq<Exchange>): nat {
    if script == [] then 0 else (if script[0].answer.Unauthorized? then 1 else 0) + CountUnauthorized(script[1..])
  }

  function CountRateLimited(script: seq<Exchange>): nat {
    if script == [] then 0 else (if script[0].answer.RateLimited? then 1 else 0) + CountRateLimited(script[1..])
  }

  /** A call stops at the first answer that ends it, and returns a response only for a success. */
  lemma {:induction false} EndsWhereItMust(client: Client, c: Call, script: seq<Exchange>)
    ensures var (ending, sends) := Outcome(client, c, script);
            && sends <= |script|
            && (ending.StillSending? ==> sends == |script|)
            && (!ending.StillSending? ==> sends >= 1)
            && (ending.Returned? <==> sends >= 1 && script[sends - 1].answer.Success?)
            && (ending.Exhausted? ==> var a := script[sends - 1].answer; IsTransient(a) || a.RateLimited?)
    decreases |script|
  {
    if script != [] {
      EndsWhereItMust(client, After(client, c, script[0]).0, script[1..]);
    }
  }

  /** Every answer that a call sends again after was retryable; a 429 only while its time budget lasted. */
  lemma {:induction false} ResendsOnlyAfterRetryable(client: Client, c: Call, script: seq<Exchange>, k: nat)
    requires k + 1 < Outcome(client, c, script).1
    ensures k < |script|
    ensures var a := script[k].answer; IsTransient(a) || a.RateLimited? || (a.Unauthorized? && a.refresh)
    ensures script[k].answer.RateLimited? ==> script[k].elapsed + script[k].granted < client.rateLimitMaxElapsed
    decreases |script|
  {
    if k > 0 {
      ResendsOnlyAfterRetryable(client, After(client, c, script[0]).0, script[1..], k - 1);
    }
  }

  lemma FirstOf(script: seq<Exchange>, n: nat)
    requires 0 < n <= |script|
    ensures script[..n] != [] && script[..n][0] == script[0] && script[..n][1..] == script[1..][..n - 1]
  {
  }

  /** At most one 401 is answered with a resend, so a call sees at most two. */
  lemma {:induction false} UnauthorizedAtMostTwice(client: Client, c: Call, script: seq<Exchange>)
    ensures Outcome(client, c, script).1 <= |script|
    ensures var (ending, sends) := Outcome(client, c, script);
            CountUnauthorized(script[..sends])
            <= (if c.refreshed then 0 else 1) + (if ending.StillSending? then 0 else 1)
    decreases |script|
  {
    if script != [] {
      var (ending, sends) := Outcome(client, c, script);
      UnauthorizedAtMostTwice(client, After(client, c, script[0]).0, script[1..]);
      FirstOf(script, sends);
    }
  }

  /** A call sees at most `maxAttempts + R - 1` transient failures, R being its read-timeout limit. */
  lemma {:induction false} TransientFailuresBounded(client: Client, c: Call, script: seq<Exchange>)
    requires ValidClient(client) && Going(client, c)
    ensures Outcome(client, c, script).1 <= |script|
    ensures c.transientAttempt + CountTransient(script[..Outcome(client, c, script).1])
            <= client.maxAttempts + c.readTimeoutLimit - 1
    decreases |script|
  {
    if script != [] {
      var sends := Outcome(client, c, script).1;
      var (c1, ending) := After(client, c, script[0]);
      SettleBoundsTransients(client, c, script[0].answer);
      if ending.StillSending? {
        TransientFailuresBounded(client, c1, script[1..]);
      }
      FirstOf(script, sends);
    }
  }

  /** A call is sent once, and once more for each retryable answer: nothing else makes it send. */
  lemma {:induction false} SendsAreExplained(client: Client, c: Call, script: seq<Exchange>)
    ensures Outcome(client, c, script).1 <= |script|
    ensures var (_, sends) := Outcome(client, c, script);
            sends <= 1 + CountUnauthorized(script[..sends]) + CountTransient(script[..sends])
                       + CountRateLimited(script[..sends])
    decreases |script|
  {
    if script != [] {
      var sends := Outcome(client, c, script).1;
      SendsAreExplained(client, After(client, c, script[0]).0, script[1..]);
      FirstOf(script, sends);
    }
  }
}
