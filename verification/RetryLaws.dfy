/**
 When a call gives up, told from the counts of its answers alone, and how long it
 waits before it sends again.
 */
module RetryLaws {
  import opened Basics
  import opened Retry

  // ----- The counts that decide

  function CountReadTimeouts(script: seq<Exchange>): nat {
    if script == [] then 0 else (if script[0].answer.ReadTimeout? then 1 else 0) + CountReadTimeouts(script[1..])
  }

  /** Whether a call that has seen the exchanges `before`, and sent again after each, sends again after `x`. */
  predicate GoesOn(client: Client, readTimeoutLimit: nat, before: seq<Exchange>, x: Exchange) {
    match x.answer
    case Success => false
    case ClientError => false
    case OtherFailure => false
    case Unauthorized(refresh) => refresh && CountUnauthorized(before) == 0
    case RateLimited(_, _) => x.elapsed + x.granted < client.rateLimitMaxElapsed
    case ReadTimeout(_) => CountReadTimeouts(before) + 1 < readTimeoutLimit
    case ServerError(_, _) => CountTransient(before) + 1 < client.maxAttempts
    case TransportFailure(_) => CountTransient(before) + 1 < client.maxAttempts
  }

  predicate GoesOnAt(client: Client, readTimeoutLimit: nat, script: seq<Exchange>, k: nat)
    requires k < |script|
  {
    GoesOn(client, readTimeoutLimit, script[..k], script[k])
  }

  /** How a call ends with an answer after which it does not send again. */
  function EndingWith(a: Answer): Ending {
    if a.Success? then Returned else if IsTransient(a) || a.RateLimited? then Exhausted else Raised
  }

  lemma {:induction false} CountsOneMore(script: seq<Exchange>, x: Exchange)
    ensures CountTransient(script + [x]) == CountTransient(script) + if IsTransient(x.answer) then 1 else 0
    ensures CountReadTimeouts(script + [x]) == CountReadTimeouts(script) + if x.answer.ReadTimeout? then 1 else 0
    ensures CountRateLimited(script + [x]) == CountRateLimited(script) + if x.answer.RateLimited? then 1 else 0
    ensures CountUnauthorized(script + [x]) == CountUnauthorized(script) + if x.answer.Unauthorized? then 1 else 0
  {
    if script == [] {
      assert script + [x] == [x];
    } else {
      CountsOneMore(script[1..], x);
      assert (script + [x])[1..] == script[1..] + [x];
    }
  }

  // ----- Exchange by exchange

  /** The counters after all exchanges of a script that a call goes on after. */
  function Final(client: Client, c: Call, script: seq<Exchange>): Call
    decreases |script|
  {
    if script == [] then c else Final(client, After(client, c, script[0]).0, script[1..])
  }

  /** The call has used the whole script, and sends again. */
  predicate Used(client: Client, c: Call, script: seq<Exchange>) {
    Outcome(client, c, script) == (StillSending, |script|)
  }

  lemma {:induction false} OneMoreExchange(client: Client, c: Call, script: seq<Exchange>, x: Exchange)
    requires Used(client, c, script)
    ensures var (c1, ending) := After(client, Final(client, c, script), x);
            && Outcome(client, c, script + [x]) == (ending, |script| + 1)
            && Final(client, c, script + [x]) == c1
    decreases |script|
  {
    var both := script + [x];
    if script == [] {
      assert both == [x] && [x][1..] == [];
    } else {
      OneMoreExchange(client, After(client, c, script[0]).0, script[1..], x);
      assert both[0] == script[0] && both[1..] == script[1..] + [x];
    }
  }

  lemma {:induction false} NothingAfterTheEnd(client: Client, c: Call, script: seq<Exchange>, x: Exchange)
    requires !Outcome(client, c, script).0.StillSending?
    ensures Outcome(client, c, script + [x]) == Outcome(client, c, script)
    decreases |script|
  {
    var both := script + [x];
    assert both[0] == script[0] && both[1..] == script[1..] + [x];
    var (c1, ending) := After(client, c, script[0]);
    if ending.StillSending? {
      NothingAfterTheEnd(client, c1, script[1..], x);
    }
  }

  /** The counters of a call are the counts of its answers. */
  ghost predicate Tallied(c: Call, start: Call, script: seq<Exchange>) {
    && c.transientAttempt == CountTransient(script)
    && c.readTimeoutAttempt == CountReadTimeouts(script)
    && c.rateLimitAttempt == CountRateLimited(script)
    && (c.refreshed <==> CountUnauthorized(script) > 0)
    && c.readTimeoutLimit == start.readTimeoutLimit && c.startedAt == start.startedAt
  }

  lemma AfterTallies(client: Client, c: Call, start: Call, script: seq<Exchange>, x: Exchange)
    requires Tallied(c, start, script)
    ensures var (c1, ending) := After(client, c, x);
            && (ending.StillSending? ==> Tallied(c1, start, script + [x]))
            && (ending.StillSending? <==> GoesOn(client, start.readTimeoutLimit, script, x))
            && (!ending.StillSending? ==> ending == EndingWith(x.answer))
  {
    CountsOneMore(script, x);
  }

  lemma {:induction false} UsedTallies(client: Client, start: Call, script: seq<Exchange>)
    requires Used(client, start, script) && start == NewCall(start.startedAt, start.readTimeoutLimit)
    ensures Tallied(Final(client, start, script), start, script)
  {
    if script != [] {
      var init, x := script[..|script| - 1], script[|script| - 1];
      assert script == init + [x];
      if !Outcome(client, start, init).0.StillSending? {
        NothingAfterTheEnd(client, start, init, x);
        assert false;
      }
      EndsWhereItMust(client, start, init);
      UsedTallies(client, start, init);
      OneMoreExchange(client, start, init, x);
      AfterTallies(client, Final(client, start, init), start, init, x);
    }
  }

  // ----- When a call gives up

  /** `sends` is the first exchange after which the call does not go on, or the whole script if it always does. */
  ghost predicate StopsFirst(client: Client, readTimeoutLimit: nat, script: seq<Exchange>, ending: Ending, sends: nat) {
    && sends <= |script|
    && (forall k :: 0 <= k < sends - 1 ==> GoesOnAt(client, readTimeoutLimit, script, k))
    && (if ending.StillSending? then
          sends == |script| && (sends > 0 ==> GoesOnAt(client, readTimeoutLimit, script, sends - 1))
        else
          && sends >= 1 && !GoesOnAt(client, readTimeoutLimit, script, sends - 1)
          && ending == EndingWith(script[sends - 1].answer))
  }

  lemma PrefixGoesOn(client: Client, readTimeoutLimit: nat, script: seq<Exchange>, x: Exchange, k: nat)
    requires k < |script|
    ensures GoesOnAt(client, readTimeoutLimit, script + [x], k) <==> GoesOnAt(client, readTimeoutLimit, script, k)
  {
    assert (script + [x])[..k] == script[..k];
  }

  lemma {:induction false} StopsAtFirst(client: Client, start: Call, script: seq<Exchange>)
    requires start == NewCall(start.startedAt, start.readTimeoutLimit)
    ensures var (ending, sends) := Outcome(client, start, script);
            StopsFirst(client, start.readTimeoutLimit, script, ending, sends)
  {
    if script != [] {
      var init, x := script[..|script| - 1], script[|script| - 1];
      assert script == init + [x];
      StopsAtFirst(client, start, init);
      forall k | 0 <= k < |init|
        ensures GoesOnAt(client, start.readTimeoutLimit, script, k) <==> GoesOnAt(client, start.readTimeoutLimit, init, k)
      {
        PrefixGoesOn(client, start.readTimeoutLimit, init, x, k);
      }
      if Outcome(client, start, init).0.StillSending? {
        StopsAtLast(client, start, init, x);
      } else {
        NothingAfterTheEnd(client, start, init, x);
      }
    }
  }

  lemma StopsAtLast(client: Client, start: Call, init: seq<Exchange>, x: Exchange)
    requires start == NewCall(start.startedAt, start.readTimeoutLimit) && Used(client, start, init)
    ensures var (ending, sends) := Outcome(client, start, init + [x]);
            && sends == |init| + 1
            && (ending.StillSending? <==> GoesOnAt(client, start.readTimeoutLimit, init + [x], |init|))
            && (!ending.StillSending? ==> ending == EndingWith(x.answer))
  {
    assert (init + [x])[..|init|] == init;
    UsedTallies(client, start, init);
    OneMoreExchange(client, start, init, x);
    AfterTallies(client, Final(client, start, init), start, init, x);
  }

  /**
   A call uses the exchanges of its script up to the first one that ends it, and ends
   as that answer says: a 5xx or transport failure if it is transient failure number
   maxAttempts, a read timeout if it is number R of its kind, a 429 if its elapsed
   time and pause reach the limit, a 401 if its refresh is refused or used up.
   */
  lemma GivesUpExactly(client: Client, readTimeoutLimit: nat, script: seq<Exchange>)
    ensures var (ending, sends) := Outcome(client, NewCall(0.0, readTimeoutLimit), script);
            && StopsFirst(client, readTimeoutLimit, script, ending, sends)
            && (ending.Returned? <==> sends > 0 && script[sends - 1].answer.Success?)
            && (ending.Exhausted? <==> sends > 0 && !ending.StillSending?
                                       && (IsTransient(script[sends - 1].answer) || script[sends - 1].answer.RateLimited?))
  {
    StopsAtFirst(client, NewCall(0.0, readTimeoutLimit), script);
  }

  /** There is only one ending and one number of sends that fit. */
  lemma StopsOnce(client: Client, limit: nat, script: seq<Exchange>, e1: Ending, n1: nat, e2: Ending, n2: nat)
    requires StopsFirst(client, limit, script, e1, n1) && StopsFirst(client, limit, script, e2, n2)
    ensures e1 == e2 && n1 == n2
  {
  }

  /** The exchanges are all server errors. */
  ghost predicate OnlyServerErrors(script: seq<Exchange>) {
    forall k :: 0 <= k < |script| ==> script[k].answer.ServerError?
  }

  lemma {:induction false} ServerErrorsCount(script: seq<Exchange>)
    requires OnlyServerErrors(script)
    ensures CountTransient(script) == |script|
  {
    if script != [] {
      ServerErrorsCount(script[1..]);
    }
  }

  /** Server errors are survived as long as there are fewer than maxAttempts of them. */
  lemma ServerErrorsThenSuccess(client: Client, readTimeoutLimit: nat, errors: seq<Exchange>, success: Exchange)
    requires OnlyServerErrors(errors) && success.answer.Success? && client.maxAttempts >= 1
    ensures Outcome(client, NewCall(0.0, readTimeoutLimit), errors + [success])
         == if |errors| < client.maxAttempts then (Returned, |errors| + 1) else (Exhausted, client.maxAttempts)
  {
    var script := errors + [success];
    var n := if |errors| < client.maxAttempts then |errors| + 1 else client.maxAttempts;
    var (ending, sends) := Outcome(client, NewCall(0.0, readTimeoutLimit), script);
    GivesUpExactly(client, readTimeoutLimit, script);
    forall k | 0 <= k < |errors|
      ensures GoesOnAt(client, readTimeoutLimit, script, k) <==> k + 1 < client.maxAttempts
    {
      assert script[..k] == errors[..k] && script[k] == errors[k];
      ServerErrorsCount(errors[..k]);
    }
    assert script[|errors|] == success && !GoesOnAt(client, readTimeoutLimit, script, |errors|);
    StopsOnce(client, readTimeoutLimit, script, ending, sends,
              if |errors| < client.maxAttempts then Returned else Exhausted, n);
  }

  // ----- How long it waits

  /** The delay a resend asks for is told by the hint and by how many answers of its kind came before. */
  lemma DelayFollowsCounts(client: Client, start: Call, script: seq<Exchange>, a: Answer)
    requires start == NewCall(start.startedAt, start.readTimeoutLimit) && Used(client, start, script)
    ensures var (_, v) := Settle(client, Final(client, start, script), a);
            && (v.DeferFamily? <==> a.RateLimited?)
            && (v.DeferFamily? ==> v.delay == RetryDelay(client, a.hint, CountRateLimited(script) + 1, a.jitter))
            && (v.DeferOutage? ==> IsTransient(a))
            && (v.DeferOutage? ==>
                  v.delay == RetryDelay(client, if a.ServerError? then a.hint else NoHint, CountTransient(script) + 1, a.jitter))
  {
    UsedTallies(client, start, script);
  }

  /** The server's hint is waited for in full unless the clamp cuts it, at least a second, and never more than the jitter longer. */
  lemma HintIsHonoured(client: Client, hint: Hint, attempt: nat, jitter: real)
    requires ValidClient(client) && attempt >= 1 && 0.0 <= jitter < 1.0 && !hint.NoHint?
    ensures var delay := RetryDelay(client, hint, attempt, jitter);
            var wanted := if hint.RetryAfter? then hint.seconds else hint.seconds + 1.0;
            && delay <= client.maxRetryDelay
            && (delay < client.maxRetryDelay ==>
                  && delay >= wanted && delay >= 1.0
                  && (delay < wanted + 1.0 || delay < 2.0) && delay - jitter == Max(wanted, 1.0))
            && (wanted >= client.maxRetryDelay || 1.0 >= client.maxRetryDelay ==> delay == client.maxRetryDelay)
  {
  }

  /** Without a hint the delay starts at the backoff factor and doubles with each attempt, up to the clamp. */
  lemma BackoffDoubles(client: Client, attempt: nat)
    requires ValidClient(client) && client.backoffFactor >= 0.0 && attempt >= 1
    ensures RetryDelay(client, NoHint, 1, 0.0) == Min(client.backoffFactor, client.maxRetryDelay)
    ensures RetryDelay(client, NoHint, attempt + 1, 0.0)
         == Min(2.0 * RetryDelay(client, NoHint, attempt, 0.0), client.maxRetryDelay)
  {
    var power := PowerOfTwo(attempt - 1);
    PowerOfTwoAtLeastOne(attempt - 1);
    assert PowerOfTwo(attempt) == 2.0 * power;
    var base := client.backoffFactor * power;
    assert base >= 0.0;
    assert client.backoffFactor * PowerOfTwo(attempt) == 2.0 * base;
  }
}
