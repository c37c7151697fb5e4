/**
 The shared bearer token: its refresh schedule, the cooldown after a failed
 refresh, and the compare-then-clear rotation on a 401. The error codes behind a
 401's classification are those of section 3.1 of RFC 6750.
 */
module BearerAuth {
  import opened Basics

  datatype Settings = Settings(refreshSkew: real, failureCooldown: real)

  ghost predicate ValidSettings(settings: Settings) {
    settings.refreshSkew >= 0.0 && settings.failureCooldown >= 0.0
  }

  datatype CachedToken = CachedToken(accessToken: string, refreshAt: real, expiresAt: real)

  datatype Cache = Cache(token: Option<CachedToken>, nextRefreshAttemptAt: real)

  const EmptyCache := Cache(None, 0.0)

  datatype Classification = InvalidToken | NonToken | Unknown

  datatype Reason =
    | RefreshInProgress
    | StaleRequestToken
    | CurrentTokenNonToken401
    | CurrentTokenInvalid
    | CurrentTokenUnknown401

  datatype Decision = Decision(retry: bool, invalidated: bool, reason: Reason, classification: Classification)

  datatype FetchError = Timeout | ConnectionError | HttpError(status: int) | HttpErrorWithoutResponse | OtherError

  datatype FetchResult = Fetched(accessToken: string, expiresIn: real) | Failed(error: FetchError)

  predicate IsFresh(t: CachedToken, now: real) {
    now < t.refreshAt
  }

  predicate IsUnexpired(t: CachedToken, now: real) {
    now < t.expiresAt
  }

  predicate IsTransient(e: FetchError) {
    e.Timeout? || e.ConnectionError? || (e.HttpError? && (e.status == 429 || e.status >= 500))
  }

  /** Inside the lock, the cached token is good enough to skip a fetch. */
  predicate Usable(c: Cache, now: real) {
    c.token.Some? &&
    (IsFresh(c.token.value, now) || (IsUnexpired(c.token.value, now) && now < c.nextRefreshAttemptAt))
  }

  function Lifetime(expiresIn: real): real {
    Max(expiresIn, 0.0)
  }

  function Issued(settings: Settings, accessToken: string, expiresIn: real, now: real): CachedToken {
    var lifetime := Lifetime(expiresIn);
    CachedToken(accessToken, now + lifetime - Min(settings.refreshSkew, lifetime / 2.0), now + lifetime)
  }

  /** A refresh failed, but the cached token survives it. */
  predicate Survives(c: Cache, error: FetchError, now: real) {
    c.token.Some? && IsUnexpired(c.token.value, now) && IsTransient(error)
  }

  function AfterFetch(settings: Settings, c: Cache, result: FetchResult, now: real): Cache {
    match result
    case Fetched(accessToken, expiresIn) => Cache(Some(Issued(settings, accessToken, expiresIn, now)), 0.0)
    case Failed(error) =>
      if Survives(c, error, now) then c.(nextRefreshAttemptAt := now + settings.failureCooldown) else c
  }

  function OnUnauthorized(c: Cache, failed: string, classification: Classification): (Cache, Decision) {
    if c.token.None? then (c, Decision(true, false, RefreshInProgress, classification))
    else if failed != c.token.value.accessToken then (c, Decision(true, false, StaleRequestToken, classification))
    else if classification.NonToken? then (c, Decision(false, false, CurrentTokenNonToken401, classification))
    else
      (EmptyCache,
       Decision(true, true,
                if classification.InvalidToken? then CurrentTokenInvalid else CurrentTokenUnknown401, classification))
  }

  function OnInvalidate(c: Cache, accessToken: Option<string>): (Cache, bool) {
    if c.token.None? || (accessToken.Some? && accessToken.value != c.token.value.accessToken) then (c, false)
    else (EmptyCache, true)
  }

  /** A cached token is due for refresh no later than it expires. */
  predicate Scheduled(c: Cache) {
    c.token.Some? ==> c.token.value.refreshAt <= c.token.value.expiresAt
  }

  // ----- The object of the program

  datatype Outcome = Token(accessToken: string) | Raised(error: FetchError)

  class OktaBearerAuth {
    const settings: Settings
    var cachedToken: Option<CachedToken>
    var nextRefreshAttemptAt: real

    ghost predicate Valid()
      reads this
    {
      ValidSettings(settings) && Scheduled(Value())
    }

    ghost function Value(): Cache
      reads this
    {
      Cache(cachedToken, nextRefreshAttemptAt)
    }

    constructor (settings: Settings)
      requires ValidSettings(settings)
      ensures Valid() && this.settings == settings && Value() == EmptyCache
    {
      this.settings := settings;
      cachedToken := None;
      nextRefreshAttemptAt := 0.0;
    }

    method Invalidate(accessToken: Option<string>) returns (cleared: bool)
      requires Valid()
      modifies this
      ensures Valid()
      ensures (Value(), cleared) == OnInvalidate(old(Value()), accessToken)
      ensures cleared <==> old(cachedToken).Some? && cachedToken.None?
      ensures cleared <==>
                old(cachedToken).Some? && (accessToken.None? || accessToken.value == old(cachedToken).value.accessToken)
    {
      if cachedToken.None? {
        return false;
      }
      if accessToken.Some? && accessToken.value != cachedToken.value.accessToken {
        return false;
      }
      cachedToken := None;
      nextRefreshAttemptAt := 0.0;
      return true;
    }

    /** `failed` is the bearer token of the rejected request, if it carried one. */
    method HandleUnauthorized(failed: Option<string>, classification: Classification)
      returns (decision: Option<Decision>)
      requires Valid()
      modifies this
      ensures Valid()
      ensures failed.None? ==> decision.None? && Value() == old(Value())
      ensures failed.Some? ==>
                decision.Some? && (Value(), decision.value) == OnUnauthorized(old(Value()), failed.value, classification)
      ensures decision.Some? && decision.value.invalidated ==>
                old(cachedToken).Some? && failed == Some(old(cachedToken).value.accessToken) && cachedToken.None?
    {
      if failed.None? {
        return None;
      }
      if cachedToken.None? {
        return Some(Decision(true, false, RefreshInProgress, classification));
      }
      if failed.value != cachedToken.value.accessToken {
        return Some(Decision(true, false, StaleRequestToken, classification));
      }
      if classification.NonToken? {
        return Some(Decision(false, false, CurrentTokenNonToken401, classification));
      }
      cachedToken := None;
      nextRefreshAttemptAt := 0.0;
      var reason := if classification.InvalidToken? then CurrentTokenInvalid else CurrentTokenUnknown401;
      return Some(Decision(true, true, reason, classification));
    }

    /** The check that `_access_token` makes without the lock. */
    method FreshToken(now: real) returns (accessToken: Option<string>)
      requires Valid()
      ensures accessToken.Some? <==> cachedToken.Some? && IsFresh(cachedToken.value, now)
      ensures accessToken.Some? ==>
                accessToken.value == cachedToken.value.accessToken && IsUnexpired(cachedToken.value, now)
    {
      if cachedToken.Some? && IsFresh(cachedToken.value, now) {
        return Some(cachedToken.value.accessToken);
      }
      return None;
    }

    /**
     The critical section of `_access_token`: check again at the reading `now`, and
     fetch if need be. `result` is what the fetch gives if it is made, `after` the
     clock reading that follows it.
     */
    method AccessTokenLocked(now: real, result: FetchResult, after: real)
      returns (outcome: Outcome, fetched: bool)
      requires Valid() && now <= after
      modifies this
      ensures Valid()
      ensures fetched == !Usable(old(Value()), now)
      ensures Value() == if fetched then AfterFetch(settings, old(Value()), result, after) else old(Value())
      ensures outcome.Token? && !(fetched && result.Fetched?) ==>
                && old(cachedToken).Some?
                && outcome.accessToken == old(cachedToken).value.accessToken
                && IsUnexpired(old(cachedToken).value, if fetched then after else now)
      ensures fetched && result.Fetched? ==> outcome == Token(result.accessToken)
      ensures outcome.Raised? ==> fetched && result == Failed(outcome.error)
      ensures outcome.Raised? <==> fetched && result.Failed? && !Survives(old(Value()), result.error, after)
    {
      if cachedToken.Some? && IsFresh(cachedToken.value, now) {
        return Token(cachedToken.value.accessToken), false;
      }
      if cachedToken.Some? && IsUnexpired(cachedToken.value, now) && now < nextRefreshAttemptAt {
        return Token(cachedToken.value.accessToken), false;
      }
      match result
      case Failed(error) =>
        if cachedToken.Some? && IsUnexpired(cachedToken.value, after) && IsTransient(error) {
          nextRefreshAttemptAt := after + settings.failureCooldown;
          return Token(cachedToken.value.accessToken), true;
        }
        return Raised(error), true;
      case Fetched(accessToken, expiresIn) =>
        var lifetime := Max(expiresIn, 0.0);
        var refreshSkew := Min(settings.refreshSkew, lifetime / 2.0);
        cachedToken := Some(CachedToken(accessToken, after + lifetime - refreshSkew, after + lifetime));
        nextRefreshAttemptAt := 0.0;
        return Token(accessToken), true;
    }
  }
}
