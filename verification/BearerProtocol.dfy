/**
 Any number of callers of the shared bearer token, interleaved: the lock-free
 check, the locked check, the fetch made under the lock, and the 401 handler.
 */
module BearerProtocol {
  import opened Basics
  import opened BearerAuth

  /** Where a caller of `_access_token` stands; the last case is a finished call and its evidence. */
  datatype Pc =
    | Resting
    | Reading(at: real)
    | WantLock
    | Inside
    | Fetching
    | Returned(accessToken: string, expiresAt: real, checkedAt: real, own: bool)

  datatype Fetch = Fetch(accessToken: string, at: real, expiresIn: real)

  /** `cooling` is the time of the last failed refresh that the current token survived. */
  datatype State = State(
    now: real,
    lock: Option<nat>,
    cache: Cache,
    cooling: Option<real>,
    callers: seq<Pc>,
    fetches: seq<Fetch>,
    cleared: seq<string>)

  datatype Event =
    | Tick(to: real)
    | Call(who: nat)
    | Check(who: nat)
    | Lock(who: nat)
    | CheckLocked(who: nat)
    | FetchEnds(who: nat, result: FetchResult)
    | Unauthorized(failed: string, classification: Classification)
    | Invalidate(accessToken: Option<string>)

  predicate InLock(pc: Pc) {
    pc.Inside? || pc.Fetching?
  }

  predicate Legal(s: State, e: Event) {
    match e
    case Tick(to) => to >= s.now
    case Call(who) => who < |s.callers| && (s.callers[who].Resting? || s.callers[who].Returned?)
    case Check(who) => who < |s.callers| && s.callers[who].Reading?
    case Lock(who) => who < |s.callers| && s.callers[who].WantLock? && s.lock.None?
    case CheckLocked(who) => who < |s.callers| && s.callers[who].Inside?
    case FetchEnds(who, _) => who < |s.callers| && s.callers[who].Fetching?
    case Unauthorized(_, _) => s.lock.None?
    case Invalidate(_) => s.lock.None?
  }

  function Served(t: CachedToken, at: real, own: bool): Pc {
    Returned(t.accessToken, t.expiresAt, at, own)
  }

  function Apply(settings: Settings, s: State, e: Event): State
    requires Legal(s, e)
  {
    match e
    case Tick(to) => s.(now := to)
    case Call(who) => s.(callers := s.callers[who := Reading(s.now)])
    case Check(who) =>
      var at := s.callers[who].at;
      if s.cache.token.Some? && IsFresh(s.cache.token.value, at) then
        s.(callers := s.callers[who := Served(s.cache.token.value, at, false)])
      else s.(callers := s.callers[who := WantLock])
    case Lock(who) => s.(lock := Some(who), callers := s.callers[who := Inside])
    case CheckLocked(who) =>
      if Usable(s.cache, s.now) then
        s.(lock := None, callers := s.callers[who := Served(s.cache.token.value, s.now, false)])
      else s.(callers := s.callers[who := Fetching])
    case FetchEnds(who, result) =>
      var cache := AfterFetch(settings, s.cache, result, s.now);
      if result.Fetched? then
        s.(lock := None, cache := cache, cooling := None,
           callers := s.callers[who := Served(cache.token.value, s.now, true)],
           fetches := s.fetches + [Fetch(result.accessToken, s.now, result.expiresIn)])
      else if Survives(s.cache, result.error, s.now) then
        s.(lock := None, cache := cache, cooling := Some(s.now),
           callers := s.callers[who := Served(s.cache.token.value, s.now, false)])
      else s.(lock := None, callers := s.callers[who := Resting])
    case Unauthorized(failed, classification) =>
      var (cache, decision) := OnUnauthorized(s.cache, failed, classification);
      if decision.invalidated then s.(cache := cache, cooling := None, cleared := s.cleared + [failed]) else s
    case Invalidate(accessToken) =>
      var (cache, cleared) := OnInvalidate(s.cache, accessToken);
      if cleared then
        s.(cache := cache, cooling := None, cleared := s.cleared + [s.cache.token.value.accessToken])
      else s
  }

  ghost predicate Run(settings: Settings, s: State, es: seq<Event>, t: State)
    decreases |es|
  {
    if es == [] then s == t
    else Legal(s, es[0]) && Run(settings, Apply(settings, s, es[0]), es[1..], t)
  }

  ghost predicate Initial(s: State) {
    && s.now >= 0.0 && s.lock.None? && s.cache == EmptyCache && s.cooling.None?
    && s.fetches == [] && s.cleared == []
    && forall i :: 0 <= i < |s.callers| ==> s.callers[i].Resting?
  }

  ghost predicate Reachable(settings: Settings, t: State) {
    exists s, es :: Initial(s) && Run(settings, s, es, t)
  }

  // ----- The invariant

  function Tokens(fetches: seq<Fetch>): seq<string> {
    seq(|fetches|, i requires 0 <= i < |fetches| => fetches[i].accessToken)
  }

  function IssuedBy(settings: Settings, f: Fetch): CachedToken {
    Issued(settings, f.accessToken, f.expiresIn, f.at)
  }

  ghost predicate LockSound(s: State) {
    forall i :: 0 <= i < |s.callers| ==> (InLock(s.callers[i]) <==> s.lock == Some(i))
  }

  ghost predicate CacheSound(settings: Settings, s: State) {
    && (s.cache.token.Some? ==>
          |s.fetches| > 0 && s.cache.token.value == IssuedBy(settings, s.fetches[|s.fetches| - 1]))
    && (s.cooling.None? ==> s.cache.nextRefreshAttemptAt == 0.0)
    && (s.cooling.Some? ==>
          s.cache.token.Some? && s.cache.nextRefreshAttemptAt == s.cooling.value + settings.failureCooldown)
  }

  /** A served token was unexpired at the call's last clock check, or fetched by the call itself. */
  ghost predicate ServedSound(settings: Settings, s: State, pc: Pc) {
    pc.Returned? ==>
      && (pc.own || pc.checkedAt < pc.expiresAt)
      && exists k :: 0 <= k < |s.fetches| && s.fetches[k].accessToken == pc.accessToken
                     && IssuedBy(settings, s.fetches[k]).expiresAt == pc.expiresAt
  }

  ghost predicate RotationSound(s: State) {
    && |s.cleared| + (if s.cache.token.Some? then 1 else 0) <= |s.fetches|
    && (NoDuplicates(Tokens(s.fetches)) ==>
          && NoDuplicates(s.cleared)
          && (forall x :: x in s.cleared ==> x in Tokens(s.fetches))
          && (s.cache.token.Some? ==> s.cache.token.value.accessToken !in s.cleared))
  }

  ghost predicate Inv(settings: Settings, s: State) {
    && s.now >= 0.0 && LockSound(s) && CacheSound(settings, s) && RotationSound(s)
    && forall i :: 0 <= i < |s.callers| ==> ServedSound(settings, s, s.callers[i])
  }

  /** Half the lifetime passes before a refresh is due, and a refresh is due before the token expires. */
  lemma IssuedIsScheduled(settings: Settings, f: Fetch)
    requires ValidSettings(settings)
    ensures var t := IssuedBy(settings, f);
            && f.at + Lifetime(f.expiresIn) / 2.0 <= t.refreshAt <= t.expiresAt
            && t.expiresAt == f.at + Lifetime(f.expiresIn)
  {
  }

  lemma NewTokenKeepsRotation(s: State, t: State, f: Fetch)
    requires RotationSound(s) && t.fetches == s.fetches + [f] && t.cleared == s.cleared
    requires t.cache.token.Some? && t.cache.token.value.accessToken == f.accessToken
    ensures RotationSound(t)
  {
    var xs, ys := Tokens(s.fetches), Tokens(t.fetches);
    assert ys == xs + [f.accessToken];
    if NoDuplicates(ys) {
      assert forall i, j :: 0 <= i < j < |xs| ==> xs[i] == ys[i] && xs[j] == ys[j];
      forall x | x in s.cleared ensures x in ys && x != f.accessToken {
        var i :| 0 <= i < |xs| && xs[i] == x;
        assert ys[i] == x && ys[|xs|] == f.accessToken;
      }
    }
  }

  lemma ClearKeepsRotation(settings: Settings, s: State, t: State)
    requires CacheSound(settings, s) && RotationSound(s) && s.cache.token.Some? && t.cache.token.None?
    requires t.fetches == s.fetches && t.cleared == s.cleared + [s.cache.token.value.accessToken]
    ensures RotationSound(t)
  {
    var n := |s.fetches| - 1;
    assert Tokens(s.fetches)[n] == s.cache.token.value.accessToken;
  }

  lemma StepKeepsServed(settings: Settings, s: State, e: Event)
    requires ValidSettings(settings) && Inv(settings, s) && Legal(s, e)
    ensures var t := Apply(settings, s, e);
            forall i :: 0 <= i < |t.callers| ==> ServedSound(settings, t, t.callers[i])
  {
    var t := Apply(settings, s, e);
    var n := |s.fetches|;
    assert forall k :: 0 <= k < n ==> t.fetches[k] == s.fetches[k];
    if s.cache.token.Some? {
      assert s.fetches[n - 1] == t.fetches[n - 1];
      IssuedIsScheduled(settings, s.fetches[n - 1]);
    }
    forall i | 0 <= i < |t.callers| ensures ServedSound(settings, t, t.callers[i]) {
      assert ServedSound(settings, s, s.callers[i]);
      if e.FetchEnds? && e.who == i && e.result.Fetched? {
        assert t.fetches[n].accessToken == t.callers[i].accessToken;
      }
    }
  }

  lemma StepKeepsLock(settings: Settings, s: State, e: Event)
    requires LockSound(s) && Legal(s, e)
    ensures LockSound(Apply(settings, s, e))
  {
  }

  lemma StepKeepsCache(settings: Settings, s: State, e: Event)
    requires CacheSound(settings, s) && Legal(s, e)
    ensures CacheSound(settings, Apply(settings, s, e))
  {
  }

  lemma StepKeepsInv(settings: Settings, s: State, e: Event)
    requires ValidSettings(settings) && Inv(settings, s) && Legal(s, e)
    ensures Inv(settings, Apply(settings, s, e))
  {
    var t := Apply(settings, s, e);
    StepKeepsLock(settings, s, e);
    StepKeepsCache(settings, s, e);
    StepKeepsServed(settings, s, e);
    if |t.fetches| > |s.fetches| {
      NewTokenKeepsRotation(s, t, t.fetches[|s.fetches|]);
    } else if |t.cleared| > |s.cleared| {
      ClearKeepsRotation(settings, s, t);
    }
  }

  lemma {:induction false} RunKeepsInv(settings: Settings, s: State, es: seq<Event>, t: State)
    requires ValidSettings(settings) && Inv(settings, s) && Run(settings, s, es, t)
    ensures Inv(settings, t)
    decreases |es|
  {
    if es != [] {
      StepKeepsInv(settings, s, es[0]);
      RunKeepsInv(settings, Apply(settings, s, es[0]), es[1..], t);
    }
  }

  lemma ReachableInv(settings: Settings, t: State)
    requires ValidSettings(settings) && Reachable(settings, t)
    ensures Inv(settings, t)
  {
    var s, es :| Initial(s) && Run(settings, s, es, t);
    RunKeepsInv(settings, s, es, t);
  }

  // ----- Main results

  /** At most one fetch runs at a time, and only under the lock. */
  lemma SingleFlight(settings: Settings, t: State, i: nat, j: nat)
    requires ValidSettings(settings) && Reachable(settings, t)
    requires i < |t.callers| && j < |t.callers| && t.callers[i].Fetching? && t.callers[j].Fetching?
    ensures i == j && t.lock == Some(i)
  {
    ReachableInv(settings, t);
    assert InLock(t.callers[i]) && InLock(t.callers[j]);
  }

  /**
   Every token a call returns was fetched, and was unexpired at that call's last
   clock check unless that very call fetched it; the cached token keeps to its schedule.
   */
  lemma TokensServedInTime(settings: Settings, t: State)
    requires ValidSettings(settings) && Reachable(settings, t)
    ensures forall i :: 0 <= i < |t.callers| && t.callers[i].Returned? ==>
              && (t.callers[i].own || t.callers[i].checkedAt < t.callers[i].expiresAt)
              && t.callers[i].accessToken in Tokens(t.fetches)
    ensures t.cache.token.Some? ==>
              && |t.fetches| > 0
              && var f := t.fetches[|t.fetches| - 1];
                 && t.cache.token.value.accessToken == f.accessToken
                 && f.at + Lifetime(f.expiresIn) / 2.0 <= t.cache.token.value.refreshAt <= t.cache.token.value.expiresAt
                 && t.cache.token.value.expiresAt == f.at + Lifetime(f.expiresIn)
  {
    ReachableInv(settings, t);
    forall i | 0 <= i < |t.callers| && t.callers[i].Returned?
      ensures (t.callers[i].own || t.callers[i].checkedAt < t.callers[i].expiresAt)
      ensures t.callers[i].accessToken in Tokens(t.fetches)
    {
      assert ServedSound(settings, t, t.callers[i]);
      var k :| 0 <= k < |t.fetches| && t.fetches[k].accessToken == t.callers[i].accessToken
               && IssuedBy(settings, t.fetches[k]).expiresAt == t.callers[i].expiresAt;
      assert Tokens(t.fetches)[k] == t.callers[i].accessToken;
    }
    if t.cache.token.Some? {
      IssuedIsScheduled(settings, t.fetches[|t.fetches| - 1]);
    }
  }

  /** While a failed refresh cools down, a fetch starts only if the token has expired meanwhile. */
  lemma CooldownHoldsFetches(settings: Settings, t: State, who: nat)
    requires ValidSettings(settings) && Reachable(settings, t) && Legal(t, CheckLocked(who))
    requires Apply(settings, t, CheckLocked(who)).callers[who].Fetching?
    ensures t.cooling.Some? ==>
              && t.cache.token.Some?
              && (t.now >= t.cooling.value + settings.failureCooldown || t.now >= t.cache.token.value.expiresAt)
  {
    ReachableInv(settings, t);
  }

  // ----- When a token is refreshed, exactly

  /** The cached token is the last one fetched: it is due for refresh and it expires at these times. */
  ghost predicate CachedUntil(settings: Settings, t: State, due: real, expiry: real) {
    && t.cache.token.Some? && |t.fetches| > 0
    && var f := t.fetches[|t.fetches| - 1];
       && t.cache.token.value.accessToken == f.accessToken
       && expiry == f.at + Max(f.expiresIn, 0.0)
       && due == expiry - Min(settings.refreshSkew, Max(f.expiresIn, 0.0) / 2.0)
  }

  lemma CachedHasTimes(settings: Settings, t: State) returns (due: real, expiry: real)
    requires ValidSettings(settings) && Reachable(settings, t) && t.cache.token.Some?
    ensures CachedUntil(settings, t, due, expiry)
    ensures due == t.cache.token.value.refreshAt <= expiry == t.cache.token.value.expiresAt
  {
    ReachableInv(settings, t);
    IssuedIsScheduled(settings, t.fetches[|t.fetches| - 1]);
    due, expiry := t.cache.token.value.refreshAt, t.cache.token.value.expiresAt;
  }

  /** The lock-free check serves the cached token exactly until its refresh is due. */
  lemma CheckServesExactly(settings: Settings, t: State, who: nat, due: real, expiry: real)
    requires ValidSettings(settings) && Reachable(settings, t) && Legal(t, Check(who))
    requires CachedUntil(settings, t, due, expiry)
    ensures var pc := Apply(settings, t, Check(who)).callers[who];
            && (pc.Returned? <==> t.callers[who].at < due)
            && (pc.Returned? ==> pc.accessToken == t.cache.token.value.accessToken)
  {
    var d, e := CachedHasTimes(settings, t);
  }

  /**
   Under the lock, a fetch starts exactly if nothing is cached, or the refresh is due
   and no failed refresh is cooling down, unless the token has expired.
   */
  lemma FetchStartsExactly(settings: Settings, t: State, who: nat)
    requires ValidSettings(settings) && Reachable(settings, t) && Legal(t, CheckLocked(who))
    ensures var fetching := Apply(settings, t, CheckLocked(who)).callers[who].Fetching?;
            if t.cache.token.None? then fetching
            else
              exists due, expiry ::
                && CachedUntil(settings, t, due, expiry)
                && (fetching <==>
                      && t.now >= due
                      && (t.cooling.None? || t.now >= t.cooling.value + settings.failureCooldown || t.now >= expiry))
  {
    if t.cache.token.Some? {
      var due, expiry := CachedHasTimes(settings, t);
      ReachableInv(settings, t);
      assert CachedUntil(settings, t, due, expiry);
    }
  }

  /**
   A failed fetch serves the cached token, and starts a cooldown, exactly if the token
   has not expired and the failure is a timeout, a lost connection, a 429 or a 5xx.
   */
  lemma FailedFetchExactly(settings: Settings, t: State, who: nat, error: FetchError, due: real, expiry: real)
    requires ValidSettings(settings) && Reachable(settings, t) && Legal(t, FetchEnds(who, Failed(error)))
    requires t.cache.token.Some? ==> CachedUntil(settings, t, due, expiry)
    ensures var u := Apply(settings, t, FetchEnds(who, Failed(error)));
            && u.cache.token == t.cache.token && u.fetches == t.fetches && u.lock.None?
            && if (&& t.cache.token.Some? && t.now < expiry
                   && match error
                      case Timeout => true
                      case ConnectionError => true
                      case HttpError(status) => status == 429 || status >= 500
                      case HttpErrorWithoutResponse => false
                      case OtherError => false)
               then u.callers[who].Returned? && u.callers[who].accessToken == t.cache.token.value.accessToken
                    && u.cooling == Some(t.now)
               else u.callers[who].Resting? && u.cooling == t.cooling
  {
    if t.cache.token.Some? {
      var d, e := CachedHasTimes(settings, t);
    }
  }

  lemma {:induction false} HistoriesGrow(settings: Settings, s: State, es: seq<Event>, t: State)
    requires Run(settings, s, es, t)
    ensures |t.fetches| >= |s.fetches| && |t.cleared| >= |s.cleared|
    decreases |es|
  {
    if es != [] {
      HistoriesGrow(settings, Apply(settings, s, es[0]), es[1..], t);
    }
  }

  lemma {:induction false} CoolingPersists(settings: Settings, s: State, es: seq<Event>, t: State, since: real)
    requires s.cooling.Some? && since <= s.cooling.value && since <= s.now
    requires Run(settings, s, es, t) && |t.fetches| == |s.fetches| && |t.cleared| == |s.cleared|
    ensures t.cooling.Some? && since <= t.cooling.value && t.cache.token == s.cache.token
    decreases |es|
  {
    if es != [] {
      var u := Apply(settings, s, es[0]);
      HistoriesGrow(settings, s, [es[0]], u) by {
        assert [es[0]][1..] == [];
      }
      HistoriesGrow(settings, u, es[1..], t);
      CoolingPersists(settings, u, es[1..], t, since);
    }
  }

  /**
   After a failed refresh that the token survived at time s.now, and as long as no
   fetch has succeeded and nothing has been cleared, no caller starts a fetch before
   the cooldown ends or the token expires.
   */
  lemma CooldownOverRuns(
      settings: Settings, s: State, who: nat, error: FetchError, es: seq<Event>, t: State, next: nat)
    requires ValidSettings(settings) && Reachable(settings, s)
    requires Legal(s, FetchEnds(who, Failed(error))) && Survives(s.cache, error, s.now)
    requires Run(settings, Apply(settings, s, FetchEnds(who, Failed(error))), es, t)
    requires |t.fetches| == |s.fetches| && |t.cleared| == |s.cleared|
    requires Legal(t, CheckLocked(next)) && Apply(settings, t, CheckLocked(next)).callers[next].Fetching?
    ensures t.now >= s.now + settings.failureCooldown || t.now >= s.cache.token.value.expiresAt
  {
    var e := FetchEnds(who, Failed(error));
    var u := Apply(settings, s, e);
    ReachableInv(settings, s);
    StepKeepsInv(settings, s, e);
    RunKeepsInv(settings, u, es, t);
    CoolingPersists(settings, u, es, t, s.now);
  }

  /**
   Clearing never outruns fetching; and when all fetched tokens differ, no token is
   cleared twice, however many 401 answers arrive for it.
   */
  lemma RotationBound(settings: Settings, t: State)
    requires ValidSettings(settings) && Reachable(settings, t)
    ensures |t.cleared| <= |t.fetches|
    ensures NoDuplicates(Tokens(t.fetches)) ==> NoDuplicates(t.cleared)
  {
    ReachableInv(settings, t);
  }

  /** With distinct tokens, a late 401 for any token but the newest leaves the cache as it is. */
  lemma LateUnauthorizedKeepsNewer(
      settings: Settings, t: State, k: nat, classification: Classification)
    requires ValidSettings(settings) && Reachable(settings, t) && NoDuplicates(Tokens(t.fetches))
    requires k < |t.fetches| - 1 && t.lock.None?
    ensures Apply(settings, t, Unauthorized(t.fetches[k].accessToken, classification)) == t
  {
    ReachableInv(settings, t);
    if t.cache.token.Some? {
      var xs, n := Tokens(t.fetches), |t.fetches| - 1;
      assert xs[k] != xs[n];
    }
  }

  /** A 401 clears the cache exactly if its token is the cached one and the token may be at fault. */
  lemma UnauthorizedClearsExactly(
      settings: Settings, t: State, failed: string, classification: Classification)
    requires t.lock.None?
    ensures var u := Apply(settings, t, Unauthorized(failed, classification));
            var (_, decision) := OnUnauthorized(t.cache, failed, classification);
            && (u.cache.token != t.cache.token <==>
                  t.cache.token.Some? && t.cache.token.value.accessToken == failed && !classification.NonToken?)
            && (!decision.retry <==>
                  t.cache.token.Some? && t.cache.token.value.accessToken == failed && classification.NonToken?)
            && (decision.invalidated <==> u.cache.token != t.cache.token)
  {
  }
}
