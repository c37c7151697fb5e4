/**
 The pacing state of one endpoint family, the org-wide backoff deadline, and the
 counting semaphores that gate both. Times are reals on one clock; every method
 takes the clock readings that the program makes inside the corresponding lock.
 */
module Throttle {
  import opened Basics

  const DEFAULT_REQUEST_INTERVAL: real := 60.0 / 50.0
  const PROBE_INTERVAL: real := 1.0

  datatype WaitReason = ProactivePacing | RetryBackoff

  datatype Quota = Quota(resetAt: real, remaining: int)

  /** The rate limit headers of one response: absent, unparsable, or a pair. */
  datatype Headers = Missing | Invalid | Valid(quota: Quota)

  datatype Limits = Limits(reserve: nat, maxCooldown: real)

  /** Everything the family lock guards, as a value. */
  datatype Pacer = Pacer(
    nextAllowedAt: real,
    requestInterval: real,
    probeInterval: real,
    observed: Option<Quota>,
    reason: WaitReason,
    queued: int,
    active: int)

  const FreshPacer := Pacer(0.0, DEFAULT_REQUEST_INTERVAL, 0.0, None, ProactivePacing, 0, 0)

  function Spacing(p: Pacer): real {
    Max(p.requestInterval, p.probeInterval)
  }

  function Booked(p: Pacer, now: real): Pacer {
    p.(nextAllowedAt := now + Spacing(p), reason := ProactivePacing)
  }

  function Postpone(p: Pacer, deadline: real, reason: WaitReason): Pacer {
    if deadline > p.nextAllowedAt then p.(nextAllowedAt := deadline, reason := reason) else p
  }

  function EffectiveDelay(maxCooldown: real, delay: real): real {
    if delay <= 0.0 then 0.0 else Min(delay, maxCooldown)
  }

  function Deferred(limits: Limits, p: Pacer, now: real, delay: real, minimumInterval: real): Pacer {
    if delay <= 0.0 then p
    else
      Postpone(p, now + Min(delay, limits.maxCooldown), RetryBackoff)
      .(probeInterval := Max(p.probeInterval, minimumInterval))
  }

  /** The org deadline after an outage pause of `delay` that starts at `now`. */
  function DeferredDeadline(maxCooldown: real, deadline: real, now: real, delay: real): real {
    if delay <= 0.0 then deadline else Max(deadline, now + Min(delay, maxCooldown))
  }

  predicate IsStale(seen: Option<Quota>, q: Quota) {
    seen.Some? && q.resetAt < seen.value.resetAt
  }

  /** The remembered quota after one more header pair. */
  function Remember(seen: Option<Quota>, q: Quota): Quota {
    if seen.None? || q.resetAt > seen.value.resetAt then q
    else if q.resetAt == seen.value.resetAt && q.remaining < seen.value.remaining then q
    else seen.value
  }

  function Observed(limits: Limits, p: Pacer, headers: Headers, wall: real, now: real): Pacer {
    match headers
    case Missing => p.(probeInterval := 0.0)
    case Invalid => p
    case Valid(q) =>
      if IsStale(p.observed, q) then p
      else Repaced(limits, p.(observed := Some(Remember(p.observed, q))), wall, now)
  }

  /** Recompute interval and deadline from the remembered quota. */
  function Repaced(limits: Limits, p: Pacer, wall: real, now: real): Pacer
    requires p.observed.Some?
  {
    var toReset := p.observed.value.resetAt - wall;
    var reserve := limits.reserve + p.active;
    if p.observed.value.remaining <= reserve then
      Postpone(p, now + Min(toReset + 1.0, limits.maxCooldown), ProactivePacing)
      .(probeInterval := PROBE_INTERVAL, requestInterval := DEFAULT_REQUEST_INTERVAL)
    else
      var interval := if toReset <= 0.0 then DEFAULT_REQUEST_INTERVAL
                      else Min(Max(toReset, 0.0), limits.maxCooldown)
                           / (p.observed.value.remaining - reserve) as real;
      Postpone(p, now + interval, ProactivePacing)
      .(requestInterval := interval, probeInterval := 0.0)
  }

  // ----- What no operation on a family can do

  lemma BookedKeepsDeadline(p: Pacer, now: real)
    requires now >= p.nextAllowedAt && p.requestInterval > 0.0
    ensures Booked(p, now).nextAllowedAt > p.nextAllowedAt
    ensures Spacing(p) > 0.0
  {
  }

  /** A postponement never moves the deadline back, and lasts as long as the delay it returns. */
  lemma DeferredKeepsDeadline(limits: Limits, p: Pacer, now: real, delay: real, minimumInterval: real)
    requires limits.maxCooldown > 0.0
    ensures var q := Deferred(limits, p, now, delay, minimumInterval);
            && q.nextAllowedAt >= p.nextAllowedAt
            && q.requestInterval == p.requestInterval
            && (delay > 0.0 ==> q.nextAllowedAt >= now + EffectiveDelay(limits.maxCooldown, delay))
            && q.queued == p.queued && q.active == p.active && q.observed == p.observed
  {
  }

  lemma ObservedKeepsDeadline(limits: Limits, p: Pacer, headers: Headers, wall: real, now: real)
    requires limits.maxCooldown > 0.0 && p.requestInterval > 0.0
    ensures var q := Observed(limits, p, headers, wall, now);
            && q.nextAllowedAt >= p.nextAllowedAt
            && q.requestInterval > 0.0
            && q.queued == p.queued && q.active == p.active
  {
    if headers.Valid? && !IsStale(p.observed, headers.quota) {
      var p1 := p.(observed := Some(Remember(p.observed, headers.quota)));
      var usable := p1.observed.value.remaining - (limits.reserve + p.active);
      var toReset := p1.observed.value.resetAt - wall;
      if usable > 0 && toReset > 0.0 {
        PositiveQuotient(Min(Max(toReset, 0.0), limits.maxCooldown), usable as real);
      }
    }
  }

  lemma PositiveQuotient(a: real, b: real)
    requires a > 0.0 && b > 0.0
    ensures a / b > 0.0
  {
    if a / b <= 0.0 {
      assert a == (a / b) * b;
    }
  }

  // ----- The order of observations does not matter

  /** One response header pair together with the clock readings of its observation. */
  datatype Observation = Observation(headers: Headers, wall: real, now: real)

  function ObservedAll(limits: Limits, p: Pacer, observations: seq<Observation>): Pacer {
    if observations == [] then p
    else
      var last := observations[|observations| - 1];
      Observed(limits, ObservedAll(limits, p, observations[..|observations| - 1]), last.headers, last.wall, last.now)
  }

  function Quotas(observations: seq<Observation>): seq<Quota> {
    if observations == [] then []
    else
      var last := observations[|observations| - 1].headers;
      Quotas(observations[..|observations| - 1]) + (if last.Valid? then [last.quota] else [])
  }

  /** `q` has the largest reset of `qs` and the smallest remaining count seen with that reset. */
  ghost predicate IsLatestTightest(q: Quota, qs: seq<Quota>) {
    && q in qs
    && forall r :: r in qs ==>
         && r.resetAt <= q.resetAt
         && (r.resetAt == q.resetAt ==> q.remaining <= r.remaining)
  }

  /** What a family remembers after any run of observations is the latest, tightest pair. */
  lemma {:induction false} RemembersLatestTightest(limits: Limits, p: Pacer, observations: seq<Observation>)
    requires p.observed == None
    ensures var seen := ObservedAll(limits, p, observations).observed;
            var qs := Quotas(observations);
            if qs == [] then seen == None else seen.Some? && IsLatestTightest(seen.value, qs)
  {
    if observations != [] {
      RemembersLatestTightest(limits, p, observations[..|observations| - 1]);
    }
  }

  /** Any two orders of the same headers, at any clock readings, leave the same memory. */
  lemma ObservationOrderDoesNotMatter(
      limits: Limits, p: Pacer, left: seq<Observation>, right: seq<Observation>)
    requires p.observed == None
    requires multiset(Quotas(left)) == multiset(Quotas(right))
    ensures ObservedAll(limits, p, left).observed == ObservedAll(limits, p, right).observed
  {
    RemembersLatestTightest(limits, p, left);
    RemembersLatestTightest(limits, p, right);
    assert forall q :: q in Quotas(left) <==> q in multiset(Quotas(left));
    assert forall q :: q in Quotas(right) <==> q in multiset(Quotas(right));
    assert |Quotas(left)| == |multiset(Quotas(left))| == |multiset(Quotas(right))| == |Quotas(right)|;
  }

  /** A response that describes an older window than the remembered one changes no field. */
  lemma OlderWindowChangesNothing(
      limits: Limits, p: Pacer, before: seq<Observation>, q: Quota, newer: Quota, wall: real, now: real)
    requires p.observed == None
    requires newer in Quotas(before) && q.resetAt < newer.resetAt
    ensures var at := ObservedAll(limits, p, before);
            Observed(limits, at, Valid(q), wall, now) == at
  {
    RemembersLatestTightest(limits, p, before);
  }

  // ----- The objects of the program

  /** A semaphore that refuses to be released more often than it was taken. */
  class BoundedSemaphore {
    const bound: nat
    var free: nat

    constructor (bound: nat)
      ensures this.bound == bound && free == bound
    {
      this.bound := bound;
      free := bound;
    }

    method TryAcquire() returns (taken: bool)
      modifies this
      ensures taken == (old(free) > 0)
      ensures free == old(free) - (if taken then 1 else 0)
    {
      taken := free > 0;
      if taken {
        free := free - 1;
      }
    }

    /** False stands for the error the program raises on a surplus release. */
    method Release() returns (ok: bool)
      modifies this
      ensures ok == (old(free) < bound)
      ensures free == old(free) + (if ok then 1 else 0)
    {
      ok := free < bound;
      if ok {
        free := free + 1;
      }
    }
  }

  /** The org-wide backoff deadline (the permit gate is a BoundedSemaphore). */
  class OrgThrottle {
    const maxCooldown: real
    const gate: BoundedSemaphore
    var nextAllowedAt: real

    constructor (maxConcurrency: nat, maxCooldown: real)
      requires maxConcurrency >= 1 && maxCooldown > 0.0
      ensures this.maxCooldown == maxCooldown && nextAllowedAt == 0.0
      ensures fresh(gate) && gate.bound == gate.free == maxConcurrency
    {
      this.maxCooldown := maxCooldown;
      nextAllowedAt := 0.0;
      gate := new BoundedSemaphore(maxConcurrency);
    }

    method Allows(now: real) returns (allowed: bool)
      ensures allowed <==> now >= nextAllowedAt
    {
      allowed := now >= nextAllowedAt;
    }

    method Defer(now: real, delay: real) returns (effective: real)
      modifies this`nextAllowedAt
      ensures effective == EffectiveDelay(maxCooldown, delay)
      ensures nextAllowedAt == DeferredDeadline(maxCooldown, old(nextAllowedAt), now, delay)
      ensures nextAllowedAt >= old(nextAllowedAt)
    {
      if delay <= 0.0 {
        return 0.0;
      }
      effective := Min(delay, maxCooldown);
      var deadline := now + effective;
      if deadline > nextAllowedAt {
        nextAllowedAt := deadline;
      }
    }
  }

  /** One endpoint family; `Value` is the abstract state of its locked fields. */
  class EndpointThrottle {
    const limits: Limits
    const slots: BoundedSemaphore
    var nextAllowedAt: real
    var requestInterval: real
    var probeInterval: real
    var observedResetAt: Option<real>
    var observedRemaining: Option<int>
    var nextAllowedReason: WaitReason
    var queued: int
    var activeHttpRequests: int

    ghost predicate Valid()
      reads this
    {
      && limits.maxCooldown > 0.0
      && requestInterval > 0.0
      && (observedResetAt.Some? <==> observedRemaining.Some?)
    }

    ghost function Value(): Pacer
      reads this
      requires Valid()
    {
      Pacer(
        nextAllowedAt, requestInterval, probeInterval,
        if observedResetAt.Some? then Some(Quota(observedResetAt.value, observedRemaining.value)) else None,
        nextAllowedReason, queued, activeHttpRequests)
    }

    constructor (maxConcurrency: nat, limits: Limits)
      requires maxConcurrency >= 1 && limits.maxCooldown > 0.0
      ensures Valid() && this.limits == limits && Value() == FreshPacer
      ensures fresh(slots) && slots.bound == slots.free == maxConcurrency
    {
      this.limits := limits;
      nextAllowedAt := 0.0;
      requestInterval := DEFAULT_REQUEST_INTERVAL;
      probeInterval := 0.0;
      observedResetAt := None;
      observedRemaining := None;
      nextAllowedReason := ProactivePacing;
      queued := 0;
      activeHttpRequests := 0;
      slots := new BoundedSemaphore(maxConcurrency);
    }

    /** Book a start at the reading `now`, unless the org or the family deadline forbids it. */
    method TryBook(now: real, orgAllows: bool) returns (booked: bool)
      requires Valid()
      modifies this
      ensures Valid()
      ensures booked <==> orgAllows && now >= old(nextAllowedAt)
      ensures Value() == if booked then Booked(old(Value()), now) else old(Value())
      ensures nextAllowedAt >= old(nextAllowedAt)
    {
      if !orgAllows || now < nextAllowedAt {
        return false;
      }
      nextAllowedAt := now + Max(requestInterval, probeInterval);
      nextAllowedReason := ProactivePacing;
      return true;
    }

    method Defer(now: real, delay: real, minimumInterval: real) returns (effective: real)
      requires Valid()
      modifies this
      ensures Valid()
      ensures effective == EffectiveDelay(limits.maxCooldown, delay)
      ensures Value() == Deferred(limits, old(Value()), now, delay, minimumInterval)
      ensures nextAllowedAt >= old(nextAllowedAt)
    {
      if delay <= 0.0 {
        return 0.0;
      }
      effective := Min(delay, limits.maxCooldown);
      var deadline := now + effective;
      if deadline > nextAllowedAt {
        nextAllowedAt := deadline;
        nextAllowedReason := RetryBackoff;
      }
      probeInterval := Max(probeInterval, minimumInterval);
    }

    method EnterQueue() returns (depth: int)
      requires Valid()
      modifies this
      ensures Valid()
      ensures depth == old(queued) + 1
      ensures Value() == old(Value()).(queued := depth)
    {
      queued := queued + 1;
      depth := queued;
    }

    method LeaveQueue()
      requires Valid()
      modifies this
      ensures Valid()
      ensures Value() == old(Value()).(queued := old(queued) - 1)
    {
      queued := queued - 1;
    }

    method BeginHttpRequest() returns (active: int)
      requires Valid()
      modifies this
      ensures Valid()
      ensures active == old(activeHttpRequests) + 1
      ensures Value() == old(Value()).(active := active)
    {
      activeHttpRequests := activeHttpRequests + 1;
      active := activeHttpRequests;
    }

    method EndHttpRequest()
      requires Valid()
      modifies this
      ensures Valid()
      ensures Value() == old(Value()).(active := old(activeHttpRequests) - 1)
    {
      activeHttpRequests := activeHttpRequests - 1;
    }

    method ObserveResponse(headers: Headers, wall: real, now: real)
      requires Valid()
      modifies this
      ensures Valid()
      ensures Value() == Observed(limits, old(Value()), headers, wall, now)
      ensures nextAllowedAt >= old(nextAllowedAt)
    {
      ObservedKeepsDeadline(limits, Value(), headers, wall, now);
      if headers.Missing? {
        probeInterval := 0.0;
        return;
      }
      if headers.Invalid? {
        return;
      }
      var resetAt, remaining := headers.quota.resetAt, headers.quota.remaining;
      if observedResetAt.None? || resetAt > observedResetAt.value {
        observedResetAt, observedRemaining := Some(resetAt), Some(remaining);
      } else if resetAt == observedResetAt.value {
        if remaining < observedRemaining.value {
          observedRemaining := Some(remaining);
        }
      } else {
        return;
      }
      remaining := observedRemaining.value;
      var secondsToReset := observedResetAt.value - wall;
      var windowSeconds := Min(Max(secondsToReset, 0.0), limits.maxCooldown);
      var reserve := limits.reserve + activeHttpRequests;
      if remaining <= reserve {
        var cooldown := Min(secondsToReset + 1.0, limits.maxCooldown);
        if now + cooldown > nextAllowedAt {
          nextAllowedAt := now + cooldown;
          nextAllowedReason := ProactivePacing;
        }
        probeInterval := PROBE_INTERVAL;
        requestInterval := DEFAULT_REQUEST_INTERVAL;
        return;
      }
      if secondsToReset <= 0.0 {
        requestInterval := DEFAULT_REQUEST_INTERVAL;
      } else {
        requestInterval := windowSeconds / (remaining - reserve) as real;
      }
      probeInterval := 0.0;
      if now + requestInterval > nextAllowedAt {
        nextAllowedAt := now + requestInterval;
        nextAllowedReason := ProactivePacing;
      }
    }
  }
}
