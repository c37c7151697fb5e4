/**
 What an observation and a pause mean for the starts that follow them: when the
 next one is admitted, and how fast the others follow.
 */
module Pacing {
  import opened Basics
  import opened Throttle

  /** The family after `n` bookings, each made the moment its deadline arrives. */
  function Eager(p: Pacer, n: nat): Pacer {
    if n == 0 then p else Booked(Eager(p, n - 1), Eager(p, n - 1).nextAllowedAt)
  }

  /** When booking number `k` is made, counting from zero. */
  function StartTime(p: Pacer, k: nat): real {
    Eager(p, k).nextAllowedAt
  }

  /** The starts follow each other at equal distances. */
  lemma {:induction false} StartsAreEven(p: Pacer, k: nat)
    ensures StartTime(p, k) == p.nextAllowedAt + k as real * Spacing(p)
    ensures Eager(p, k).requestInterval == p.requestInterval && Eager(p, k).probeInterval == p.probeInterval
  {
    if k > 0 {
      StartsAreEven(p, k - 1);
      assert k as real * Spacing(p) == (k - 1) as real * Spacing(p) + Spacing(p);
    }
  }

  /** Neither deadline nor observation can hold a start back beyond this. */
  ghost predicate Observable(limits: Limits, p: Pacer, q: Quota) {
    limits.maxCooldown > 0.0 && p.requestInterval > 0.0 && !IsStale(p.observed, q)
  }

  /** The family after the observation of a window with `usable` requests and `horizon` seconds left. */
  ghost predicate Opened(p: Pacer, now: real, o: Pacer, usable: int, horizon: real) {
    && usable > 0 && horizon > 0.0
    && Spacing(o) * usable as real == horizon
    && o.nextAllowedAt == Max(p.nextAllowedAt, now + Spacing(o))
  }

  lemma UsableWindowOpens(
      limits: Limits, p: Pacer, q: Quota, wall: real, now: real, usable: int, horizon: real)
    requires Observable(limits, p, q)
    requires usable == Remember(p.observed, q).remaining - limits.reserve - p.active > 0
    requires horizon == Min(Remember(p.observed, q).resetAt - wall, limits.maxCooldown) > 0.0
    ensures Opened(p, now, Observed(limits, p, Valid(q), wall, now), usable, horizon)
  {
    var o := Observed(limits, p, Valid(q), wall, now);
    assert o.requestInterval == horizon / usable as real;
    PositiveQuotient(horizon, usable as real);
    assert Spacing(o) == o.requestInterval;
  }

  lemma OpenedIsUsed(p: Pacer, now: real, o: Pacer, usable: int, horizon: real)
    requires Opened(p, now, o, usable, horizon)
    ensures now + horizon <= StartTime(o, usable - 1) <= Max(p.nextAllowedAt, now) + horizon
  {
    StartsAreEven(o, usable - 1);
    LastOfMany(o.nextAllowedAt, Spacing(o), usable, horizon);
    SameSign(Spacing(o), usable as real);
  }

  lemma OpenedIsEven(p: Pacer, now: real, o: Pacer, usable: int, horizon: real, k: nat)
    requires Opened(p, now, o, usable, horizon)
    ensures (StartTime(o, k + 1) - StartTime(o, k)) * usable as real == horizon
  {
    StartsAreEven(o, k);
    StartsAreEven(o, k + 1);
    EvenStep(o.nextAllowedAt, Spacing(o), k);
  }

  lemma OpenedAdmits(p: Pacer, now: real, o: Pacer, usable: int, horizon: real, at: real)
    requires Opened(p, now, o, usable, horizon)
    ensures at >= o.nextAllowedAt <==> at >= p.nextAllowedAt && (at - now) * usable as real >= horizon
  {
    var lead := at - now - Spacing(o);
    SameSign(lead, usable as real);
    assert lead * usable as real == (at - now) * usable as real - Spacing(o) * usable as real;
  }

  /**
   The starts that follow use the window: `usable` of them are made evenly over the
   horizon, whatever slowed the family down before. The last is made no later than the
   horizon after the family was free, and no earlier than the horizon after now; start
   `k` is followed by the next after the horizon's share; and the first is admitted at
   `at` exactly if neither the old deadline nor that share forbids it.
   */
  ghost predicate WindowUsed(p: Pacer, now: real, o: Pacer, usable: int, horizon: real, k: nat, at: real)
    requires usable > 0
  {
    && now + horizon <= StartTime(o, usable - 1) <= Max(p.nextAllowedAt, now) + horizon
    && (StartTime(o, k + 1) - StartTime(o, k)) * usable as real == horizon
    && (at >= o.nextAllowedAt <==> at >= p.nextAllowedAt && (at - now) * usable as real >= horizon)
  }

  lemma OpenedIsWindowUsed(p: Pacer, now: real, o: Pacer, usable: int, horizon: real, k: nat, at: real)
    requires Opened(p, now, o, usable, horizon)
    ensures WindowUsed(p, now, o, usable, horizon, k, at)
  {
    OpenedIsUsed(p, now, o, usable, horizon);
    OpenedIsEven(p, now, o, usable, horizon, k);
    OpenedAdmits(p, now, o, usable, horizon, at);
  }

  /**
   Throughput: with `usable` requests left above the reserve and those in flight, and
   `horizon` seconds to the reset, or to the cooldown cap if that is nearer, the starts
   that follow use the window.
   */
  lemma UsableWindowIsUsed(
      limits: Limits, p: Pacer, q: Quota, wall: real, now: real, usable: int, horizon: real, k: nat, at: real)
    requires Observable(limits, p, q)
    requires usable == Remember(p.observed, q).remaining - limits.reserve - p.active > 0
    requires horizon == Min(Remember(p.observed, q).resetAt - wall, limits.maxCooldown) > 0.0
    ensures WindowUsed(p, now, Observed(limits, p, Valid(q), wall, now), usable, horizon, k, at)
  {
    UsableWindowOpens(limits, p, q, wall, now, usable, horizon);
    OpenedIsWindowUsed(p, now, Observed(limits, p, Valid(q), wall, now), usable, horizon, k, at);
  }

  lemma LastOfMany(first: real, interval: real, n: int, horizon: real)
    requires n >= 1 && interval * n as real == horizon
    ensures first + (n - 1) as real * interval == first - interval + horizon
  {
  }

  lemma EvenStep(first: real, interval: real, k: nat)
    ensures first + (k + 1) as real * interval == first + k as real * interval + interval
  {
  }

  lemma SameSign(x: real, n: real)
    requires n > 0.0
    ensures x * n >= 0.0 <==> x >= 0.0
  {
    if x < 0.0 {
      assert x * n < 0.0;
    }
  }

  /** A window at its reserve: the next start waits until a second after the reset, and then the default pace holds. */
  lemma ExhaustedWindowWaits(limits: Limits, p: Pacer, q: Quota, wall: real, now: real, k: nat, at: real)
    requires Observable(limits, p, q)
    ensures var o := Observed(limits, p, Valid(q), wall, now);
            o.observed.Some? &&
            (o.observed.value.remaining <= limits.reserve + p.active ==>
               && (at >= o.nextAllowedAt <==>
                     at >= p.nextAllowedAt && at >= now + Min(o.observed.value.resetAt + 1.0 - wall, limits.maxCooldown))
               && StartTime(o, k + 1) - StartTime(o, k) == 60.0 / 50.0)
  {
    var o := Observed(limits, p, Valid(q), wall, now);
    StartsAreEven(o, k);
    StartsAreEven(o, k + 1);
    EvenStep(o.nextAllowedAt, Spacing(o), k);
  }

  /** A window that has already reset: nothing is known of the new one, and the default pace holds from now on. */
  lemma ExpiredWindowIsPacedByDefault(limits: Limits, p: Pacer, q: Quota, wall: real, now: real, k: nat, at: real)
    requires Observable(limits, p, q)
    ensures var o := Observed(limits, p, Valid(q), wall, now);
            o.observed.Some? &&
            (o.observed.value.remaining > limits.reserve + p.active && o.observed.value.resetAt <= wall ==>
               && (at >= o.nextAllowedAt <==> at >= p.nextAllowedAt && at >= now + 60.0 / 50.0)
               && StartTime(o, k + 1) - StartTime(o, k) == 60.0 / 50.0)
  {
    var o := Observed(limits, p, Valid(q), wall, now);
    StartsAreEven(o, k);
    StartsAreEven(o, k + 1);
    EvenStep(o.nextAllowedAt, Spacing(o), k);
  }

  /** A response without the headers only ends the probing; one with unreadable headers changes nothing. */
  lemma NoQuotaOnlyEndsProbing(limits: Limits, p: Pacer, wall: real, now: real, k: nat)
    requires p.requestInterval > 0.0
    ensures Observed(limits, p, Invalid, wall, now) == p
    ensures var o := Observed(limits, p, Missing, wall, now);
            && o.nextAllowedAt == p.nextAllowedAt && o.observed == p.observed
            && StartTime(o, k + 1) - StartTime(o, k) == p.requestInterval
  {
    var o := Observed(limits, p, Missing, wall, now);
    StartsAreEven(o, k);
    StartsAreEven(o, k + 1);
    EvenStep(o.nextAllowedAt, Spacing(o), k);
  }

  /** A pause of `delay` holds the next start for exactly that long, up to the cap, and the probe floor holds the others apart. */
  lemma PauseHoldsStarts(limits: Limits, p: Pacer, now: real, delay: real, minimumInterval: real, at: real, k: nat)
    requires limits.maxCooldown > 0.0
    ensures var d := Deferred(limits, p, now, delay, minimumInterval);
            if delay <= 0.0 then d == p
            else
              && (at >= d.nextAllowedAt <==> at >= p.nextAllowedAt && (at - now >= delay || at - now >= limits.maxCooldown))
              && StartTime(d, k + 1) - StartTime(d, k) == Max(Max(p.requestInterval, p.probeInterval), minimumInterval)
  {
    var d := Deferred(limits, p, now, delay, minimumInterval);
    StartsAreEven(d, k);
    StartsAreEven(d, k + 1);
    EvenStep(d.nextAllowedAt, Spacing(d), k);
  }

  /** A wait is put down to what moved the deadline last: a pause to backoff, a booking or an observation to pacing. */
  lemma ReasonFollowsDeadline(limits: Limits, p: Pacer, headers: Headers, wall: real, now: real, delay: real, minimum: real)
    ensures var d := Deferred(limits, p, now, delay, minimum);
            d.reason == if d.nextAllowedAt > p.nextAllowedAt then RetryBackoff else p.reason
    ensures var o := Observed(limits, p, headers, wall, now);
            o.reason == if o.nextAllowedAt > p.nextAllowedAt then ProactivePacing else p.reason
    ensures Booked(p, now).reason == ProactivePacing
  {
  }
}
