/** The main results about the protocol, over every reachable state. */
module ProtocolTheorems {
  import opened Basics
  import opened Throttle
  import opened Retry
  import opened Protocol
  import opened ProtocolSafety

  // ----- Conservation

  /**
   In every interleaving, free and held slots add up to each family's cap and free
   and held permits to the org's; active requests are exactly the callers in an
   HTTP exchange, each of which holds a slot; permit holders hold slots too.
   */
  lemma Conservation(cfg: Config, t: State)
    requires ValidConfig(cfg) && Reachable(cfg, t)
    ensures |t.families| == |cfg.families|
    ensures forall f :: 0 <= f < |t.families| ==>
              var family := t.families[f];
              && 0 <= family.freeSlots
              && family.freeSlots + Count(t.callers, SlotHolder(f)) == cfg.families[f].slots
              && family.pacer.active == Count(t.callers, ActiveSender(f)) <= Count(t.callers, SlotHolder(f))
              && family.pacer.queued == Count(t.callers, QueueMember(f))
    ensures cfg.hasOrg ==>
              0 <= t.org.freePermits && t.org.freePermits + Count(t.callers, PermitHolder()) == cfg.orgPermits
    ensures forall i :: 0 <= i < |t.callers| && HoldsPermit(t.callers[i].pc) ==> HoldsSlot(t.callers[i].pc)
  {
    ReachableInv(cfg, t);
    forall f | 0 <= f < |t.families|
      ensures FamilyConserved(cfg, t, f) && Count(t.callers, ActiveSender(f)) <= Count(t.callers, SlotHolder(f))
    {
      CountMonotone(t.callers, ActiveSender(f), SlotHolder(f));
    }
  }

  /** Once no call is open, everything has been given back, whatever way the calls ended. */
  lemma QuietMeansAllReturned(cfg: Config, t: State)
    requires ValidConfig(cfg) && Reachable(cfg, t)
    requires forall i :: 0 <= i < |t.callers| ==> t.callers[i].pc.Idle?
    ensures |t.families| == |cfg.families|
    ensures forall f :: 0 <= f < |t.families| ==>
              && t.families[f].freeSlots == cfg.families[f].slots
              && t.families[f].pacer.active == 0 && t.families[f].pacer.queued == 0
    ensures cfg.hasOrg ==> t.org.freePermits == cfg.orgPermits
  {
    Conservation(cfg, t);
    forall f | 0 <= f < |t.families|
      ensures Count(t.callers, SlotHolder(f)) == 0 && Count(t.callers, QueueMember(f)) == 0
    {
      CountNone(t.callers, SlotHolder(f));
      CountNone(t.callers, QueueMember(f));
    }
    CountNone(t.callers, PermitHolder());
  }

  lemma {:induction false} CountAtLeastOne(cs: seq<Caller>, p: Caller -> bool, i: nat)
    requires i < |cs| && p(cs[i])
    ensures Count(cs, p) >= 1
  {
    if i < |cs| - 1 {
      CountAtLeastOne(cs[..|cs| - 1], p, i);
    }
  }

  /** Neither semaphore is ever released beyond its bound. */
  lemma NeverOverReleased(cfg: Config, t: State, i: nat)
    requires ValidConfig(cfg) && Reachable(cfg, t) && i < |t.callers|
    ensures |t.families| == |cfg.families|
    ensures t.callers[i].pc.ReturnSlot? ==>
              var f := t.callers[i].family; f < |t.families| && t.families[f].freeSlots < cfg.families[f].slots
    ensures cfg.hasOrg && (t.callers[i].pc.ReturnPermit? || t.callers[i].pc.Rebuffed?) ==>
              t.org.freePermits < cfg.orgPermits
  {
    ReachableInv(cfg, t);
    Conservation(cfg, t);
    assert CallerSound(cfg, t, i);
    if t.callers[i].pc.ReturnSlot? {
      CountAtLeastOne(t.callers, SlotHolder(t.callers[i].family), i);
    }
    if t.callers[i].pc.ReturnPermit? || t.callers[i].pc.Rebuffed? {
      CountAtLeastOne(t.callers, PermitHolder(), i);
    }
  }

  // ----- Start spacing

  /** Later bookings lie at least the sum of the intervals in force after earlier ones. */
  lemma {:induction false} BookingsApart(cfg: Config, family: Family, i: nat, j: nat, d: real)
    requires WellSpaced(cfg, family) && i <= j < |family.starts| && d > 0.0
    requires forall k :: i <= k < j ==> family.starts[k].gap >= d
    ensures family.starts[j].at - family.starts[i].at >= Times(j - i, d)
    decreases j
  {
    if i < j {
      BookingsApart(cfg, family, i, j - 1, d);
    }
  }

  /** The number of bookings of `starts` with a timestamp in the closed span from `a` to `b`. */
  function InSpan(starts: seq<Start>, a: real, b: real): nat {
    if starts == [] then 0
    else
      InSpan(starts[..|starts| - 1], a, b) + (if a <= starts[|starts| - 1].at <= b then 1 else 0)
  }

  ghost predicate Ascending(starts: seq<Start>) {
    forall i, j :: 0 <= i < j < |starts| ==> starts[i].at < starts[j].at
  }

  /** Among ascending timestamps, those in a span form a block of consecutive bookings. */
  lemma {:induction false} SpanIsABlock(starts: seq<Start>, a: real, b: real) returns (first: nat, last: nat)
    requires Ascending(starts) && InSpan(starts, a, b) >= 1
    ensures first <= last < |starts| && InSpan(starts, a, b) == last - first + 1
    ensures a <= starts[first].at && starts[last].at <= b
    ensures forall k :: last < k < |starts| ==> starts[k].at > b
  {
    var n := |starts| - 1;
    var init := starts[..n];
    if InSpan(init, a, b) == 0 {
      first, last := n, n;
    } else {
      first, last := SpanIsABlock(init, a, b);
      assert a <= starts[first].at < starts[n].at;
      assert init[n - 1].at < starts[n].at;
      if starts[n].at <= b {
        last := n;
      }
    }
  }

  lemma BookingsInSpan(cfg: Config, family: Family, a: real, length: real, d: real)
    requires WellSpaced(cfg, family) && length >= 0.0 && d > 0.0
    requires forall k :: 0 <= k < |family.starts| ==> family.starts[k].gap >= d
    ensures InSpan(family.starts, a, a + length) <= (length / d).Floor + 1
  {
    if InSpan(family.starts, a, a + length) >= 1 {
      BookingsAscend(cfg, family, d);
      var first, last := SpanIsABlock(family.starts, a, a + length);
      BlockFits(cfg, family, first, last, a, length, d);
    } else {
      FloorOfQuotient(0, length, d);
    }
  }

  lemma BlockFits(cfg: Config, family: Family, first: nat, last: nat, a: real, length: real, d: real)
    requires WellSpaced(cfg, family) && d > 0.0 && first <= last < |family.starts|
    requires forall k :: first <= k < last ==> family.starts[k].gap >= d
    requires a <= family.starts[first].at && family.starts[last].at <= a + length
    ensures last - first <= (length / d).Floor
  {
    BookingsApart(cfg, family, first, last, d);
    TimesIsProduct(last - first, d);
    FloorOfQuotient(last - first, length, d);
  }

  lemma BookingsAscend(cfg: Config, family: Family, d: real)
    requires WellSpaced(cfg, family) && d > 0.0
    requires forall k :: 0 <= k < |family.starts| ==> family.starts[k].gap >= d
    ensures Ascending(family.starts)
  {
    forall i, j | 0 <= i < j < |family.starts| ensures family.starts[i].at < family.starts[j].at {
      BookingsApart(cfg, family, i, j, d);
      TimesPositive(j - i, d);
    }
  }

  /**
   Start spacing over any run: no family books a start before the end of the
   interval in force at its previous booking, nor before the org deadline that the
   booking was checked against; so any span of length L holds at most floor(L/d) + 1
   bookings when every interval is at least d.
   */
  lemma StartSpacing(cfg: Config, t: State, f: nat, a: real, length: real, d: real)
    requires ValidConfig(cfg) && Reachable(cfg, t) && f < |t.families|
    requires length >= 0.0 && d > 0.0
    ensures forall k :: 0 <= k < |t.families[f].starts| - 1 ==>
              t.families[f].starts[k + 1].at >= t.families[f].starts[k].at + t.families[f].starts[k].gap
    ensures forall k :: 0 <= k < |t.families[f].starts| ==>
              && t.families[f].starts[k].gap > 0.0
              && (cfg.hasOrg ==> t.families[f].starts[k].at >= t.families[f].starts[k].orgDeadline)
    ensures (forall k :: 0 <= k < |t.families[f].starts| ==> t.families[f].starts[k].gap >= d) ==>
              InSpan(t.families[f].starts, a, a + length) <= (length / d).Floor + 1
  {
    ReachableInv(cfg, t);
    var starts := t.families[f].starts;
    assert WellSpaced(cfg, t.families[f]);
    if (forall k :: 0 <= k < |starts| ==> starts[k].gap >= d) {
      BookingsInSpan(cfg, t.families[f], a, length, d);
    }
  }

  lemma {:induction false} TimesPositive(n: nat, d: real)
    requires n >= 1 && d > 0.0
    ensures Times(n, d) > 0.0
  {
    if n > 1 {
      TimesPositive(n - 1, d);
    }
  }

  lemma FloorOfQuotient(n: nat, length: real, d: real)
    requires d > 0.0 && n as real * d <= length
    ensures n <= (length / d).Floor
  {
    var q := length / d;
    assert (n as real - q) * d == n as real * d - length;
    ProductSign(n as real - q, d);
  }

  lemma ProductSign(x: real, d: real)
    requires d > 0.0
    ensures x > 0.0 ==> x * d > 0.0
  {
  }

  /** Between any two states of a run no deadline moves back. */
  lemma {:induction false} DeadlinesNeverMoveBack(cfg: Config, s: State, es: seq<Event>, t: State, f: nat)
    requires ValidConfig(cfg) && Inv(cfg, s) && Run(cfg, s, es, t) && f < |s.families|
    ensures |t.families| == |s.families|
    ensures t.families[f].pacer.nextAllowedAt >= s.families[f].pacer.nextAllowedAt
    ensures t.org.deadline >= s.org.deadline && t.now >= s.now
    decreases |es|
  {
    if es != [] {
      var u := Apply(cfg, s, es[0]);
      StepKeepsInv(cfg, s, es[0]);
      DeadlinesNeverMoveBack(cfg, u, es[1..], t, f);
      if es[0].Act? {
        var g := FamilyOf(s.callers[es[0].who], es[0].input);
        assert WellSpaced(cfg, s.families[g]);
        StepKeepsDeadlines(cfg, cfg.families[g], s.now, View(s, es[0].who, es[0].input), es[0].input);
      }
    }
  }

  // ----- Retry bounds

  /**
   Every open call, in every interleaving: the transient failures it has seen, the
   pauses it has been granted for 429 answers, and hence, when the least pause is
   positive, the number of its attempts, are bounded.
   */
  lemma RetryBounds(cfg: Config, t: State, i: nat)
    requires ValidConfig(cfg) && Reachable(cfg, t) && i < |t.callers| && !t.callers[i].pc.Idle?
    ensures t.callers[i].family < |cfg.families|
    ensures var k := t.callers[i].call;
            var floor := FloorOf(cfg.client, cfg.families[t.callers[i].family]);
            var surplus := k.attempt - (cfg.client.maxAttempts + k.readTimeoutLimit + 1);
            && k.transientAttempt <= cfg.client.maxAttempts + k.readTimeoutLimit - 1
            && k.rateDelay < cfg.client.rateLimitMaxElapsed
            && k.attempt <= 1 + One(k.refreshed) + k.transientAttempt + k.rateRetries
            && k.rateRetries as real * floor <= k.rateDelay
            && (surplus > 0 && floor > 0.0 ==> surplus as real * floor < cfg.client.rateLimitMaxElapsed)
  {
    ReachableInv(cfg, t);
    assert CallerSound(cfg, t, i);
    var k := t.callers[i].call;
    var floor := FloorOf(cfg.client, cfg.families[t.callers[i].family]);
    TimesIsProduct(k.rateRetries, floor);
    var surplus := k.attempt - (cfg.client.maxAttempts + k.readTimeoutLimit + 1);
    assert surplus <= k.rateRetries;
    if surplus > 0 && floor > 0.0 {
      ProductBelow(surplus, k.rateRetries, floor, k.rateDelay);
    }
  }

  lemma ProductBelow(m: int, n: int, x: real, bound: real)
    requires m <= n && x > 0.0 && n as real * x <= bound
    ensures m as real * x <= bound
  {
    assert n as real * x - m as real * x == (n - m) as real * x;
  }

  /** The elapsed time a 429 is judged by covers every pause granted before it. */
  lemma ElapsedCoversPauses(cfg: Config, t: State, i: nat)
    requires ValidConfig(cfg) && Reachable(cfg, t) && i < |t.callers|
    ensures t.callers[i].pc.Deferring? ==> t.callers[i].call.totalDelay <= t.callers[i].pc.elapsed
  {
    ReachableInv(cfg, t);
    assert CallerSound(cfg, t, i);
  }
}
