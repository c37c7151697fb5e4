/**
 The closed loop of one endpoint family and a fixed-window server. Booking,
 counting a request as begun, its arrival at the server, its end and its
 observation are separate steps, as in the program; `worstGap` records how many
 requests were between two of these steps when a response was observed.
 */
module QuotaLoop {
  import opened Basics
  import opened Throttle

  /** `slots` is how many requests of the family may be between booking and the release after their observation. */
  datatype Settings = Settings(limits: Limits, window: real, quota: nat, slots: nat)

  /** The header's reset lies at least one second inside the cooldown cap. */
  ghost predicate ValidSettings(settings: Settings) {
    && settings.window >= 1.0 && settings.quota >= 1 && settings.slots >= 1
    && settings.limits.maxCooldown >= settings.window + 1.0
  }

  // ----- The server

  datatype Limiter = Limiter(resetAt: real, remaining: int, admitted: nat, limited: nat)

  const ExpiredLimiter := Limiter(0.0, 0, 0, 0)

  function AfterArrival(settings: Settings, l: Limiter, now: real): (Limiter, bool) {
    var open := if now >= l.resetAt then l.(resetAt := now + settings.window, remaining := settings.quota) else l;
    if open.remaining > 0 then (open.(remaining := open.remaining - 1, admitted := open.admitted + 1), true)
    else (open.(limited := open.limited + 1), false)
  }

  class FixedWindowLimiter {
    const settings: Settings
    var resetAt: real
    var remaining: int
    var admittedCount: nat
    var rateLimitedCount: nat

    ghost function Value(): Limiter
      reads this
    {
      Limiter(resetAt, remaining, admittedCount, rateLimitedCount)
    }

    constructor (settings: Settings)
      ensures this.settings == settings && Value() == ExpiredLimiter
    {
      this.settings := settings;
      resetAt, remaining, admittedCount, rateLimitedCount := 0.0, 0, 0, 0;
    }

    method Admit(now: real) returns (fits: bool)
      modifies this
      ensures (Value(), fits) == AfterArrival(settings, old(Value()), now)
    {
      if now >= resetAt {
        resetAt := now + settings.window;
        remaining := settings.quota;
      }
      if remaining > 0 {
        remaining := remaining - 1;
        admittedCount := admittedCount + 1;
        return true;
      }
      rateLimitedCount := rateLimitedCount + 1;
      return false;
    }
  }

  /** The limiter and the number of admitted requests after arrivals at the given times. */
  function AfterArrivals(settings: Settings, l: Limiter, times: seq<real>): Limiter {
    if times == [] then l
    else AfterArrival(settings, AfterArrivals(settings, l, times[..|times| - 1]), times[|times| - 1]).0
  }

  /** Of the requests that arrive within one window, the first `quota` are admitted and the others refused. */
  lemma {:induction false} WindowAdmitsQuota(settings: Settings, l: Limiter, times: seq<real>)
    requires times != [] && times[0] >= l.resetAt && settings.quota >= 1
    requires forall i :: 0 <= i < |times| ==> times[0] <= times[i] < times[0] + settings.window
    ensures var m, n := AfterArrivals(settings, l, times), |times|;
            && m.resetAt == times[0] + settings.window
            && m.admitted - l.admitted == (if n <= settings.quota then n else settings.quota)
            && m.remaining == settings.quota - (m.admitted - l.admitted)
            && (m.admitted - l.admitted) + (m.limited - l.limited) == n
  {
    var init := times[..|times| - 1];
    if init == [] {
      assert AfterArrivals(settings, l, init) == l;
    } else {
      WindowAdmitsQuota(settings, l, init);
    }
  }

  // ----- The loop

  /** A counted request is answered 200 with the header's whole second; a refused one carries no quota. */
  datatype Reply = Counted(resetAt: int, remaining: int) | Refused

  datatype Phase = Booked | Begun | Arrived(reply: Reply) | Ended(reply: Reply)

  datatype World = World(
    now: real,
    pacer: Pacer,
    server: Limiter,
    requests: map<nat, Phase>,
    worstGap: nat,
    paced: bool)

  datatype Event =
    | Wait(to: real)
    | Book(id: nat, at: real)
    | BeginHttp(id: nat)
    | Arrive(id: nat, refused: bool)
    | End(id: nat)
    | Observe(id: nat, wall: real, at: real)
    | Fail(id: nat, delay: real, minimumInterval: real)

  const Start := World(0.0, FreshPacer, ExpiredLimiter, map[], 0, false)

  /** The second that the server's headers name as the reset of its current window. */
  function HeaderReset(w: World): int {
    w.server.resetAt.Floor
  }

  /** The family has observed a response of the server's current window. */
  predicate SeenWindow(w: World) {
    w.pacer.observed.Some? && w.pacer.observed.value.resetAt == HeaderReset(w) as real
  }

  function Unarrived(requests: map<nat, Phase>): set<nat> {
    set id | id in requests && (requests[id].Booked? || requests[id].Begun?)
  }

  function Active(requests: map<nat, Phase>): set<nat> {
    set id | id in requests && (requests[id].Begun? || requests[id].Arrived?)
  }

  predicate IsCounted(p: Phase) {
    (p.Arrived? || p.Ended?) && p.reply.Counted?
  }

  function CountedIn(requests: map<nat, Phase>): set<nat> {
    set id | id in requests && IsCounted(requests[id])
  }

  /** Requests that the in-flight counter misses: booked but not begun, or ended but not observed. */
  function Gap(requests: map<nat, Phase>): set<nat> {
    set id | id in requests && (requests[id].Booked? || (requests[id].Ended? && requests[id].reply.Counted?))
  }

  predicate Legal(settings: Settings, w: World, e: Event) {
    match e
    case Wait(to) => to >= w.now
    case Book(id, at) =>
      id !in w.requests && |w.requests| < settings.slots && 0.0 <= at <= w.now && at >= w.pacer.nextAllowedAt
    case BeginHttp(id) => id in w.requests && w.requests[id].Booked?
    case Arrive(id, _) => id in w.requests && w.requests[id].Begun?
    case End(id) => id in w.requests && w.requests[id].Arrived?
    case Observe(id, wall, at) =>
      id in w.requests && w.requests[id].Ended? && w.requests[id].reply.Counted? && w.now <= wall <= at
    case Fail(id, _, _) => id in w.requests && w.requests[id].Ended? && w.requests[id].reply.Refused?
  }

  function Apply(settings: Settings, w: World, e: Event): World
    requires Legal(settings, w, e)
  {
    match e
    case Wait(to) => w.(now := to)
    case Book(id, at) =>
      w.(pacer := Throttle.Booked(w.pacer, at),
         requests := w.requests[id := Booked],
         paced := SeenWindow(w) && at <= HeaderReset(w) as real)
    case BeginHttp(id) =>
      w.(pacer := w.pacer.(active := w.pacer.active + 1), requests := w.requests[id := Begun])
    case Arrive(id, refused) =>
      if refused then w.(requests := w.requests[id := Arrived(Refused)])
      else
        var (server, admitted) := AfterArrival(settings, w.server, w.now);
        var reply := if admitted then Counted(server.resetAt.Floor, server.remaining) else Refused;
        w.(server := server,
           requests := w.requests[id := Arrived(reply)],
           paced := w.paced && w.now < w.server.resetAt)
    case End(id) =>
      w.(pacer := w.pacer.(active := w.pacer.active - 1), requests := w.requests[id := Ended(w.requests[id].reply)])
    case Observe(id, wall, at) =>
      var reply := w.requests[id].reply;
      var rest := w.requests - {id};
      w.(now := at,
         pacer := Observed(settings.limits, w.pacer, Valid(Quota(reply.resetAt as real, reply.remaining)), wall, at),
         requests := rest,
         worstGap := MaxInt(w.worstGap, |Gap(rest)|))
    case Fail(id, delay, minimumInterval) =>
      w.(pacer := Deferred(settings.limits, w.pacer, w.now, delay, minimumInterval), requests := w.requests - {id})
  }

  ghost predicate Run(settings: Settings, w: World, es: seq<Event>, u: World)
    decreases |es|
  {
    if es == [] then w == u
    else Legal(settings, w, es[0]) && Run(settings, Apply(settings, w, es[0]), es[1..], u)
  }

  ghost predicate Reachable(settings: Settings, u: World) {
    exists es :: Run(settings, Start, es, u)
  }

  // ----- The invariant

  /** The server's remaining count for requests that have not arrived yet, above the reserve and its slack. */
  function Surplus(settings: Settings, w: World): int {
    w.server.remaining - |Unarrived(w.requests)| - settings.limits.reserve + w.worstGap
  }

  /** Least remaining count observed in the current window; the whole quota before any observation. */
  function LeastSeen(settings: Settings, w: World): int {
    if SeenWindow(w) then w.pacer.observed.value.remaining else settings.quota
  }

  /** One of `ids` is an answered request that carries the remaining count `v` of the window `h`. */
  ghost predicate Carried(requests: map<nat, Phase>, ids: set<nat>, h: int, v: int) {
    exists id :: id in ids && id in requests && IsCounted(requests[id]) && requests[id].reply == Counted(h, v)
  }

  ghost predicate Outstanding(w: World, v: int) {
    Carried(w.requests, w.requests.Keys, HeaderReset(w), v)
  }

  ghost predicate Basic(settings: Settings, w: World) {
    && w.now >= 0.0
    && w.pacer.requestInterval > 0.0
    && w.pacer.active == |Active(w.requests)|
    && 0.0 <= w.server.resetAt <= w.now + settings.window
    && 0 <= w.server.remaining <= settings.quota
    && (w.pacer.observed.Some? ==>
          w.server.resetAt > 0.0 && w.pacer.observed.value.resetAt <= HeaderReset(w) as real)
    && forall id :: id in w.requests && IsCounted(w.requests[id]) ==>
         && w.server.resetAt > 0.0
         && w.requests[id].reply.resetAt <= HeaderReset(w)
         && w.requests[id].reply.remaining <= settings.quota
  }

  /** Every count the server has handed out below the least one seen belongs to a request still outstanding. */
  ghost predicate Accounted(settings: Settings, w: World) {
    w.server.resetAt > 0.0 ==>
      forall v {:trigger Outstanding(w, v)} :: w.server.remaining <= v < LeastSeen(settings, w) ==> Outstanding(w, v)
  }

  /** At the current spacing, the starts still possible before the reset fit in the surplus. */
  ghost predicate Affordable(settings: Settings, w: World) {
    SeenWindow(w) ==>
      || w.pacer.nextAllowedAt > HeaderReset(w) as real
      || w.pacer.nextAllowedAt + Surplus(settings, w) as real * w.pacer.requestInterval > HeaderReset(w) as real
  }

  ghost predicate ReserveKept(settings: Settings, w: World) {
    w.paced ==> SeenWindow(w) && Surplus(settings, w) >= 0
  }

  ghost predicate Inv(settings: Settings, w: World) {
    Basic(settings, w) && Accounted(settings, w) && Affordable(settings, w) && ReserveKept(settings, w)
  }

  // ----- Counting requests

  /** Handed-out counts between `lo` and `hi` belong to that many different requests. */
  lemma {:induction false} DistinctCounts(requests: map<nat, Phase>, ids: set<nat>, h: int, lo: int, hi: int)
    requires forall v :: lo <= v < hi ==> Carried(requests, ids, h, v)
    ensures hi - lo <= |ids|
    decreases hi - lo
  {
    if lo < hi {
      assert Carried(requests, ids, h, hi - 1);
      var id :| id in ids && id in requests && IsCounted(requests[id]) && requests[id].reply == Counted(h, hi - 1);
      forall v | lo <= v < hi - 1 ensures Carried(requests, ids - {id}, h, v) {
        assert Carried(requests, ids, h, v);
        var x :| x in ids && x in requests && IsCounted(requests[x]) && requests[x].reply == Counted(h, v);
        assert x in ids - {id};
      }
      DistinctCounts(requests, ids - {id}, h, lo, hi - 1);
    }
  }

  lemma SubsetSize(a: set<nat>, b: set<nat>)
    requires a <= b
    ensures |a| <= |b|
  {
    assert b == a + (b - a);
  }

  lemma PhaseSizes(requests: map<nat, Phase>)
    ensures |Unarrived(requests)| + |CountedIn(requests)| <= |Active(requests)| + |Gap(requests)|
  {
    assert Unarrived(requests) !! CountedIn(requests);
    assert Active(requests) !! Gap(requests);
    SubsetSize(Unarrived(requests) + CountedIn(requests), Active(requests) + Gap(requests));
  }

  lemma ActiveAfter(requests: map<nat, Phase>, id: nat, p: Phase)
    ensures Active(requests[id := p])
         == if p.Begun? || p.Arrived? then Active(requests) + {id} else Active(requests) - {id}
    ensures Unarrived(requests[id := p])
         == if p.Booked? || p.Begun? then Unarrived(requests) + {id} else Unarrived(requests) - {id}
  {
  }

  lemma ActiveWithout(requests: map<nat, Phase>, id: nat)
    requires id in requests && requests[id].Ended?
    ensures Active(requests - {id}) == Active(requests) && Unarrived(requests - {id}) == Unarrived(requests)
  {
  }

  // ----- Each step keeps the invariant

  lemma BookKeepsSizes(settings: Settings, w: World, e: Event)
    requires Legal(settings, w, e) && e.Book? && w.pacer.active == |Active(w.requests)|
    ensures var u := Apply(settings, w, e);
            u.pacer.active == |Active(u.requests)| && |Unarrived(u.requests)| == |Unarrived(w.requests)| + 1
  {
    ActiveAfter(w.requests, e.id, Booked);
    assert e.id !in Active(w.requests) && e.id !in Unarrived(w.requests);
    assert Active(w.requests) - {e.id} == Active(w.requests);
  }

  lemma BookKeepsAccounts(settings: Settings, w: World, e: Event)
    requires ValidSettings(settings) && Inv(settings, w) && Legal(settings, w, e) && e.Book?
    ensures Basic(settings, Apply(settings, w, e)) && Accounted(settings, Apply(settings, w, e))
    ensures Surplus(settings, Apply(settings, w, e)) == Surplus(settings, w) - 1
  {
    var u := Apply(settings, w, e);
    BookKeepsSizes(settings, w, e);
    SameCounts(w, u);
    assert LeastSeen(settings, u) == LeastSeen(settings, w);
  }

  lemma BookKeepsInv(settings: Settings, w: World, e: Event)
    requires ValidSettings(settings) && Inv(settings, w) && Legal(settings, w, e) && e.Book?
    ensures Inv(settings, Apply(settings, w, e))
  {
    BookKeepsAccounts(settings, w, e);
    BookIsPaid(settings, w, Apply(settings, w, e), e);
  }

  lemma BookIsPaid(settings: Settings, w: World, u: World, e: Event)
    requires Legal(settings, w, e) && e.Book? && u == Apply(settings, w, e)
    requires w.pacer.requestInterval > 0.0 && Affordable(settings, w)
    requires Surplus(settings, u) == Surplus(settings, w) - 1
    ensures Affordable(settings, u) && ReserveKept(settings, u)
  {
    assert u.pacer.requestInterval == w.pacer.requestInterval && u.pacer.nextAllowedAt == e.at + Spacing(w.pacer);
    assert HeaderReset(u) == HeaderReset(w) && u.pacer.observed == w.pacer.observed;
    if SeenWindow(w) {
      OneStartPaid(w.pacer.nextAllowedAt, w.pacer.requestInterval, Surplus(settings, w), HeaderReset(w) as real,
                   e.at, Spacing(w.pacer));
    }
  }

  /** One more start at the current spacing costs one unit of surplus, and there was one to spend. */
  lemma OneStartPaid(deadline: real, interval: real, surplus: int, reset: real, at: real, spacing: real)
    requires interval > 0.0 && at >= deadline && spacing >= interval
    requires deadline > reset || deadline + surplus as real * interval > reset
    ensures at + spacing > reset || at + spacing + (surplus - 1) as real * interval > reset
    ensures at <= reset ==> surplus - 1 >= 0
  {
    assert (surplus - 1) as real * interval == surplus as real * interval - interval;
    if surplus <= 0 {
      assert surplus as real * interval <= 0.0;
    }
  }

  lemma BeginKeepsSizes(settings: Settings, w: World, e: Event)
    requires Legal(settings, w, e) && e.BeginHttp? && w.pacer.active == |Active(w.requests)|
    ensures var u := Apply(settings, w, e);
            u.pacer.active == |Active(u.requests)| && Unarrived(u.requests) == Unarrived(w.requests)
  {
    ActiveAfter(w.requests, e.id, Begun);
  }

  lemma BeginKeepsInv(settings: Settings, w: World, e: Event)
    requires ValidSettings(settings) && Inv(settings, w) && Legal(settings, w, e) && e.BeginHttp?
    ensures Inv(settings, Apply(settings, w, e))
  {
    var u := Apply(settings, w, e);
    BeginKeepsSizes(settings, w, e);
    SameCounts(w, u);
    assert LeastSeen(settings, u) == LeastSeen(settings, w);
    assert Surplus(settings, u) == Surplus(settings, w);
  }

  lemma EndKeepsInv(settings: Settings, w: World, e: Event)
    requires ValidSettings(settings) && Inv(settings, w) && Legal(settings, w, e) && e.End?
    ensures Inv(settings, Apply(settings, w, e))
  {
    var u := Apply(settings, w, e);
    EndKeepsSizes(settings, w, e);
    SameCounts(w, u);
    assert LeastSeen(settings, u) == LeastSeen(settings, w);
    assert Surplus(settings, u) == Surplus(settings, w);
  }

  lemma EndKeepsSizes(settings: Settings, w: World, e: Event)
    requires Legal(settings, w, e) && e.End? && w.pacer.active == |Active(w.requests)|
    ensures var u := Apply(settings, w, e);
            u.pacer.active == |Active(u.requests)| && Unarrived(u.requests) == Unarrived(w.requests)
  {
    ActiveAfter(w.requests, e.id, Ended(w.requests[e.id].reply));
  }

  /** Requests that keep their counts keep every outstanding count accounted for. */
  lemma SameCounts(w: World, u: World)
    requires w.server == u.server
    requires forall id :: id in w.requests && IsCounted(w.requests[id]) ==>
               id in u.requests && IsCounted(u.requests[id]) && u.requests[id].reply == w.requests[id].reply
    ensures forall v :: Outstanding(w, v) ==> Outstanding(u, v)
  {
    forall v | Outstanding(w, v) ensures Outstanding(u, v) {
      var id :| id in w.requests && IsCounted(w.requests[id]) && w.requests[id].reply == Counted(HeaderReset(w), v);
      assert id in u.requests.Keys;
    }
  }

  lemma MoreSurplus(deadline: real, interval: real, less: int, more: int, reset: real)
    requires interval > 0.0 && less <= more
    requires deadline > reset || deadline + less as real * interval > reset
    ensures deadline > reset || deadline + more as real * interval > reset
  {
    assert more as real * interval - less as real * interval == (more - less) as real * interval;
  }

  lemma RefusalKeepsInv(settings: Settings, w: World, id: nat, u: World)
    requires ValidSettings(settings) && Inv(settings, w) && id in w.requests && w.requests[id].Begun?
    requires u == w.(requests := w.requests[id := Arrived(Refused)], server := u.server)
    requires u.server == w.server.(limited := u.server.limited)
    ensures Inv(settings, u)
  {
    ActiveAfter(w.requests, id, Arrived(Refused));
    assert Active(u.requests) == Active(w.requests);
    forall v | Outstanding(w, v) ensures Outstanding(u, v) {
      var x :| x in w.requests && IsCounted(w.requests[x]) && w.requests[x].reply == Counted(HeaderReset(w), v);
      assert x in u.requests.Keys;
    }
    assert |Unarrived(u.requests)| == |Unarrived(w.requests)| - 1;
    if SeenWindow(w) {
      MoreSurplus(w.pacer.nextAllowedAt, w.pacer.requestInterval, Surplus(settings, w), Surplus(settings, u), HeaderReset(w) as real);
    }
  }

  lemma ArriveKeepsInv(settings: Settings, w: World, e: Event)
    requires ValidSettings(settings) && Inv(settings, w) && Legal(settings, w, e) && e.Arrive?
    ensures Inv(settings, Apply(settings, w, e))
  {
    var u := Apply(settings, w, e);
    var (server, admitted) := AfterArrival(settings, w.server, w.now);
    if e.refused {
      RefusalKeepsInv(settings, w, e.id, u);
    } else if !admitted {
      assert w.now < w.server.resetAt;
      RefusalKeepsInv(settings, w, e.id, u);
    } else if w.now >= w.server.resetAt {
      FirstArrivalKeepsInv(settings, w, e);
    } else {
      CountedArrivalKeepsInv(settings, w, e);
    }
  }

  lemma FirstArrivalKeepsInv(settings: Settings, w: World, e: Event)
    requires ValidSettings(settings) && Inv(settings, w) && Legal(settings, w, e) && e.Arrive? && !e.refused
    requires w.now >= w.server.resetAt
    ensures Inv(settings, Apply(settings, w, e))
  {
    var u := Apply(settings, w, e);
    ActiveAfter(w.requests, e.id, u.requests[e.id]);
    assert Active(u.requests) == Active(w.requests);
    assert HeaderReset(u) >= HeaderReset(w) + 1;
    assert !SeenWindow(u);
    assert u.requests[e.id].reply == Counted(HeaderReset(u), settings.quota - 1);
    assert Outstanding(u, settings.quota - 1);
  }

  lemma CountedArrivalKeepsInv(settings: Settings, w: World, e: Event)
    requires ValidSettings(settings) && Inv(settings, w) && Legal(settings, w, e) && e.Arrive? && !e.refused
    requires w.now < w.server.resetAt && w.server.remaining > 0
    ensures Inv(settings, Apply(settings, w, e))
  {
    var u := Apply(settings, w, e);
    ActiveAfter(w.requests, e.id, u.requests[e.id]);
    assert Active(u.requests) == Active(w.requests);
    assert |Unarrived(u.requests)| == |Unarrived(w.requests)| - 1;
    assert Surplus(settings, u) == Surplus(settings, w);
    assert HeaderReset(u) == HeaderReset(w);
    forall v | u.server.remaining <= v < LeastSeen(settings, u) ensures Outstanding(u, v) {
      if v == u.server.remaining {
        assert u.requests[e.id].reply == Counted(HeaderReset(u), v);
      } else {
        assert Outstanding(w, v);
        var x :| x in w.requests && IsCounted(w.requests[x]) && w.requests[x].reply == Counted(HeaderReset(w), v);
        assert x in u.requests.Keys && x != e.id;
      }
    }
  }

  lemma FailKeepsSizes(settings: Settings, w: World, e: Event)
    requires Legal(settings, w, e) && e.Fail? && settings.limits.maxCooldown > 0.0
    ensures var u := Apply(settings, w, e);
            && Active(u.requests) == Active(w.requests) && Unarrived(u.requests) == Unarrived(w.requests)
            && u.pacer.active == w.pacer.active && u.pacer.observed == w.pacer.observed
            && u.pacer.nextAllowedAt >= w.pacer.nextAllowedAt && u.pacer.requestInterval == w.pacer.requestInterval
  {
    ActiveWithout(w.requests, e.id);
    DeferredKeepsDeadline(settings.limits, w.pacer, w.now, e.delay, e.minimumInterval);
  }

  lemma FailKeepsInv(settings: Settings, w: World, e: Event)
    requires ValidSettings(settings) && Inv(settings, w) && Legal(settings, w, e) && e.Fail?
    ensures Inv(settings, Apply(settings, w, e))
  {
    FailKeepsSizes(settings, w, e);
    FewerRequestsKeepInv(settings, w, Apply(settings, w, e));
  }

  /** Forgetting requests that carry no count, and a later deadline, keep the invariant. */
  lemma FewerRequestsKeepInv(settings: Settings, w: World, u: World)
    requires Inv(settings, w)
    requires u == w.(pacer := u.pacer, requests := u.requests)
    requires u.pacer.observed == w.pacer.observed && u.pacer.requestInterval == w.pacer.requestInterval
    requires u.pacer.active == w.pacer.active && u.pacer.nextAllowedAt >= w.pacer.nextAllowedAt
    requires Active(u.requests) == Active(w.requests) && Unarrived(u.requests) == Unarrived(w.requests)
    requires forall id :: id in u.requests ==> id in w.requests && u.requests[id] == w.requests[id]
    requires forall id :: id in w.requests && IsCounted(w.requests[id]) ==> id in u.requests
    ensures Inv(settings, u)
  {
    SameCounts(w, u);
    assert LeastSeen(settings, u) == LeastSeen(settings, w);
    assert Surplus(settings, u) == Surplus(settings, w);
  }

  /** What an observation of the current window leaves: an interval that the surplus can pay for. */
  lemma RepacedAffordable(settings: Settings, p: Pacer, wall: real, at: real, surplus: int)
    requires ValidSettings(settings) && p.observed.Some? && wall <= at
    requires p.observed.value.resetAt - wall <= settings.window
    requires surplus >= p.observed.value.remaining - settings.limits.reserve - p.active
    ensures var q := Repaced(settings.limits, p, wall, at);
            || q.nextAllowedAt > p.observed.value.resetAt
            || q.nextAllowedAt + surplus as real * q.requestInterval > p.observed.value.resetAt
  {
    var usable := p.observed.value.remaining - (settings.limits.reserve + p.active);
    var toReset := p.observed.value.resetAt - wall;
    var q := Repaced(settings.limits, p, wall, at);
    if usable > 0 && toReset > 0.0 {
      assert q.requestInterval == toReset / usable as real && q.nextAllowedAt >= at + q.requestInterval;
      WindowIsPaid(toReset, usable, q.requestInterval);
      assert q.nextAllowedAt + usable as real * q.requestInterval > p.observed.value.resetAt;
      MoreSurplus(q.nextAllowedAt, q.requestInterval, usable, surplus, p.observed.value.resetAt);
    }
  }

  lemma WindowIsPaid(toReset: real, usable: int, interval: real)
    requires toReset > 0.0 && usable > 0 && interval == toReset / usable as real
    ensures interval > 0.0 && usable as real * interval == toReset
  {
    PositiveQuotient(toReset, usable as real);
  }

  /** Remaining counts at the server, against what the responses seen so far and the counters say. */
  lemma SurplusCoversUsable(settings: Settings, u: World)
    requires Basic(settings, u) && Accounted(settings, u) && SeenWindow(u) && u.worstGap >= |Gap(u.requests)|
    ensures Surplus(settings, u) >= u.pacer.observed.value.remaining - settings.limits.reserve - u.pacer.active
  {
    PhaseSizes(u.requests);
    forall v | u.server.remaining <= v < LeastSeen(settings, u)
      ensures Carried(u.requests, CountedIn(u.requests), HeaderReset(u), v)
    {
      assert Outstanding(u, v);
      var id :| id in u.requests && IsCounted(u.requests[id]) && u.requests[id].reply == Counted(HeaderReset(u), v);
      assert id in CountedIn(u.requests);
    }
    DistinctCounts(u.requests, CountedIn(u.requests), HeaderReset(u), u.server.remaining, LeastSeen(settings, u));
  }

  lemma ObserveKeepsBasic(settings: Settings, w: World, e: Event)
    requires ValidSettings(settings) && Inv(settings, w) && Legal(settings, w, e) && e.Observe?
    ensures Basic(settings, Apply(settings, w, e))
  {
    var u := Apply(settings, w, e);
    var reply := w.requests[e.id].reply;
    ActiveWithout(w.requests, e.id);
    ObservedKeepsDeadline(settings.limits, w.pacer, Valid(Quota(reply.resetAt as real, reply.remaining)), e.wall, e.at);
    forall id | id in u.requests && IsCounted(u.requests[id]) 
      ensures u.requests[id].reply.resetAt <= HeaderReset(u) && u.requests[id].reply.remaining <= settings.quota
    {
      assert u.requests[id] == w.requests[id];
    }
  }

  lemma ObserveKeepsAccounted(settings: Settings, w: World, e: Event)
    requires ValidSettings(settings) && Inv(settings, w) && Legal(settings, w, e) && e.Observe?
    ensures Accounted(settings, Apply(settings, w, e))
  {
    var u := Apply(settings, w, e);
    var reply := w.requests[e.id].reply;
    forall v {:trigger Outstanding(u, v)} | u.server.resetAt > 0.0 && u.server.remaining <= v < LeastSeen(settings, u)
      ensures Outstanding(u, v)
    {
      assert v < LeastSeen(settings, w);
      assert Outstanding(w, v);
      var id :| id in w.requests && IsCounted(w.requests[id]) && w.requests[id].reply == Counted(HeaderReset(w), v);
      assert id != e.id;
      assert id in u.requests.Keys;
    }
  }

  lemma ObservedAffordable(settings: Settings, p: Pacer, q: Quota, wall: real, at: real, surplus: int)
    requires ValidSettings(settings) && wall <= at && !IsStale(p.observed, q)
    requires var o := Observed(settings.limits, p, Valid(q), wall, at);
             && o.observed.Some?
             && o.observed.value.resetAt - wall <= settings.window
             && surplus >= o.observed.value.remaining - settings.limits.reserve - o.active
    ensures var o := Observed(settings.limits, p, Valid(q), wall, at);
            || o.nextAllowedAt > o.observed.value.resetAt
            || o.nextAllowedAt + surplus as real * o.requestInterval > o.observed.value.resetAt
  {
    RepacedAffordable(settings, p.(observed := Some(Remember(p.observed, q))), wall, at, surplus);
  }

  lemma FreshObservationAffordable(settings: Settings, p: Pacer, q: Quota, wall: real, at: real, u: World)
    requires ValidSettings(settings) && wall <= at && !IsStale(p.observed, q)
    requires u.pacer == Observed(settings.limits, p, Valid(q), wall, at)
    requires SeenWindow(u) && HeaderReset(u) as real - wall <= settings.window
    requires Surplus(settings, u) >= u.pacer.observed.value.remaining - settings.limits.reserve - u.pacer.active
    ensures Affordable(settings, u)
  {
    ObservedAffordable(settings, p, q, wall, at, Surplus(settings, u));
  }

  lemma StaleObservationAffordable(settings: Settings, w: World, u: World)
    requires Affordable(settings, w) && w.pacer.requestInterval > 0.0
    requires u.pacer == w.pacer && u.server == w.server && Surplus(settings, u) >= Surplus(settings, w)
    ensures Affordable(settings, u)
  {
    if SeenWindow(u) {
      MoreSurplus(w.pacer.nextAllowedAt, w.pacer.requestInterval, Surplus(settings, w), Surplus(settings, u), HeaderReset(w) as real);
    }
  }

  lemma ObserveKeepsAffordable(settings: Settings, w: World, e: Event)
    requires ValidSettings(settings) && Inv(settings, w) && Legal(settings, w, e) && e.Observe?
    requires Basic(settings, Apply(settings, w, e)) && Accounted(settings, Apply(settings, w, e))
    requires Surplus(settings, Apply(settings, w, e)) >= Surplus(settings, w)
    ensures Affordable(settings, Apply(settings, w, e))
  {
    var u := Apply(settings, w, e);
    var q := Quota(w.requests[e.id].reply.resetAt as real, w.requests[e.id].reply.remaining);
    if IsStale(w.pacer.observed, q) {
      StaleObservationAffordable(settings, w, u);
    } else if SeenWindow(u) {
      SurplusCoversUsable(settings, u);
      FreshObservationAffordable(settings, w.pacer, q, e.wall, e.at, u);
    }
  }

  lemma ObserveKeepsInv(settings: Settings, w: World, e: Event)
    requires ValidSettings(settings) && Inv(settings, w) && Legal(settings, w, e) && e.Observe?
    ensures Inv(settings, Apply(settings, w, e))
  {
    ObserveKeepsBasic(settings, w, e);
    ObserveKeepsAccounted(settings, w, e);
    ActiveWithout(w.requests, e.id);
    ObserveKeepsAffordable(settings, w, e);
  }

  lemma StepKeepsInv(settings: Settings, w: World, e: Event)
    requires ValidSettings(settings) && Inv(settings, w) && Legal(settings, w, e)
    ensures Inv(settings, Apply(settings, w, e))
  {
    match e
    case Wait(_) => SameCounts(w, Apply(settings, w, e));
    case Book(_, _) => BookKeepsInv(settings, w, e);
    case BeginHttp(_) => BeginKeepsInv(settings, w, e);
    case Arrive(_, _) => ArriveKeepsInv(settings, w, e);
    case End(_) => EndKeepsInv(settings, w, e);
    case Observe(_, _, _) => ObserveKeepsInv(settings, w, e);
    case Fail(_, _, _) => FailKeepsInv(settings, w, e);
  }

  lemma {:induction false} RunKeepsInv(settings: Settings, w: World, es: seq<Event>, u: World)
    requires ValidSettings(settings) && Inv(settings, w) && Run(settings, w, es, u)
    ensures Inv(settings, u)
    decreases |es|
  {
    if es != [] {
      StepKeepsInv(settings, w, es[0]);
      RunKeepsInv(settings, Apply(settings, w, es[0]), es[1..], u);
    }
  }

  lemma ReachableInv(settings: Settings, u: World)
    requires ValidSettings(settings) && Reachable(settings, u)
    ensures Inv(settings, u)
  {
    var es :| Run(settings, Start, es, u);
    RunKeepsInv(settings, Start, es, u);
  }

  // ----- Slots bound the gap

  /** Every request holds a slot from before its booking until after its observation. */
  ghost predicate SlotsHeld(settings: Settings, w: World) {
    |w.requests| <= settings.slots && w.worstGap < settings.slots
  }

  lemma GapIsPart(requests: map<nat, Phase>)
    ensures |Gap(requests)| <= |requests|
  {
    SubsetSize(Gap(requests), requests.Keys);
  }

  lemma StepKeepsSlots(settings: Settings, w: World, e: Event)
    requires SlotsHeld(settings, w) && Legal(settings, w, e)
    ensures SlotsHeld(settings, Apply(settings, w, e))
  {
    var u := Apply(settings, w, e);
    match e
    case Wait(_) =>
    case Book(id, _) => assert u.requests.Keys == w.requests.Keys + {id};
    case Observe(id, _, _) =>
      assert u.requests.Keys == w.requests.Keys - {id};
      GapIsPart(u.requests);
    case Fail(id, _, _) => assert u.requests.Keys == w.requests.Keys - {id};
    case _ => assert u.requests.Keys == w.requests.Keys;
  }

  lemma {:induction false} RunKeepsSlots(settings: Settings, w: World, es: seq<Event>, u: World)
    requires SlotsHeld(settings, w) && Run(settings, w, es, u)
    ensures SlotsHeld(settings, u)
    decreases |es|
  {
    if es != [] {
      StepKeepsSlots(settings, w, es[0]);
      RunKeepsSlots(settings, Apply(settings, w, es[0]), es[1..], u);
    }
  }

  /** No observation ever misses as many requests as there are slots. */
  lemma GapWithinSlots(settings: Settings, w: World)
    requires ValidSettings(settings) && Reachable(settings, w)
    ensures w.worstGap < settings.slots
  {
    var es :| Run(settings, Start, es, w);
    RunKeepsSlots(settings, Start, es, w);
  }

  // ----- Quota safety

  /**
   Over every run: a start booked after the window's first observation, with a
   timestamp up to the header's reset second, leaves the server with at least the
   reserve less the worst gap, once all booked requests have arrived; and the gap is
   smaller than the number of slots.
   */
  lemma BookingLeavesReserve(settings: Settings, w: World, e: Event)
    requires ValidSettings(settings) && Reachable(settings, w) && Legal(settings, w, e) && e.Book?
    requires SeenWindow(w) && e.at <= HeaderReset(w) as real
    ensures var u := Apply(settings, w, e);
            && u.server.remaining - |Unarrived(u.requests)| >= settings.limits.reserve - u.worstGap
            && u.worstGap < settings.slots
  {
    ReachableInv(settings, w);
    StepKeepsInv(settings, w, e);
    GapWithinSlots(settings, w);
  }

  /**
   Until the next start outside that promise, every request that reaches the server
   in the window is admitted if the reserve covers the worst gap, and at least their
   difference stays unused.
   */
  lemma PacedArrivalAdmitted(settings: Settings, w: World, e: Event)
    requires ValidSettings(settings) && Reachable(settings, w) && Legal(settings, w, e) && e.Arrive? && !e.refused
    requires w.paced && w.now < w.server.resetAt && w.worstGap <= settings.limits.reserve
    ensures var u := Apply(settings, w, e);
            && IsCounted(u.requests[e.id])
            && u.server.remaining >= settings.limits.reserve - u.worstGap
            && u.server.limited == w.server.limited
  {
    ReachableInv(settings, w);
    assert e.id in Unarrived(w.requests);
    assert |Unarrived(w.requests)| >= |{e.id}| by {
      SubsetSize({e.id}, Unarrived(w.requests));
    }
    StepKeepsInv(settings, w, e);
  }

  lemma ReachableStep(settings: Settings, w: World, e: Event) returns (u: World)
    requires Reachable(settings, w) && Legal(settings, w, e)
    ensures Reachable(settings, u) && u == Apply(settings, w, e)
  {
    u := Apply(settings, w, e);
    var es :| Run(settings, Start, es, w);
    assert [e][1..] == [];
    RunsCompose(settings, Start, es, w, [e], u);
  }

  // ----- The same, with booking, begin and arrival as one step, and end and observation as one step

  datatype Move =
    | Pass(to: real)
    | Send(id: nat, refused: bool)
    | Finish(id: nat, at: real)
    | GiveUp(id: nat, delay: real, minimumInterval: real)

  function Unfold(w: World, m: Move): seq<Event> {
    match m
    case Pass(to) => [Wait(to)]
    case Send(id, refused) => [Book(id, w.now), BeginHttp(id), Arrive(id, refused)]
    case Finish(id, at) => [End(id), Observe(id, w.now, at)]
    case GiveUp(id, delay, minimumInterval) => [End(id), Fail(id, delay, minimumInterval)]
  }

  ghost predicate MoveRun(settings: Settings, w: World, ms: seq<Move>, u: World)
    decreases |ms|
  {
    if ms == [] then w == u
    else exists v :: Run(settings, w, Unfold(w, ms[0]), v) && MoveRun(settings, v, ms[1..], u)
  }

  ghost predicate NothingCaught(w: World) {
    w.worstGap == 0 && forall id :: id in w.requests ==> w.requests[id].Arrived?
  }

  lemma TwoEvents(settings: Settings, w: World, a: Event, b: Event, u: World)
    ensures Run(settings, w, [a, b], u) <==>
            Legal(settings, w, a) && Legal(settings, Apply(settings, w, a), b) && u == Apply(settings, Apply(settings, w, a), b)
  {
    assert [a, b][1..] == [b] && [b][1..] == [];
    if Legal(settings, w, a) {
      var v := Apply(settings, w, a);
      assert Run(settings, v, [b], u) <==> Legal(settings, v, b) && u == Apply(settings, v, b);
    }
  }

  lemma ThreeEvents(settings: Settings, w: World, a: Event, b: Event, c: Event, u: World)
    requires Run(settings, w, [a, b, c], u)
    ensures Legal(settings, w, a) && Run(settings, Apply(settings, w, a), [b, c], u)
  {
    assert [a, b, c][1..] == [b, c];
  }

  lemma MoveCatchesNothing(settings: Settings, w: World, m: Move, u: World)
    requires NothingCaught(w) && Run(settings, w, Unfold(w, m), u)
    ensures NothingCaught(u)
  {
    var es := Unfold(w, m);
    match m
    case Pass(_) =>
      assert es[1..] == [];
    case Send(_, _) =>
      ThreeEvents(settings, w, es[0], es[1], es[2], u);
      TwoEvents(settings, Apply(settings, w, es[0]), es[1], es[2], u);
    case Finish(id, _) =>
      TwoEvents(settings, w, es[0], es[1], u);
      assert Gap(u.requests) == {};
    case GiveUp(_, _, _) =>
      TwoEvents(settings, w, es[0], es[1], u);
  }

  lemma {:induction false} RunsJoin(
      settings: Settings, w: World, es: seq<Event>, u: World, fs: seq<Event>, v: World, all: seq<Event>)
    requires Run(settings, w, es, u) && Run(settings, u, fs, v) && all == es + fs
    ensures Run(settings, w, all, v)
    decreases |es|
  {
    if es == [] {
      assert all == fs;
    } else {
      var e, rest, next := es[0], all[1..], Apply(settings, w, es[0]);
      assert all[0] == e && rest == es[1..] + fs;
      RunsJoin(settings, next, es[1..], u, fs, v, rest);
      RunFirst(settings, w, e, next, rest, v, all);
    }
  }

  lemma RunFirst(settings: Settings, w: World, e: Event, next: World, rest: seq<Event>, v: World, all: seq<Event>)
    requires all != [] && all[0] == e && all[1..] == rest
    requires Legal(settings, w, e) && next == Apply(settings, w, e) && Run(settings, next, rest, v)
    ensures Run(settings, w, all, v)
  {
  }

  lemma RunsCompose(settings: Settings, w: World, es: seq<Event>, u: World, fs: seq<Event>, v: World)
    requires Run(settings, w, es, u) && Run(settings, u, fs, v)
    ensures Run(settings, w, es + fs, v)
  {
    RunsJoin(settings, w, es, u, fs, v, es + fs);
  }

  lemma {:induction false} MovesCatchNothing(settings: Settings, w: World, ms: seq<Move>, u: World) returns (es: seq<Event>)
    requires NothingCaught(w) && MoveRun(settings, w, ms, u)
    ensures NothingCaught(u) && Run(settings, w, es, u)
    decreases |ms|
  {
    if ms == [] {
      es := [];
    } else {
      var v :| Run(settings, w, Unfold(w, ms[0]), v) && MoveRun(settings, v, ms[1..], u);
      MoveCatchesNothing(settings, w, ms[0], v);
      var rest := MovesCatchNothing(settings, v, ms[1..], u);
      RunsCompose(settings, w, Unfold(w, ms[0]), v, rest, u);
      es := Unfold(w, ms[0]) + rest;
    }
  }

  /**
   Closed-loop quota safety: in any run of single-step sends and finishes, every
   send after the window's first observation and up to the header's reset second
   is admitted by the server and leaves at least the reserve unused.
   */
  lemma QuotaSafety(settings: Settings, ms: seq<Move>, w: World, id: nat, u: World)
    requires ValidSettings(settings) && MoveRun(settings, Start, ms, w)
    requires SeenWindow(w) && w.now <= HeaderReset(w) as real
    requires Run(settings, w, Unfold(w, Send(id, false)), u)
    ensures id in u.requests && IsCounted(u.requests[id])
    ensures u.server.limited == w.server.limited
    ensures w.now < w.server.resetAt || settings.limits.reserve < settings.quota ==>
              u.server.remaining >= settings.limits.reserve
  {
    var es := MovesCatchNothing(settings, Start, ms, w);
    var fs := Unfold(w, Send(id, false));
    ThreeEvents(settings, w, fs[0], fs[1], fs[2], u);
    var w1 := Apply(settings, w, fs[0]);
    TwoEvents(settings, w1, fs[1], fs[2], u);
    var w2 := Apply(settings, w1, fs[1]);
    TwoEvents(settings, w, fs[0], fs[1], w2);
    RunsCompose(settings, Start, es, w, [fs[0], fs[1]], w2);
    if w2.now < w2.server.resetAt {
      PacedArrivalAdmitted(settings, w2, fs[2]);
    }
  }
}
