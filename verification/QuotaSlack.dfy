/**
 How much reserve the closed loop needs when its steps are separate: exactly one
 request for each slot but one. With less, a window, a quota and a run are built in
 which a start that obeys all headers is refused.
 */
module QuotaSlack {
  import opened Basics
  import opened Throttle
  import opened QuotaLoop

  /** The second at which the window below is said to reset; it really resets half a second later. */
  function TightReset(reserve: nat): int {
    2 * (reserve + 2)
  }

  /** Two requests more than the reserve per window. */
  function TightSettings(limits: Limits, slots: nat): Settings {
    Settings(limits, TightReset(limits.reserve) as real + 0.5, limits.reserve + 2, slots)
  }

  ghost predicate IsTight(settings: Settings) {
    && ValidSettings(settings) && settings == TightSettings(settings.limits, settings.slots)
    && settings.slots >= settings.limits.reserve + 2
  }

  /** The server after `n` arrivals in its first window, which opened at time 0. */
  function TightServer(settings: Settings, n: nat): Limiter {
    Limiter(settings.window, settings.quota - n, n, 0)
  }

  function DefaultDeadline(n: nat): real {
    (n + 1) as real * DEFAULT_REQUEST_INTERVAL
  }

  /** Request 0 has been answered but not observed, and `n` more requests are booked but not begun. */
  function Parked(settings: Settings, n: nat): map<nat, Phase> {
    if n == 0 then map[0 := Ended(Counted(TightReset(settings.limits.reserve), settings.quota - 1))]
    else Parked(settings, n - 1)[n := Booked]
  }

  function ParkedWorld(settings: Settings, n: nat): World {
    World(n as real * DEFAULT_REQUEST_INTERVAL, FreshPacer.(nextAllowedAt := DefaultDeadline(n)),
          TightServer(settings, 1), Parked(settings, n), 0, false)
  }

  lemma {:induction false} ParkedPhases(settings: Settings, n: nat)
    ensures forall k: nat :: k in Parked(settings, n) <==> k <= n
    ensures forall k: nat :: 1 <= k <= n ==> Parked(settings, n)[k] == Booked
    ensures Parked(settings, n)[0] == Parked(settings, 0)[0]
  {
    if n > 0 {
      ParkedPhases(settings, n - 1);
    }
  }

  lemma {:induction false} ParkedSize(settings: Settings, n: nat)
    ensures |Parked(settings, n)| == n + 1
  {
    if n > 0 {
      ParkedSize(settings, n - 1);
      ParkedPhases(settings, n - 1);
      assert Parked(settings, n).Keys == Parked(settings, n - 1).Keys + {n};
    }
  }

  lemma FirstAnswer(settings: Settings)
    requires IsTight(settings)
    ensures Reachable(settings, ParkedWorld(settings, 0))
  {
    assert Run(settings, Start, [], Start);
    var w1 := ReachableStep(settings, Start, Book(0, 0.0));
    var w2 := ReachableStep(settings, w1, BeginHttp(0));
    AnswerFirst(settings, w2);
  }

  lemma AnswerFirst(settings: Settings, w: World)
    requires IsTight(settings) && Reachable(settings, w)
    requires w == World(0.0, Throttle.Booked(FreshPacer, 0.0).(active := 1), ExpiredLimiter, map[0 := Begun], 0, false)
    ensures Reachable(settings, ParkedWorld(settings, 0))
  {
    FirstWindow(settings);
    var w1 := ReachableStep(settings, w, Arrive(0, false));
    var w2 := ReachableStep(settings, w1, End(0));
    assert w2.requests == Parked(settings, 0);
  }

  lemma FirstWindow(settings: Settings)
    requires IsTight(settings)
    ensures AfterArrival(settings, ExpiredLimiter, 0.0) == (TightServer(settings, 1), true)
    ensures settings.window.Floor == TightReset(settings.limits.reserve)
  {
  }

  lemma ParkOne(settings: Settings, n: nat, w: World)
    requires IsTight(settings) && 1 <= n <= settings.limits.reserve + 1
    requires Reachable(settings, w) && w == ParkedWorld(settings, n - 1)
    requires n !in w.requests && |w.requests| < settings.slots
    ensures Reachable(settings, ParkedWorld(settings, n))
  {
    var w1 := ReachableStep(settings, w, Wait(DefaultDeadline(n - 1)));
    var w2 := ReachableStep(settings, w1, Book(n, DefaultDeadline(n - 1)));
    assert w2 == ParkedWorld(settings, n);
  }

  lemma {:induction false} ParkSome(settings: Settings, n: nat)
    requires IsTight(settings) && n <= settings.limits.reserve + 1
    ensures Reachable(settings, ParkedWorld(settings, n))
  {
    if n == 0 {
      FirstAnswer(settings);
    } else {
      ParkSome(settings, n - 1);
      ParkedPhases(settings, n - 1);
      ParkedSize(settings, n - 1);
      ParkOne(settings, n, ParkedWorld(settings, n - 1));
    }
  }

  /** The requests that an observation of request 0's answer misses: all but one more than the reserve covers. */
  function Missed(settings: Settings): map<nat, Phase> {
    Parked(settings, settings.limits.reserve + 1) - {0}
  }

  lemma MissedPhases(settings: Settings)
    ensures forall k: nat :: k in Missed(settings) <==> 1 <= k <= settings.limits.reserve + 1
    ensures forall k: nat :: k in Missed(settings) ==> Missed(settings)[k] == Booked
  {
    ParkedPhases(settings, settings.limits.reserve + 1);
  }

  lemma MissedSize(settings: Settings)
    ensures |Missed(settings)| == |Gap(Missed(settings))| == settings.limits.reserve + 1
  {
    var parked, missed := Parked(settings, settings.limits.reserve + 1), Missed(settings);
    ParkedSize(settings, settings.limits.reserve + 1);
    ParkedPhases(settings, settings.limits.reserve + 1);
    MissedPhases(settings);
    assert missed.Keys == parked.Keys - {0};
    assert Gap(missed) == missed.Keys;
  }

  /** What it takes for an observation of request 0's answer to be as tight as can be. */
  ghost predicate AnswerPending(settings: Settings, w: World) {
    && w.now == (settings.limits.reserve + 1) as real * DEFAULT_REQUEST_INTERVAL
    && 0 in w.requests
    && w.requests[0] == Ended(Counted(TightReset(settings.limits.reserve), settings.limits.reserve + 1))
    && w.pacer.observed.None? && w.pacer.active == 0 && w.worstGap == 0
    && w.pacer.nextAllowedAt <= TightReset(settings.limits.reserve) as real
  }

  lemma ParkedIsPending(settings: Settings)
    requires IsTight(settings)
    ensures AnswerPending(settings, ParkedWorld(settings, settings.limits.reserve + 1))
  {
    TightTimes(settings.limits.reserve);
    ParkedPhases(settings, settings.limits.reserve + 1);
  }

  /** The answer to request 0 is observed while `reserve + 1` requests are caught between booking and beginning. */
  lemma MissedByObservation(settings: Settings) returns (w: World)
    requires IsTight(settings)
    ensures Reachable(settings, w) && w.requests == Missed(settings) && w.worstGap == settings.limits.reserve + 1
    ensures var reset := TightReset(settings.limits.reserve) as real;
            && w.now <= reset && w.server == TightServer(settings, 1) && w.pacer.active == 0
            && w.pacer.observed == Some(Quota(reset, settings.limits.reserve + 1))
            && w.pacer.nextAllowedAt == reset
  {
    var w0 := ParkedWorld(settings, settings.limits.reserve + 1);
    ParkSome(settings, settings.limits.reserve + 1);
    ParkedIsPending(settings);
    TightTimes(settings.limits.reserve);
    w := ObserveFirst(settings, w0, Missed(settings));
    MissedSize(settings);
  }

  lemma ObserveFirst(settings: Settings, w: World, rest: map<nat, Phase>) returns (u: World)
    requires IsTight(settings) && Reachable(settings, w) && AnswerPending(settings, w) && rest == w.requests - {0}
    ensures Reachable(settings, u) && u.now == w.now && u.server == w.server
    ensures u.requests == rest && u.worstGap == |Gap(rest)|
    ensures var reset := TightReset(settings.limits.reserve) as real;
            && u.pacer.observed == Some(Quota(reset, settings.limits.reserve + 1))
            && u.pacer.nextAllowedAt == reset && u.pacer.active == 0
  {
    TightTimes(settings.limits.reserve);
    TightObservation(settings, w.pacer, w.now);
    u := ReachableStep(settings, w, Observe(0, w.now, w.now));
  }

  lemma TightTimes(r: nat)
    ensures (r + 1) as real * DEFAULT_REQUEST_INTERVAL <= DefaultDeadline(r + 1) <= TightReset(r) as real
  {
    assert DEFAULT_REQUEST_INTERVAL == 1.2;
  }

  lemma TightObservation(settings: Settings, p: Pacer, now: real)
    requires IsTight(settings) && p.observed.None? && p.active == 0
    requires now == (settings.limits.reserve + 1) as real * DEFAULT_REQUEST_INTERVAL
    requires p.nextAllowedAt <= TightReset(settings.limits.reserve) as real
    ensures var r, reset := settings.limits.reserve, TightReset(settings.limits.reserve) as real;
            var q := Observed(settings.limits, p, Valid(Quota(reset, r + 1)), now, now);
            && q.observed == Some(Quota(reset, r + 1)) && q.nextAllowedAt == reset && q.active == 0
  {
    var r, reset := settings.limits.reserve, TightReset(settings.limits.reserve) as real;
    var p1 := p.(observed := Some(Quota(reset, r + 1)));
    assert now < reset && Min(Max(reset - now, 0.0), settings.limits.maxCooldown) == reset - now;
    assert Repaced(settings.limits, p1, now, now).requestInterval == (reset - now) / 1.0;
  }

  /** The first `n` missed requests have arrived; request `reserve + 2` has been booked. */
  function SomeArrived(settings: Settings, n: nat): map<nat, Phase> {
    var r := settings.limits.reserve;
    if n == 0 then Missed(settings)[r + 2 := Booked]
    else SomeArrived(settings, n - 1)[n := Arrived(Counted(TightReset(r), r + 1 - n))]
  }

  function ArrivedWorld(settings: Settings, p: Pacer, n: nat): World {
    var r := settings.limits.reserve;
    World(TightReset(r) as real, p.(active := n), TightServer(settings, n + 1), SomeArrived(settings, n), r + 1, true)
  }

  lemma {:induction false} OthersNotArrived(settings: Settings, n: nat, k: nat)
    requires n < k <= settings.limits.reserve + 2
    ensures k in SomeArrived(settings, n) && SomeArrived(settings, n)[k] == Booked
  {
    if n == 0 {
      MissedPhases(settings);
    } else {
      OthersNotArrived(settings, n - 1, k);
    }
  }

  lemma {:induction false} ArriveSome(settings: Settings, p: Pacer, n: nat)
    requires IsTight(settings) && n <= settings.limits.reserve + 1
    requires Reachable(settings, ArrivedWorld(settings, p, 0))
    ensures Reachable(settings, ArrivedWorld(settings, p, n))
  {
    if n > 0 {
      ArriveSome(settings, p, n - 1);
      OthersNotArrived(settings, n - 1, n);
      ArriveOne(settings, p, n, ArrivedWorld(settings, p, n - 1));
    }
  }

  lemma ArriveOne(settings: Settings, p: Pacer, n: nat, w: World)
    requires IsTight(settings) && 1 <= n <= settings.limits.reserve + 1
    requires Reachable(settings, w) && w == ArrivedWorld(settings, p, n - 1)
    requires n in w.requests && w.requests[n] == Booked
    ensures Reachable(settings, ArrivedWorld(settings, p, n))
  {
    FirstWindow(settings);
    var w1 := ReachableStep(settings, w, BeginHttp(n));
    assert AfterArrival(settings, w1.server, w1.now) == (TightServer(settings, n + 1), true);
    var w2 := ReachableStep(settings, w1, Arrive(n, false));
    assert w2.requests == SomeArrived(settings, n);
  }

  /** A request that reaches the server in the window of the latest paced start. */
  ghost predicate PacedArrival(settings: Settings, w: World, id: nat) {
    Reachable(settings, w) && Legal(settings, w, Arrive(id, false)) && w.paced && w.now < w.server.resetAt
  }

  ghost predicate IsAdmitted(settings: Settings, w: World, id: nat)
    requires Legal(settings, w, Arrive(id, false))
  {
    IsCounted(Apply(settings, w, Arrive(id, false)).requests[id])
  }

  /**
   Whatever the reserve and the cooldown cap: with two slots more than the reserve,
   some window and quota have a paced start that the server refuses, although all
   headers were obeyed. The observation that made room for it had missed one request
   more than the reserve covers.
   */
  lemma SlackIsNeeded(limits: Limits, slots: nat) returns (w: World, id: nat)
    requires limits.maxCooldown >= TightReset(limits.reserve) as real + 1.5
    requires slots >= limits.reserve + 2
    ensures ValidSettings(TightSettings(limits, slots)) && PacedArrival(TightSettings(limits, slots), w, id)
    ensures w.worstGap == limits.reserve + 1 && !IsAdmitted(TightSettings(limits, slots), w, id)
  {
    id := limits.reserve + 2;
    w := RefuseLast(TightSettings(limits, slots));
  }

  lemma RefuseLast(settings: Settings) returns (w: World)
    requires IsTight(settings)
    ensures PacedArrival(settings, w, settings.limits.reserve + 2) && w.worstGap == settings.limits.reserve + 1
    ensures !IsAdmitted(settings, w, settings.limits.reserve + 2)
  {
    var r := settings.limits.reserve;
    var p := BookAfterMissing(settings);
    ArriveSome(settings, p, r + 1);
    OthersNotArrived(settings, r + 1, r + 2);
    w := BeginLast(settings, p, ArrivedWorld(settings, p, r + 1));
  }

  /** The quota is used up when the paced start reaches the server. */
  lemma BeginLast(settings: Settings, p: Pacer, w: World) returns (u: World)
    requires IsTight(settings) && Reachable(settings, w) && w == ArrivedWorld(settings, p, settings.limits.reserve + 1)
    requires var id := settings.limits.reserve + 2; id in w.requests && w.requests[id] == Booked
    ensures PacedArrival(settings, u, settings.limits.reserve + 2) && u.worstGap == settings.limits.reserve + 1
    ensures !IsAdmitted(settings, u, settings.limits.reserve + 2)
  {
    u := ReachableStep(settings, w, BeginHttp(settings.limits.reserve + 2));
    assert !AfterArrival(settings, u.server, u.now).1;
  }

  /** The paced start, at the header's reset second. */
  lemma BookAfterMissing(settings: Settings) returns (p: Pacer)
    requires IsTight(settings)
    ensures Reachable(settings, ArrivedWorld(settings, p, 0))
  {
    var r, reset := settings.limits.reserve, TightReset(settings.limits.reserve) as real;
    var w1 := MissedByObservation(settings);
    MissedPhases(settings);
    MissedSize(settings);
    FirstWindow(settings);
    var w2 := ReachableStep(settings, w1, Wait(reset));
    var w3 := ReachableStep(settings, w2, Book(r + 2, reset));
    p := w3.pacer;
    assert w3.paced && w3.requests == SomeArrived(settings, 0);
    assert w3 == ArrivedWorld(settings, p, 0);
  }

  /** A reserve that covers all slots but one: every paced arrival is admitted, and the rest of the reserve stays unused. */
  lemma CoveredSlotsAdmit(settings: Settings, w: World, id: nat)
    requires ValidSettings(settings) && PacedArrival(settings, w, id) && settings.slots <= settings.limits.reserve + 1
    ensures IsAdmitted(settings, w, id)
    ensures Apply(settings, w, Arrive(id, false)).server.remaining >= settings.limits.reserve + 1 - settings.slots
  {
    GapWithinSlots(settings, w);
    PacedArrivalAdmitted(settings, w, Arrive(id, false));
  }

  /** Every paced arrival is admitted, in every window, for every quota and every cooldown cap. */
  ghost predicate AllPacedAdmitted(reserve: nat, slots: nat) {
    forall settings, w, id :: PacedArrivalWith(reserve, slots, settings, w, id) ==> IsAdmitted(settings, w, id)
  }

  ghost predicate PacedArrivalWith(reserve: nat, slots: nat, settings: Settings, w: World, id: nat) {
    && ValidSettings(settings) && settings.limits.reserve == reserve && settings.slots == slots
    && PacedArrival(settings, w, id)
  }

  /** With separate steps, the reserve keeps the quota exactly if it covers all slots but one. */
  lemma ReserveMustCoverSlots(reserve: nat, slots: nat)
    requires slots >= 1
    ensures AllPacedAdmitted(reserve, slots) <==> slots <= reserve + 1
  {
    if slots <= reserve + 1 {
      forall settings, w, id | PacedArrivalWith(reserve, slots, settings, w, id) ensures IsAdmitted(settings, w, id) {
        CoveredSlotsAdmit(settings, w, id);
      }
    } else {
      var limits := Limits(reserve, TightReset(reserve) as real + 1.5);
      var w, id := SlackIsNeeded(limits, slots);
      assert PacedArrivalWith(reserve, slots, TightSettings(limits, slots), w, id);
    }
  }
}
