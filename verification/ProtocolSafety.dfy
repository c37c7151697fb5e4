/** What every run of the protocol keeps: conservation, spacing, and the bounds of each call. */
module ProtocolSafety {
  import opened Basics
  import opened Throttle
  import opened Retry
  import opened Protocol

  // ----- One step, seen locally

  /** No observation touches the counts. */
  lemma ObservedKeepsCounts(limits: Limits, p: Pacer, headers: Headers, wall: real, now: real)
    ensures var q := Observed(limits, p, headers, wall, now); q.active == p.active && q.queued == p.queued
  {
  }

  /** A step changes the active and the queued count exactly as its caller moves. */
  lemma StepCounts(cfg: Config, fc: FamilyConfig, now: real, l: Local, input: Input)
    requires CanStep(cfg, now, l, input)
    ensures var m := StepLocal(cfg, fc, now, l, input);
            && m.family.pacer.active - One(m.caller.pc.InFlight?) == l.family.pacer.active - One(l.caller.pc.InFlight?)
            && m.family.pacer.queued - One(InQueue(m.caller.pc)) == l.family.pacer.queued - One(InQueue(l.caller.pc))
  {
    if l.caller.pc.Answered? && input.SettleAt? {
      ObservedKeepsCounts(fc.limits, l.family.pacer, l.caller.pc.headers, input.wall, now);
    }
  }

  /** A step hands over exactly what it takes: slots, permits, the active and the queued count. */
  lemma StepConserves(cfg: Config, fc: FamilyConfig, now: real, l: Local, input: Input)
    requires CanStep(cfg, now, l, input)
    ensures var m := StepLocal(cfg, fc, now, l, input);
            && m.family.freeSlots + One(HoldsSlot(m.caller.pc)) == l.family.freeSlots + One(HoldsSlot(l.caller.pc))
            && (cfg.hasOrg ==>
                  m.org.freePermits + One(HoldsPermit(m.caller.pc)) == l.org.freePermits + One(HoldsPermit(l.caller.pc)))
            && m.family.pacer.active - One(m.caller.pc.InFlight?) == l.family.pacer.active - One(l.caller.pc.InFlight?)
            && m.family.pacer.queued - One(InQueue(m.caller.pc)) == l.family.pacer.queued - One(InQueue(l.caller.pc))
            && m.caller.family == FamilyOf(l.caller, input)
  {
    StepCounts(cfg, fc, now, l, input);
  }

  /** No step moves a deadline back. */
  lemma StepKeepsDeadlines(cfg: Config, fc: FamilyConfig, now: real, l: Local, input: Input)
    requires CanStep(cfg, now, l, input)
    requires fc.limits.maxCooldown > 0.0 && l.family.pacer.requestInterval > 0.0
    ensures var m := StepLocal(cfg, fc, now, l, input);
            && m.family.pacer.nextAllowedAt >= l.family.pacer.nextAllowedAt
            && m.family.pacer.requestInterval > 0.0
            && m.org.deadline >= l.org.deadline
  {
    match l.caller.pc
    case Answered(_, headers) =>
      if input.SettleAt? {
        ObservedKeepsDeadline(fc.limits, l.family.pacer, headers, input.wall, now);
      }
    case _ =>
  }

  /** The bookings of one family: each at least one interval after the one before. */
  ghost predicate WellSpaced(cfg: Config, family: Family) {
    && family.pacer.requestInterval > 0.0
    && (forall k :: 0 <= k < |family.starts| ==>
          && family.starts[k].gap > 0.0
          && (cfg.hasOrg ==> family.starts[k].at >= family.starts[k].orgDeadline))
    && (forall k :: 0 <= k < |family.starts| - 1 ==>
          family.starts[k + 1].at >= family.starts[k].at + family.starts[k].gap)
    && (|family.starts| > 0 ==>
          var last := family.starts[|family.starts| - 1];
          family.pacer.nextAllowedAt >= last.at + last.gap)
  }

  /** A clock reading taken for a booking lies in the past, and an org check used it. */
  ghost predicate ReadingSound(cfg: Config, now: real, c: Caller) {
    && (c.pc.CheckingOrg? ==> c.pc.at <= now)
    && (c.pc.Booking? ==> c.pc.at <= now && (cfg.hasOrg && c.pc.allowed ==> c.pc.at >= c.pc.orgDeadline))
  }

  lemma StepKeepsSpacing(cfg: Config, fc: FamilyConfig, now: real, l: Local, input: Input)
    requires CanStep(cfg, now, l, input)
    requires fc.limits.maxCooldown > 0.0
    requires WellSpaced(cfg, l.family) && ReadingSound(cfg, now, l.caller)
    ensures var m := StepLocal(cfg, fc, now, l, input);
            WellSpaced(cfg, m.family) && ReadingSound(cfg, now, m.caller)
  {
    StepKeepsDeadlines(cfg, fc, now, l, input);
    var m := StepLocal(cfg, fc, now, l, input);
    if m.family.starts != l.family.starts {
      assert l.caller.pc.Booking?;
    }
  }

  // ----- One call

  function FloorOf(client: Client, fc: FamilyConfig): real {
    Min(DelayFloor(client), fc.limits.maxCooldown)
  }

  function Times(n: nat, x: real): real {
    if n == 0 then 0.0 else x + Times(n - 1, x)
  }

  lemma {:induction false} TimesIsProduct(n: nat, x: real)
    ensures Times(n, x) == n as real * x
  {
    if n > 0 {
      TimesIsProduct(n - 1, x);
      assert n as real * x == x + (n - 1) as real * x;
    }
  }

  predicate Finishing(pc: Pc) {
    pc.Idle? || (pc.ReturnPermit? && !pc.next.Again?) || (pc.ReturnSlot? && !pc.next.Again?)
  }

  predicate AttemptOpen(pc: Pc) {
    !Finishing(pc) && !pc.BackingOff? && !pc.ReturnPermit? && !pc.ReturnSlot?
  }

  /** The counters of a call and the bounds they obey. */
  ghost predicate CallBounded(client: Client, fc: FamilyConfig, c: Caller) {
    var k := c.call;
    c.pc.Idle? ||
    (&& TransientBounded(client, k)
     && Times(k.rateRetries, FloorOf(client, fc)) <= k.rateDelay <= k.totalDelay
     && k.rateDelay < client.rateLimitMaxElapsed
     && k.attempt <= 1 + One(k.refreshed) + k.transientAttempt + k.rateRetries
     && (!Finishing(c.pc) ==>
           && Going(client, k)
           && k.attempt == One(AttemptOpen(c.pc)) + One(k.refreshed) + k.transientAttempt + k.rateRetries)
     && (c.pc.Answered? ==> SaneAnswer(c.pc.answer))
     && (c.pc.Deferring? ==> c.pc.delay >= DelayFloor(client)))
  }

  /** The pauses granted so far lie in the past, or under a deadline that the next booking must pass. */
  ghost predicate PausesCovered(cfg: Config, now: real, l: Local) {
    var due := l.caller.call.startedAt + l.caller.call.totalDelay;
    var passed := due <= now;
    var family := due <= l.family.pacer.nextAllowedAt;
    var org := cfg.hasOrg && due <= l.org.deadline;
    var pc := l.caller.pc;
    if Finishing(pc) then true
    else if l.caller.call.startedAt > now then false
    else if pc.Booking? && pc.allowed then passed || family
    else if pc.Admitted? || pc.InFlight? || pc.Answered? || pc.BackingOff? then passed
    else if pc.Deferring? then
      l.caller.call.totalDelay <= pc.elapsed && l.caller.call.startedAt + pc.elapsed <= now
    else passed || family || org
  }

  lemma StepKeepsPauses(cfg: Config, fc: FamilyConfig, now: real, l: Local, input: Input)
    requires CanStep(cfg, now, l, input)
    requires fc.limits.maxCooldown > 0.0 && cfg.orgMaxCooldown > 0.0 && l.family.pacer.requestInterval > 0.0
    requires ReadingSound(cfg, now, l.caller) && PausesCovered(cfg, now, l)
    ensures PausesCovered(cfg, now, StepLocal(cfg, fc, now, l, input))
  {
    StepKeepsDeadlines(cfg, fc, now, l, input);
    match l.caller.pc
    case Deferring(_, delay, _) =>
      DeferredKeepsDeadline(fc.limits, l.family.pacer, now, delay, PROBE_INTERVAL);
    case BackingOff(_, delay) =>
      DeferredKeepsDeadline(fc.limits, l.family.pacer, now, delay, 0.0);
    case _ =>
  }

  lemma SettledCall(cfg: Config, fc: FamilyConfig, now: real, l: Local, input: Input)
    requires CanStep(cfg, now, l, input) && l.caller.pc.Answered? && input.SettleAt?
    requires ValidClient(cfg.client)
    requires CallBounded(cfg.client, fc, l.caller)
    ensures CallBounded(cfg.client, fc, StepLocal(cfg, fc, now, l, input).caller)
  {
    var answer := l.caller.pc.answer;
    SettleBoundsTransients(cfg.client, l.caller.call, answer);
    if answer.RateLimited? {
      RetryDelayAtLeastFloor(cfg.client, answer.hint, l.caller.call.rateLimitAttempt + 1, answer.jitter);
    }
  }

  lemma DeferredCall(cfg: Config, fc: FamilyConfig, now: real, l: Local, input: Input)
    requires CanStep(cfg, now, l, input) && l.caller.pc.Deferring?
    requires ValidClient(cfg.client) && fc.limits.maxCooldown > 0.0
    requires CallBounded(cfg.client, fc, l.caller) && PausesCovered(cfg, now, l)
    ensures CallBounded(cfg.client, fc, StepLocal(cfg, fc, now, l, input).caller)
  {
    assert EffectiveDelay(fc.limits.maxCooldown, l.caller.pc.delay) >= FloorOf(cfg.client, fc);
  }

  lemma BackedOffCall(cfg: Config, fc: FamilyConfig, now: real, l: Local, input: Input)
    requires CanStep(cfg, now, l, input) && l.caller.pc.BackingOff?
    requires fc.limits.maxCooldown > 0.0 && cfg.orgMaxCooldown > 0.0
    requires CallBounded(cfg.client, fc, l.caller)
    ensures CallBounded(cfg.client, fc, StepLocal(cfg, fc, now, l, input).caller)
  {
  }

  lemma StepKeepsCall(cfg: Config, fc: FamilyConfig, now: real, l: Local, input: Input)
    requires CanStep(cfg, now, l, input)
    requires ValidClient(cfg.client) && fc.limits.maxCooldown > 0.0 && cfg.orgMaxCooldown > 0.0
    requires CallBounded(cfg.client, fc, l.caller) && PausesCovered(cfg, now, l)
    ensures CallBounded(cfg.client, fc, StepLocal(cfg, fc, now, l, input).caller)
  {
    if l.caller.pc.Answered? && input.SettleAt? {
      SettledCall(cfg, fc, now, l, input);
    } else if l.caller.pc.Deferring? {
      DeferredCall(cfg, fc, now, l, input);
    } else if l.caller.pc.BackingOff? {
      BackedOffCall(cfg, fc, now, l, input);
    } else {
      assert Times(0, FloorOf(cfg.client, fc)) == 0.0;
    }
  }

  // ----- The invariant of the whole system

  ghost predicate FamilyConserved(cfg: Config, s: State, f: nat)
    requires f < |s.families| == |cfg.families|
  {
    var family := s.families[f];
    && family.freeSlots >= 0
    && family.freeSlots + Count(s.callers, SlotHolder(f)) == cfg.families[f].slots
    && family.pacer.active == Count(s.callers, ActiveSender(f))
    && family.pacer.queued == Count(s.callers, QueueMember(f))
  }

  ghost predicate PermitsConserved(cfg: Config, s: State) {
    cfg.hasOrg ==>
      && s.org.freePermits >= 0
      && s.org.freePermits + Count(s.callers, PermitHolder()) == cfg.orgPermits
  }

  ghost predicate CallerSound(cfg: Config, s: State, i: nat)
    requires i < |s.callers| && |s.families| == |cfg.families|
  {
    var c := s.callers[i];
    c.pc.Idle? ||
    (&& c.family < |s.families|
     && ReadingSound(cfg, s.now, c)
     && CallBounded(cfg.client, cfg.families[c.family], c)
     && PausesCovered(cfg, s.now, Local(s.families[c.family], s.org, c)))
  }

  ghost predicate Inv(cfg: Config, s: State) {
    && |s.families| == |cfg.families|
    && (forall f :: 0 <= f < |s.families| ==> FamilyConserved(cfg, s, f) && WellSpaced(cfg, s.families[f]))
    && PermitsConserved(cfg, s)
    && forall i :: 0 <= i < |s.callers| ==> CallerSound(cfg, s, i)
  }

  lemma InitiallyInv(cfg: Config, s: State)
    requires ValidConfig(cfg) && Initial(cfg, s)
    ensures Inv(cfg, s)
  {
    forall f | 0 <= f < |s.families| ensures FamilyConserved(cfg, s, f) && WellSpaced(cfg, s.families[f]) {
      CountNone(s.callers, SlotHolder(f));
      CountNone(s.callers, ActiveSender(f));
      CountNone(s.callers, QueueMember(f));
    }
    CountNone(s.callers, PermitHolder());
  }

  /** What one caller's new place does to the counts of a family. */
  lemma CountsOfFamily(cs: seq<Caller>, who: nat, c: Caller, f: nat)
    requires who < |cs|
    ensures var b := cs[who];
            && Count(cs[who := c], SlotHolder(f)) - One(c.family == f && HoldsSlot(c.pc))
               == Count(cs, SlotHolder(f)) - One(b.family == f && HoldsSlot(b.pc))
            && Count(cs[who := c], ActiveSender(f)) - One(c.family == f && c.pc.InFlight?)
               == Count(cs, ActiveSender(f)) - One(b.family == f && b.pc.InFlight?)
            && Count(cs[who := c], QueueMember(f)) - One(c.family == f && InQueue(c.pc))
               == Count(cs, QueueMember(f)) - One(b.family == f && InQueue(b.pc))
  {
    CountUpdate(cs, SlotHolder(f), who, c);
    CountUpdate(cs, ActiveSender(f), who, c);
    CountUpdate(cs, QueueMember(f), who, c);
  }

  lemma StepKeepsFamily(cfg: Config, s: State, who: nat, input: Input, f: nat)
    requires Inv(cfg, s) && Legal(cfg, s, Act(who, input)) && f < |s.families|
    ensures FamilyConserved(cfg, Apply(cfg, s, Act(who, input)), f)
  {
    var g := FamilyOf(s.callers[who], input);
    var l := View(s, who, input);
    var m := StepLocal(cfg, cfg.families[g], s.now, l, input);
    StepConserves(cfg, cfg.families[g], s.now, l, input);
    assert FamilyConserved(cfg, s, f) && FamilyConserved(cfg, s, g);
    CountsOfFamily(s.callers, who, m.caller, f);
    SlotsRemain(cfg, s, who, input);
  }

  lemma SlotsRemain(cfg: Config, s: State, who: nat, input: Input)
    requires Legal(cfg, s, Act(who, input)) && View(s, who, input).family.freeSlots >= 0
    ensures var g := FamilyOf(s.callers[who], input);
            StepLocal(cfg, cfg.families[g], s.now, View(s, who, input), input).family.freeSlots >= 0
  {
  }

  lemma StepKeepsPermits(cfg: Config, s: State, who: nat, input: Input)
    requires Inv(cfg, s) && Legal(cfg, s, Act(who, input))
    ensures PermitsConserved(cfg, Apply(cfg, s, Act(who, input)))
  {
    var g := FamilyOf(s.callers[who], input);
    var l := View(s, who, input);
    StepConserves(cfg, cfg.families[g], s.now, l, input);
    CountUpdate(s.callers, PermitHolder(), who, StepLocal(cfg, cfg.families[g], s.now, l, input).caller);
  }

  /** Deadlines that only move forward keep a caller sound while others step. */
  lemma OthersStaySound(cfg: Config, s: State, t: State, i: nat)
    requires i < |s.callers| == |t.callers| && |s.families| == |t.families| == |cfg.families|
    requires CallerSound(cfg, s, i) && t.callers[i] == s.callers[i] && t.now == s.now
    requires t.org.deadline >= s.org.deadline
    requires forall f :: 0 <= f < |s.families| ==>
               t.families[f].pacer.nextAllowedAt >= s.families[f].pacer.nextAllowedAt
    ensures CallerSound(cfg, t, i)
  {
  }

  /** The caller that takes the step stays sound. */
  lemma ActorStaysSound(cfg: Config, s: State, who: nat, input: Input)
    requires ValidConfig(cfg) && Inv(cfg, s) && Legal(cfg, s, Act(who, input))
    ensures CallerSound(cfg, Apply(cfg, s, Act(who, input)), who)
  {
    var g := FamilyOf(s.callers[who], input);
    var l := View(s, who, input);
    assert CallerSound(cfg, s, who) && WellSpaced(cfg, s.families[g]);
    StepConserves(cfg, cfg.families[g], s.now, l, input);
    StepKeepsSpacing(cfg, cfg.families[g], s.now, l, input);
    StepKeepsPauses(cfg, cfg.families[g], s.now, l, input);
    StepKeepsCall(cfg, cfg.families[g], s.now, l, input);
  }

  lemma StepKeepsCallers(cfg: Config, s: State, who: nat, input: Input, i: nat)
    requires ValidConfig(cfg) && Inv(cfg, s) && Legal(cfg, s, Act(who, input)) && i < |s.callers|
    ensures CallerSound(cfg, Apply(cfg, s, Act(who, input)), i)
  {
    if i == who {
      ActorStaysSound(cfg, s, who, input);
    } else {
      var g := FamilyOf(s.callers[who], input);
      assert CallerSound(cfg, s, i) && WellSpaced(cfg, s.families[g]);
      StepKeepsDeadlines(cfg, cfg.families[g], s.now, View(s, who, input), input);
      OthersStaySound(cfg, s, Apply(cfg, s, Act(who, input)), i);
    }
  }

  lemma StepKeepsInv(cfg: Config, s: State, e: Event)
    requires ValidConfig(cfg) && Inv(cfg, s) && Legal(cfg, s, e)
    ensures Inv(cfg, Apply(cfg, s, e))
  {
    var t := Apply(cfg, s, e);
    match e
    case Tick(_) =>
      forall i | 0 <= i < |t.callers| ensures CallerSound(cfg, t, i) {
        assert CallerSound(cfg, s, i);
      }
      forall f | 0 <= f < |t.families| ensures FamilyConserved(cfg, t, f) {
        assert FamilyConserved(cfg, s, f);
      }
    case Act(who, input) =>
      var g := FamilyOf(s.callers[who], input);
      assert CallerSound(cfg, s, who) && WellSpaced(cfg, s.families[g]);
      forall f | 0 <= f < |t.families| ensures FamilyConserved(cfg, t, f) && WellSpaced(cfg, t.families[f]) {
        StepKeepsFamily(cfg, s, who, input, f);
        if f == g {
          StepKeepsSpacing(cfg, cfg.families[g], s.now, View(s, who, input), input);
        } else {
          assert WellSpaced(cfg, s.families[f]);
        }
      }
      StepKeepsPermits(cfg, s, who, input);
      forall i | 0 <= i < |t.callers| ensures CallerSound(cfg, t, i) {
        StepKeepsCallers(cfg, s, who, input, i);
      }
  }

  lemma {:induction false} RunKeepsInv(cfg: Config, s: State, es: seq<Event>, t: State)
    requires ValidConfig(cfg) && Inv(cfg, s) && Run(cfg, s, es, t)
    ensures Inv(cfg, t)
    decreases |es|
  {
    if es != [] {
      StepKeepsInv(cfg, s, es[0]);
      RunKeepsInv(cfg, Apply(cfg, s, es[0]), es[1..], t);
    }
  }

  lemma ReachableInv(cfg: Config, t: State)
    requires ValidConfig(cfg) && Reachable(cfg, t)
    ensures Inv(cfg, t)
  {
    var s, es :| Initial(cfg, s) && Run(cfg, s, es, t);
    InitiallyInv(cfg, s);
    RunKeepsInv(cfg, s, es, t);
  }
}
