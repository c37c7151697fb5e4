/**
 The rate-limit and concurrency protocol as a state machine. Any number of
 callers share the slots and the deadline of their endpoint family, the org-wide
 permits and the org-wide deadline. A step is one atomic action of one caller:
 one semaphore operation, one clock reading, or one critical section of one lock.
 */
module Protocol {
  import opened Basics
  import opened Throttle
  import opened Retry

  datatype FamilyConfig = FamilyConfig(slots: nat, limits: Limits)

  datatype Config = Config(
    families: seq<FamilyConfig>,
    hasOrg: bool,
    orgPermits: nat,
    orgMaxCooldown: real,
    client: Client)

  ghost predicate ValidConfig(cfg: Config) {
    && cfg.orgPermits >= 1
    && cfg.orgMaxCooldown > 0.0
    && ValidClient(cfg.client)
    && forall f :: 0 <= f < |cfg.families| ==>
         cfg.families[f].slots >= 1 && cfg.families[f].limits.maxCooldown > 0.0
  }

  /** After giving everything back, the caller sends again, leaves a call that is decided, or leaves on an exception. */
  datatype Then = Again | Leave | Abandon

  /** Where a caller stands in `_send_request` and `acquire`. */
  datatype Pc =
    | Idle
    | WantSlot
    | Joining
    | Queued
    | Leaving
    | Pacing
    | PacingSleep(wake: real)
    | Outage
    | OutageSleep(wake: real)
    | WantPermit
    | ReadingClock
    | CheckingOrg(at: real)
    | Booking(at: real, allowed: bool, orgDeadline: real)
    | Rebuffed
    | Admitted
    | InFlight
    | Answered(answer: Answer, headers: Headers)
    | Deferring(answer: Answer, delay: real, elapsed: real)
    | BackingOff(answer: Answer, delay: real)
    | ReturnPermit(next: Then)
    | ReturnSlot(next: Then)

  predicate InQueue(pc: Pc) {
    pc.Queued? || pc.Leaving?
  }

  predicate HoldsSlot(pc: Pc) {
    !(pc.Idle? || pc.WantSlot? || pc.Joining? || pc.Queued?)
  }

  predicate HoldsPermit(pc: Pc) {
    && HoldsSlot(pc)
    && !(pc.Leaving? || pc.Pacing? || pc.PacingSleep? || pc.Outage? || pc.OutageSleep?
         || pc.WantPermit? || pc.ReturnSlot?)
  }

  /** One booked start: its timestamp, the spacing in force, and the org deadline it was checked against. */
  datatype Start = Start(at: real, gap: real, orgDeadline: real)

  /** `starts` lists the bookings, `heard` the quotas of the successful answers, both in order. */
  datatype Family = Family(freeSlots: int, pacer: Pacer, starts: seq<Start>, heard: seq<Quota>)

  datatype Org = Org(freePermits: int, deadline: real)

  /** `script` lists the exchanges of the call so far. */
  datatype Caller = Caller(family: nat, pc: Pc, call: Call, script: seq<Exchange>)

  datatype State = State(now: real, families: seq<Family>, org: Org, callers: seq<Caller>)

  /** What one caller can see and change in one step. */
  datatype Local = Local(family: Family, org: Org, caller: Caller)

  datatype Input =
    | Begin(family: nat, readTimeoutLimit: nat)
    | Go
    | Receive(answer: Answer, headers: Headers)
    | SettleAt(wall: real)
    | Raise

  predicate SaneAnswer(a: Answer) {
    match a
    case RateLimited(_, jitter) => 0.0 <= jitter < 1.0
    case ServerError(_, jitter) => 0.0 <= jitter < 1.0
    case ReadTimeout(jitter) => 0.0 <= jitter < 1.0
    case TransportFailure(jitter) => 0.0 <= jitter < 1.0
    case _ => true
  }

  /**
   Whether the caller of `l` can take the step `input` at time `now`. It may raise
   wherever the program gives back on an exception; the 401 handler is taken not to.
   */
  predicate CanStep(cfg: Config, now: real, l: Local, input: Input) {
    match l.caller.pc
    case Idle => input.Begin? && 1 <= input.readTimeoutLimit <= cfg.client.maxAttempts
    case WantSlot => input.Go?
    case Joining => input.Go?
    case Queued => input.Go? && l.family.freeSlots > 0
    case Leaving => input.Go?
    case PacingSleep(wake) => input.Raise? || (input.Go? && now >= wake)
    case OutageSleep(wake) => input.Raise? || (input.Go? && now >= wake)
    case WantPermit => input.Raise? || (input.Go? && (cfg.hasOrg ==> l.org.freePermits > 0))
    case InFlight => input.Receive? && SaneAnswer(input.answer)
    case Answered(answer, _) => input.SettleAt? || (input.Raise? && !answer.Unauthorized?)
    case Admitted => input.Go?
    case Deferring(_, _, _) => input.Go?
    case ReturnPermit(_) => input.Go?
    case ReturnSlot(_) => input.Go?
    case _ => input.Go? || input.Raise?
  }

  function At(l: Local, pc: Pc): Local {
    l.(caller := l.caller.(pc := pc))
  }

  function AddPermits(cfg: Config, l: Local, n: int): Local {
    if cfg.hasOrg then l.(org := l.org.(freePermits := l.org.freePermits + n)) else l
  }

  function WithPacer(l: Local, pacer: Pacer): Local {
    l.(family := l.family.(pacer := pacer))
  }

  /** Note a finished exchange in the script of the call. */
  function Noted(l: Local, answer: Answer, elapsed: real, granted: real): Local {
    l.(caller := l.caller.(script := l.caller.script + [Exchange(answer, elapsed, granted)]))
  }

  /** Observe the headers of a success, and remember having heard them. */
  function Heard(limits: Limits, l: Local, headers: Headers, wall: real, now: real): Local {
    l.(family := l.family.(
         pacer := Observed(limits, l.family.pacer, headers, wall, now),
         heard := if headers.Valid? then l.family.heard + [headers.quota] else l.family.heard))
  }

  function StepLocal(cfg: Config, fc: FamilyConfig, now: real, l: Local, input: Input): Local
    requires CanStep(cfg, now, l, input)
  {
    var pacer := l.family.pacer;
    var call := l.caller.call;
    if input.Raise? then
      At(l, if HoldsPermit(l.caller.pc) then ReturnPermit(Abandon) else ReturnSlot(Abandon))
    else
      match l.caller.pc
      case Idle =>
        l.(caller := Caller(input.family, WantSlot, NewCall(now, input.readTimeoutLimit), []))
      case WantSlot =>
        if l.family.freeSlots > 0 then
          At(l.(family := l.family.(freeSlots := l.family.freeSlots - 1)), Pacing)
        else At(l, Joining)
      case Joining => At(WithPacer(l, pacer.(queued := pacer.queued + 1)), Queued)
      case Queued => At(l.(family := l.family.(freeSlots := l.family.freeSlots - 1)), Leaving)
      case Leaving => At(WithPacer(l, pacer.(queued := pacer.queued - 1)), Pacing)
      case Pacing =>
        if pacer.nextAllowedAt <= now then At(l, if cfg.hasOrg then Outage else ReadingClock)
        else At(l, PacingSleep(pacer.nextAllowedAt))
      case PacingSleep(_) => At(l, Pacing)
      case Outage =>
        if l.org.deadline <= now then At(l, WantPermit) else At(l, OutageSleep(l.org.deadline))
      case OutageSleep(_) => At(l, Outage)
      case WantPermit => At(AddPermits(cfg, l, -1), ReadingClock)
      case ReadingClock => At(l, CheckingOrg(now))
      case CheckingOrg(at) => At(l, Booking(at, cfg.hasOrg ==> at >= l.org.deadline, l.org.deadline))
      case Booking(at, allowed, orgDeadline) =>
        if !allowed || at < pacer.nextAllowedAt then At(l, Rebuffed)
        else
          At(l.(family := l.family.(
                pacer := Booked(pacer, at),
                starts := l.family.starts + [Start(at, Spacing(pacer), orgDeadline)])), Admitted)
      case Rebuffed => At(AddPermits(cfg, l, 1), Pacing)
      case Admitted => At(WithPacer(l, pacer.(active := pacer.active + 1)), InFlight)
      case InFlight => At(WithPacer(l, pacer.(active := pacer.active - 1)), Answered(input.answer, input.headers))
      case Answered(answer, headers) =>
        var (call1, verdict) := Settle(cfg.client, call, answer);
        var l1 := l.(caller := l.caller.(call := call1));
        (match verdict
         case Stop =>
           At(Noted(if answer.Success? then Heard(fc.limits, l1, headers, input.wall, now) else l1, answer, 0.0, 0.0),
              ReturnPermit(Leave))
         case Resend => At(Noted(l1, answer, 0.0, 0.0), ReturnPermit(Again))
         case DeferFamily(delay) => At(l1, Deferring(answer, delay, Max(now - call.startedAt, 0.0)))
         case DeferOutage(delay) => At(l1, BackingOff(answer, delay)))
      case Deferring(answer, delay, elapsed) =>
        var effective := EffectiveDelay(fc.limits.maxCooldown, delay);
        var l1 := Noted(WithPacer(l, Deferred(fc.limits, pacer, now, delay, PROBE_INTERVAL)), answer, elapsed, effective);
        if RateBudgetLeft(cfg.client, elapsed, effective) then
          At(l1.(caller := l1.caller.(call := GrantRatePause(call, effective))), ReturnPermit(Again))
        else At(l1, ReturnPermit(Leave))
      case BackingOff(answer, delay) =>
        var effective := EffectiveDelay(if cfg.hasOrg then cfg.orgMaxCooldown else fc.limits.maxCooldown, delay);
        var l1 := Noted(l.(caller := l.caller.(call := GrantOutagePause(call, effective))), answer, 0.0, effective);
        At(if cfg.hasOrg
           then l1.(org := l.org.(deadline := DeferredDeadline(cfg.orgMaxCooldown, l.org.deadline, now, delay)))
           else WithPacer(l1, Deferred(fc.limits, pacer, now, delay, 0.0)),
           ReturnPermit(Again))
      case ReturnPermit(next) => At(AddPermits(cfg, l, 1), ReturnSlot(next))
      case ReturnSlot(next) =>
        var l1 := l.(family := l.family.(freeSlots := l.family.freeSlots + 1));
        if next.Again? then At(l1.(caller := l.caller.(call := call.(attempt := call.attempt + 1))), WantSlot)
        else At(l1, Idle)
  }

  // ----- Global steps and runs

  datatype Event = Tick(to: real) | Act(who: nat, input: Input)

  /** The family a step works on: the one it begins a call for, else the caller's own. */
  function FamilyOf(c: Caller, input: Input): nat {
    if c.pc.Idle? && input.Begin? then input.family else c.family
  }

  function View(s: State, who: nat, input: Input): Local
    requires who < |s.callers| && FamilyOf(s.callers[who], input) < |s.families|
  {
    Local(s.families[FamilyOf(s.callers[who], input)], s.org, s.callers[who])
  }

  predicate Legal(cfg: Config, s: State, e: Event) {
    match e
    case Tick(to) => to >= s.now
    case Act(who, input) =>
      && who < |s.callers|
      && FamilyOf(s.callers[who], input) < |s.families| == |cfg.families|
      && CanStep(cfg, s.now, View(s, who, input), input)
  }

  function Apply(cfg: Config, s: State, e: Event): State
    requires Legal(cfg, s, e)
  {
    match e
    case Tick(to) => s.(now := to)
    case Act(who, input) =>
      var f := FamilyOf(s.callers[who], input);
      var l := StepLocal(cfg, cfg.families[f], s.now, View(s, who, input), input);
      s.(families := s.families[f := l.family], org := l.org, callers := s.callers[who := l.caller])
  }

  ghost predicate Run(cfg: Config, s: State, es: seq<Event>, t: State)
    decreases |es|
  {
    if es == [] then s == t
    else Legal(cfg, s, es[0]) && Run(cfg, Apply(cfg, s, es[0]), es[1..], t)
  }

  ghost predicate Initial(cfg: Config, s: State) {
    && |s.families| == |cfg.families|
    && (forall f :: 0 <= f < |s.families| ==> s.families[f] == Family(cfg.families[f].slots, FreshPacer, [], []))
    && s.org == Org(cfg.orgPermits, 0.0)
    && forall i :: 0 <= i < |s.callers| ==> s.callers[i].pc.Idle?
  }

  ghost predicate Reachable(cfg: Config, t: State) {
    exists s, es :: Initial(cfg, s) && Run(cfg, s, es, t)
  }

  lemma {:induction false} RunsCompose(cfg: Config, s: State, es: seq<Event>, t: State, fs: seq<Event>, u: State)
    requires Run(cfg, s, es, t) && Run(cfg, t, fs, u)
    ensures Run(cfg, s, es + fs, u)
    decreases |es|
  {
    if es == [] {
      assert es + fs == fs;
    } else {
      RunsCompose(cfg, Apply(cfg, s, es[0]), es[1..], t, fs, u);
      assert (es + fs)[0] == es[0] && (es + fs)[1..] == es[1..] + fs;
    }
  }

  // ----- Counting callers

  function Count(cs: seq<Caller>, p: Caller -> bool): nat {
    if cs == [] then 0
    else Count(cs[..|cs| - 1], p) + (if p(cs[|cs| - 1]) then 1 else 0)
  }

  function One(b: bool): int {
    if b then 1 else 0
  }

  lemma {:induction false} CountUpdate(cs: seq<Caller>, p: Caller -> bool, i: nat, c: Caller)
    requires i < |cs|
    ensures Count(cs[i := c], p) == Count(cs, p) - One(p(cs[i])) + One(p(c))
  {
    var n := |cs| - 1;
    if i == n {
      assert cs[i := c][..n] == cs[..n];
    } else {
      CountUpdate(cs[..n], p, i, c);
      assert cs[i := c][..n] == cs[..n][i := c];
    }
  }

  lemma {:induction false} CountMonotone(cs: seq<Caller>, p: Caller -> bool, q: Caller -> bool)
    requires forall i :: 0 <= i < |cs| && p(cs[i]) ==> q(cs[i])
    ensures Count(cs, p) <= Count(cs, q)
  {
    if cs != [] {
      CountMonotone(cs[..|cs| - 1], p, q);
    }
  }

  lemma {:induction false} CountFindsOne(cs: seq<Caller>, p: Caller -> bool) returns (i: nat)
    requires Count(cs, p) > 0
    ensures i < |cs| && p(cs[i])
  {
    var n := |cs| - 1;
    if p(cs[n]) {
      i := n;
    } else {
      i := CountFindsOne(cs[..n], p);
    }
  }

  lemma {:induction false} CountNone(cs: seq<Caller>, p: Caller -> bool)
    requires forall i :: 0 <= i < |cs| ==> !p(cs[i])
    ensures Count(cs, p) == 0
  {
    if cs != [] {
      CountNone(cs[..|cs| - 1], p);
    }
  }

  function SlotHolder(f: nat): Caller -> bool {
    (c: Caller) => c.family == f && HoldsSlot(c.pc)
  }

  function ActiveSender(f: nat): Caller -> bool {
    (c: Caller) => c.family == f && c.pc.InFlight?
  }

  function QueueMember(f: nat): Caller -> bool {
    (c: Caller) => c.family == f && InQueue(c.pc)
  }

  function PermitHolder(): Caller -> bool {
    (c: Caller) => HoldsPermit(c.pc)
  }

  function Busy(): Caller -> bool {
    (c: Caller) => !c.pc.Idle?
  }
}
