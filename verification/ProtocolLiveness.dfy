/**
 Deadlock freedom, in a strong form: from every reachable state some continuation
 finishes every open call, with no caller raising out of a wait. Time may advance
 and every HTTP exchange may end.
 */
module ProtocolLiveness {
  import opened Basics
  import opened Throttle
  import opened Retry
  import opened Protocol
  import opened ProtocolSafety
  import opened ProtocolTheorems

  /** Whether a booking with the reading `at` would be admitted by the deadlines of `l`. */
  predicate InTime(cfg: Config, l: Local, at: real) {
    at >= l.family.pacer.nextAllowedAt && (cfg.hasOrg ==> at >= l.org.deadline)
  }

  /** How far a caller is from leaving its call when it runs alone. */
  function Distance(cfg: Config, l: Local): nat {
    match l.caller.pc
    case Idle => 0
    case ReturnSlot(next) => if next.Again? then 30 else 1
    case ReturnPermit(next) => if next.Again? then 31 else 2
    case Answered(answer, _) => if answer.Success? then 3 else 33
    case InFlight => 4
    case Admitted => 5
    case Booking(at, allowed, _) => if allowed && at >= l.family.pacer.nextAllowedAt then 6 else 20
    case CheckingOrg(at) => if InTime(cfg, l, at) then 7 else 21
    case ReadingClock => 8
    case WantPermit => 9
    case Outage => 10
    case OutageSleep(_) => 11
    case Pacing => 12
    case PacingSleep(_) => 13
    case Leaving => 14
    case Queued => 15
    case Joining => 16
    case WantSlot => 17
    case Rebuffed => 18
    case Deferring(_, _, _) => 32
    case BackingOff(_, _) => 32
  }

  /** The caller finds a slot and a permit if it lacks them. */
  predicate Provided(cfg: Config, l: Local) {
    && (!HoldsSlot(l.caller.pc) ==> l.family.freeSlots > 0)
    && (cfg.hasOrg && !HoldsPermit(l.caller.pc) ==> l.org.freePermits > 0)
  }

  /** A moment at which no deadline holds the caller back. */
  function LateEnough(now: real, l: Local): real {
    var wake := match l.caller.pc
                case PacingSleep(w) => w
                case OutageSleep(w) => w
                case _ => now;
    Max(Max(now, wake), Max(l.family.pacer.nextAllowedAt, l.org.deadline))
  }

  function SoloInput(l: Local): Input {
    match l.caller.pc
    case InFlight => Receive(Success, Missing)
    case Answered(_, _) => SettleAt(0.0)
    case _ => Go
  }

  /** A provided caller that runs alone, late enough, always gets closer to the end of its call. */
  lemma SoloStep(cfg: Config, fc: FamilyConfig, l: Local, now: real)
    requires !l.caller.pc.Idle? && Provided(cfg, l)
    requires l.family.freeSlots >= 0 && (cfg.hasOrg ==> l.org.freePermits >= 0)
    ensures var at := LateEnough(now, l);
            && at >= now
            && CanStep(cfg, at, l, SoloInput(l))
            && var m := StepLocal(cfg, fc, at, l, SoloInput(l));
               && Distance(cfg, m) < Distance(cfg, l)
               && Provided(cfg, m)
               && m.caller.family == l.caller.family
               && m.family.freeSlots >= 0 && (cfg.hasOrg ==> m.org.freePermits >= 0)
  {
    var at := LateEnough(now, l);
    StepConserves(cfg, fc, at, l, SoloInput(l));
  }

  ghost predicate CanGoAlone(cfg: Config, s: State, i: nat) {
    && Inv(cfg, s) && i < |s.callers| && s.callers[i].family < |s.families|
    && Provided(cfg, Local(s.families[s.callers[i].family], s.org, s.callers[i]))
  }

  function DistanceOf(cfg: Config, s: State, i: nat): nat
    requires i < |s.callers| && s.callers[i].family < |s.families|
  {
    Distance(cfg, Local(s.families[s.callers[i].family], s.org, s.callers[i]))
  }

  /** Let time pass until caller `i` can act, and let it act. */
  lemma SoloMove(cfg: Config, s: State, i: nat) returns (es: seq<Event>, t: State)
    requires ValidConfig(cfg) && CanGoAlone(cfg, s, i) && !s.callers[i].pc.Idle?
    ensures Run(cfg, s, es, t) && CanGoAlone(cfg, t, i) && DistanceOf(cfg, t, i) < DistanceOf(cfg, s, i)
    ensures |t.callers| == |s.callers| && forall j :: 0 <= j < |s.callers| && j != i ==> t.callers[j] == s.callers[j]
    ensures forall k :: 0 <= k < |es| ==> es[k].Tick? || (es[k].who == i && !es[k].input.Raise?)
  {
    var f := s.callers[i].family;
    var l := Local(s.families[f], s.org, s.callers[i]);
    assert FamilyConserved(cfg, s, f);
    SoloStep(cfg, cfg.families[f], l, s.now);
    var tick, act := Tick(LateEnough(s.now, l)), Act(i, SoloInput(l));
    var u := Apply(cfg, s, tick);
    t := Apply(cfg, u, act);
    StepKeepsInv(cfg, s, tick);
    StepKeepsInv(cfg, u, act);
    es := [tick, act];
    assert es[1..] == [act] && [act][1..] == [];
  }

  /** Run caller `i` alone until its call is over; the other callers keep their places. */
  lemma {:induction false} Drive(cfg: Config, s: State, i: nat) returns (es: seq<Event>, t: State)
    requires ValidConfig(cfg) && CanGoAlone(cfg, s, i)
    ensures Run(cfg, s, es, t) && Inv(cfg, t)
    ensures |t.callers| == |s.callers| && t.callers[i].pc.Idle?
    ensures forall j :: 0 <= j < |s.callers| && j != i ==> t.callers[j] == s.callers[j]
    ensures forall k :: 0 <= k < |es| ==> es[k].Tick? || (es[k].who == i && !es[k].input.Raise?)
    decreases DistanceOf(cfg, s, i)
  {
    if s.callers[i].pc.Idle? {
      es, t := [], s;
    } else {
      var first, u := SoloMove(cfg, s, i);
      var rest;
      rest, t := Drive(cfg, u, i);
      RunsCompose(cfg, s, first, u, rest, t);
      es := first + rest;
    }
  }

  /** In every state that keeps the invariant some busy caller has all it needs. */
  lemma SomeoneIsProvided(cfg: Config, s: State) returns (i: nat)
    requires ValidConfig(cfg) && Inv(cfg, s) && Count(s.callers, Busy()) > 0
    ensures i < |s.callers| && !s.callers[i].pc.Idle? && s.callers[i].family < |s.families|
    ensures Provided(cfg, Local(s.families[s.callers[i].family], s.org, s.callers[i]))
  {
    if cfg.hasOrg && Count(s.callers, PermitHolder()) > 0 {
      i := CountFindsOne(s.callers, PermitHolder());
    } else {
      i := CountFindsOne(s.callers, Busy());
      assert CallerSound(cfg, s, i);
      var f := s.callers[i].family;
      assert FamilyConserved(cfg, s, f);
      if Count(s.callers, SlotHolder(f)) > 0 {
        i := CountFindsOne(s.callers, SlotHolder(f));
      }
    }
    assert CallerSound(cfg, s, i);
  }

  lemma {:induction false} FinishAll(cfg: Config, s: State) returns (es: seq<Event>, t: State)
    requires ValidConfig(cfg) && Inv(cfg, s)
    ensures Run(cfg, s, es, t) && |t.callers| == |s.callers|
    ensures forall i :: 0 <= i < |t.callers| ==> t.callers[i].pc.Idle?
    ensures forall k :: 0 <= k < |es| ==> es[k].Tick? || !es[k].input.Raise?
    decreases Count(s.callers, Busy())
  {
    if Count(s.callers, Busy()) == 0 {
      es, t := [], s;
      forall i | 0 <= i < |s.callers| ensures s.callers[i].pc.Idle? {
        if !s.callers[i].pc.Idle? {
          CountAtLeastOne(s.callers, Busy(), i);
        }
      }
    } else {
      var i := SomeoneIsProvided(cfg, s);
      var fs, u := Drive(cfg, s, i);
      assert u.callers == s.callers[i := u.callers[i]];
      CountUpdate(s.callers, Busy(), i, u.callers[i]);
      var rest;
      rest, t := FinishAll(cfg, u);
      RunsCompose(cfg, s, fs, u, rest, t);
      es := fs + rest;
    }
  }

  ghost predicate Unraised(es: seq<Event>) {
    forall k :: 0 <= k < |es| ==> es[k].Tick? || !es[k].input.Raise?
  }

  ghost predicate AllIdle(t: State) {
    forall i :: 0 <= i < |t.callers| ==> t.callers[i].pc.Idle?
  }

  /** No reachable state is a dead end for any caller. */
  lemma EveryCallCanFinish(cfg: Config, s: State)
    requires ValidConfig(cfg) && Reachable(cfg, s)
    ensures exists es, t :: Run(cfg, s, es, t) && Unraised(es) && AllIdle(t) && |t.callers| == |s.callers|
  {
    ReachableInv(cfg, s);
    var es, t := FinishAll(cfg, s);
    assert Unraised(es) && AllIdle(t);
  }

  /** Some open caller can act, without raising, once the clock reads `now`. */
  predicate Enabled(cfg: Config, s: State, now: real, i: nat, input: Input) {
    now >= s.now && Legal(cfg, s.(now := now), Act(i, input)) && !input.Raise? && !s.callers[i].pc.Idle?
  }

  /** While a call is open, letting time pass enables a step of some open call. */
  lemma DeadlockFreedom(cfg: Config, s: State, busy: nat)
    requires ValidConfig(cfg) && Reachable(cfg, s) && busy < |s.callers| && !s.callers[busy].pc.Idle?
    ensures exists now, i: nat, input :: Enabled(cfg, s, now, i, input)
  {
    ReachableInv(cfg, s);
    CountAtLeastOne(s.callers, Busy(), busy);
    var i := SomeoneIsProvided(cfg, s);
    var l := Local(s.families[s.callers[i].family], s.org, s.callers[i]);
    assert FamilyConserved(cfg, s, s.callers[i].family);
    SoloStep(cfg, cfg.families[s.callers[i].family], l, s.now);
    assert Enabled(cfg, s, LateEnough(s.now, l), i, SoloInput(l));
  }

  /** A caller that sleeps or queues holds no permit, so it starves no other family. */
  lemma WaitersHoldNoPermit(cfg: Config, now: real, l: Local)
    requires !l.caller.pc.Idle? && forall input :: CanStep(cfg, now, l, input) ==> input.Raise?
    ensures !HoldsPermit(l.caller.pc)
    ensures l.caller.pc.Queued? || l.caller.pc.PacingSleep? || l.caller.pc.OutageSleep? || l.caller.pc.WantPermit?
  {
    assert !CanStep(cfg, now, l, Go);
    assert !CanStep(cfg, now, l, Receive(Success, Missing));
    assert !CanStep(cfg, now, l, SettleAt(0.0));
  }
}
