/**
 Whom a pause stops: a 429 the family of its caller and nobody else, an outage every
 family of the org, from the moment the pause is granted until it is over.
 */
module ProtocolPauses {
  import opened Basics
  import opened Throttle
  import opened Protocol
  import opened ProtocolSafety

  // ----- The pause of one family

  lemma StepRespectsDeadline(cfg: Config, fc: FamilyConfig, now: real, l: Local, input: Input)
    requires CanStep(cfg, now, l, input)
    ensures var m := StepLocal(cfg, fc, now, l, input);
            && l.family.starts <= m.family.starts
            && forall k :: |l.family.starts| <= k < |m.family.starts| ==>
                 m.family.starts[k].at >= l.family.pacer.nextAllowedAt
  {
  }

  /** Whatever happens, a family books nothing with a timestamp before the deadline it has now. */
  lemma {:induction false} StartsRespectDeadline(cfg: Config, s: State, es: seq<Event>, t: State, f: nat)
    requires ValidConfig(cfg) && Inv(cfg, s) && Run(cfg, s, es, t) && f < |s.families|
    ensures |t.families| == |s.families| && s.families[f].starts <= t.families[f].starts
    ensures forall k :: |s.families[f].starts| <= k < |t.families[f].starts| ==>
              t.families[f].starts[k].at >= s.families[f].pacer.nextAllowedAt
    decreases |es|
  {
    if es != [] {
      var u := Apply(cfg, s, es[0]);
      StepKeepsInv(cfg, s, es[0]);
      EventRespectsDeadline(cfg, s, es[0], f);
      StartsRespectDeadline(cfg, u, es[1..], t, f);
      forall k | |s.families[f].starts| <= k < |t.families[f].starts|
        ensures t.families[f].starts[k].at >= s.families[f].pacer.nextAllowedAt
      {
        if k < |u.families[f].starts| {
          assert t.families[f].starts[k] == u.families[f].starts[k];
        }
      }
    }
  }

  lemma EventRespectsDeadline(cfg: Config, s: State, e: Event, f: nat)
    requires ValidConfig(cfg) && Inv(cfg, s) && Legal(cfg, s, e) && f < |s.families|
    ensures var u := Apply(cfg, s, e);
            && |u.families| == |s.families| && s.families[f].starts <= u.families[f].starts
            && u.families[f].pacer.nextAllowedAt >= s.families[f].pacer.nextAllowedAt
            && forall k :: |s.families[f].starts| <= k < |u.families[f].starts| ==>
                 u.families[f].starts[k].at >= s.families[f].pacer.nextAllowedAt
  {
    if e.Act? {
      var g := FamilyOf(s.callers[e.who], e.input);
      assert WellSpaced(cfg, s.families[g]);
      StepRespectsDeadline(cfg, cfg.families[g], s.now, View(s, e.who, e.input), e.input);
      StepKeepsDeadlines(cfg, cfg.families[g], s.now, View(s, e.who, e.input), e.input);
    }
  }

  /** The deadline and no more of one family is moved, exactly to the end of the pause unless it is later already. */
  ghost predicate OnlyFamilyPaused(s: State, u: State, f: nat, end: real) {
    && f < |s.families| == |u.families| && u.org == s.org && u.now == s.now
    && u.families[f].pacer.nextAllowedAt == Max(s.families[f].pacer.nextAllowedAt, end)
    && u.families[f].starts == s.families[f].starts
    && forall g :: 0 <= g < |s.families| && g != f ==> u.families[g] == s.families[g]
  }

  /**
   A 429 pauses the family of its caller: from then on no caller books a start of that
   family with a timestamp before the end of the pause. The other families and the org
   are left alone.
   */
  lemma RateLimitPauseHolds(cfg: Config, s: State, who: nat, es: seq<Event>, t: State)
    requires ValidConfig(cfg) && Reachable(cfg, s) && Legal(cfg, s, Act(who, Go))
    requires s.callers[who].pc.Deferring? && s.callers[who].pc.delay > 0.0
    requires Run(cfg, Apply(cfg, s, Act(who, Go)), es, t)
    ensures var f := s.callers[who].family;
            var end := s.now + Min(s.callers[who].pc.delay, cfg.families[f].limits.maxCooldown);
            && OnlyFamilyPaused(s, Apply(cfg, s, Act(who, Go)), f, end)
            && |t.families| == |s.families|
            && forall k :: |s.families[f].starts| <= k < |t.families[f].starts| ==> t.families[f].starts[k].at >= end
  {
    ReachableInv(cfg, s);
    StepKeepsInv(cfg, s, Act(who, Go));
    StartsRespectDeadline(cfg, Apply(cfg, s, Act(who, Go)), es, t, s.callers[who].family);
  }

  /** Without an org throttle, an outage pauses the family of its caller in the same way. */
  lemma LoneOutagePauseHolds(cfg: Config, s: State, who: nat, es: seq<Event>, t: State)
    requires ValidConfig(cfg) && !cfg.hasOrg && Reachable(cfg, s) && Legal(cfg, s, Act(who, Go))
    requires s.callers[who].pc.BackingOff? && s.callers[who].pc.delay > 0.0
    requires Run(cfg, Apply(cfg, s, Act(who, Go)), es, t)
    ensures var f := s.callers[who].family;
            var end := s.now + Min(s.callers[who].pc.delay, cfg.families[f].limits.maxCooldown);
            && OnlyFamilyPaused(s, Apply(cfg, s, Act(who, Go)), f, end)
            && |t.families| == |s.families|
            && forall k :: |s.families[f].starts| <= k < |t.families[f].starts| ==> t.families[f].starts[k].at >= end
  {
    ReachableInv(cfg, s);
    StepKeepsInv(cfg, s, Act(who, Go));
    StartsRespectDeadline(cfg, Apply(cfg, s, Act(who, Go)), es, t, s.callers[who].family);
  }

  // ----- The pause of the org

  /** An org check that caller `i` has passed was passed by a reading not before `end`. */
  ghost predicate ChecksPass(s: State, i: nat, end: real) {
    && i < |s.callers| && s.org.deadline >= end
    && (s.callers[i].pc.Booking? && s.callers[i].pc.allowed ==> s.callers[i].pc.at >= end)
  }

  lemma StepChecks(cfg: Config, fc: FamilyConfig, now: real, l: Local, input: Input)
    requires CanStep(cfg, now, l, input) && cfg.hasOrg
    ensures var m := StepLocal(cfg, fc, now, l, input);
            && m.org.deadline >= l.org.deadline
            && (m.caller.pc.Booking? && m.caller.pc.allowed ==> m.caller.pc.at >= l.org.deadline)
  {
  }

  lemma {:induction false} RunChecks(cfg: Config, s: State, es: seq<Event>, t: State, i: nat, end: real)
    requires cfg.hasOrg && ChecksPass(s, i, end) && Run(cfg, s, es, t)
    ensures ChecksPass(t, i, end)
    decreases |es|
  {
    if es != [] {
      if es[0].Act? {
        var g := FamilyOf(s.callers[es[0].who], es[0].input);
        StepChecks(cfg, cfg.families[g], s.now, View(s, es[0].who, es[0].input), es[0].input);
      }
      RunChecks(cfg, Apply(cfg, s, es[0]), es[1..], t, i, end);
    }
  }

  lemma {:induction false} OrgDeadlineGrows(cfg: Config, s: State, es: seq<Event>, t: State)
    requires cfg.hasOrg && Run(cfg, s, es, t)
    ensures t.org.deadline >= s.org.deadline
    decreases |es|
  {
    if es != [] {
      if es[0].Act? {
        var g := FamilyOf(s.callers[es[0].who], es[0].input);
        StepChecks(cfg, cfg.families[g], s.now, View(s, es[0].who, es[0].input), es[0].input);
      }
      OrgDeadlineGrows(cfg, Apply(cfg, s, es[0]), es[1..], t);
    }
  }

  /** An outage moves the org deadline to the end of its pause unless it is later already, and no family's. */
  lemma OutagePausesOrg(cfg: Config, s: State, who: nat)
    requires cfg.hasOrg && Legal(cfg, s, Act(who, Go)) && s.callers[who].pc.BackingOff? && s.callers[who].pc.delay > 0.0
    ensures var u := Apply(cfg, s, Act(who, Go));
            && u.org == s.org.(deadline := Max(s.org.deadline, s.now + Min(s.callers[who].pc.delay, cfg.orgMaxCooldown)))
            && u.families == s.families
  {
  }

  /**
   With an org throttle, an outage pauses every family: after the pause is granted, run
   on to any state `v` in which caller `i` is not between its org check and its booking,
   and on to its next booking. Its timestamp is not before the end of the pause, whatever
   family it is of: no booking whose org check came after the grant starts too early.
   */
  lemma OutagePauseHolds(
      cfg: Config, s: State, who: nat, es: seq<Event>, v: State, fs: seq<Event>, w: State, i: nat)
    requires cfg.hasOrg && Legal(cfg, s, Act(who, Go))
    requires s.callers[who].pc.BackingOff? && s.callers[who].pc.delay > 0.0
    requires Run(cfg, Apply(cfg, s, Act(who, Go)), es, v) && i < |v.callers| && !v.callers[i].pc.Booking?
    requires Run(cfg, v, fs, w) && Legal(cfg, w, Act(i, Go)) && w.callers[i].pc.Booking?
    requires Apply(cfg, w, Act(i, Go)).callers[i].pc.Admitted?
    ensures var f := w.callers[i].family;
            var end := s.now + Min(s.callers[who].pc.delay, cfg.orgMaxCooldown);
            var starts := Apply(cfg, w, Act(i, Go)).families[f].starts;
            && |starts| == |w.families[f].starts| + 1 && starts[|starts| - 1].at >= end
  {
    var end := s.now + Min(s.callers[who].pc.delay, cfg.orgMaxCooldown);
    OutagePausesOrg(cfg, s, who);
    OrgDeadlineGrows(cfg, Apply(cfg, s, Act(who, Go)), es, v);
    RunChecks(cfg, v, fs, w, i, end);
  }
}
