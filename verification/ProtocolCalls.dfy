/**
 What the interleaving leaves untouched: every call of every caller decides as the
 sequential retry loop does on the answers it got, and every family remembers its
 answers as if it had heard them alone.
 */
module ProtocolCalls {
  import opened Basics
  import opened Throttle
  import opened Retry
  import opened RetryLaws
  import opened Protocol

  // ----- One call

  /** The fresh call that `c` started as. */
  function Origin(c: Call): Call {
    NewCall(c.startedAt, c.readTimeoutLimit)
  }

  /** The call has used its whole script and goes on with the counters of the sequential loop. */
  ghost predicate InLoop(client: Client, c: Call, script: seq<Exchange>) {
    Used(client, Origin(c), script) && c == Final(client, Origin(c), script).(attempt := c.attempt)
  }

  /** The last answer, not yet in the script, has been settled with the verdict `v`. */
  ghost predicate Settled(client: Client, c: Call, script: seq<Exchange>, a: Answer, v: Verdict) {
    && Used(client, Origin(c), script)
    && Settle(client, Final(client, Origin(c), script).(attempt := c.attempt), a) == (c, v)
  }

  /** The script of the call ends with the exchange that ends the sequential loop. */
  ghost predicate Over(client: Client, c: Call, script: seq<Exchange>) {
    var (ending, sends) := Outcome(client, Origin(c), script);
    !ending.StillSending? && sends == |script|
  }

  predicate Decided(pc: Pc) {
    (pc.ReturnPermit? || pc.ReturnSlot?) && pc.next.Leave?
  }

  predicate Abandoned(pc: Pc) {
    (pc.ReturnPermit? || pc.ReturnSlot?) && pc.next.Abandon?
  }

  ghost predicate Follows(client: Client, c: Caller) {
    if c.pc.Idle? || Abandoned(c.pc) then true
    else if Decided(c.pc) then Over(client, c.call, c.script)
    else if c.pc.Deferring? then Settled(client, c.call, c.script, c.pc.answer, DeferFamily(c.pc.delay))
    else if c.pc.BackingOff? then Settled(client, c.call, c.script, c.pc.answer, DeferOutage(c.pc.delay))
    else InLoop(client, c.call, c.script)
  }

  /** The number of the attempt decides nothing. */
  lemma AttemptDecidesNothing(client: Client, c: Call, n: nat, x: Exchange)
    ensures var (c1, ending) := After(client, c, x);
            After(client, c.(attempt := n), x) == (c1.(attempt := n), ending)
    ensures var (c1, v) := Settle(client, c, x.answer);
            Settle(client, c.(attempt := n), x.answer) == (c1.(attempt := n), v)
  {
  }

  lemma {:induction false} FinalKeepsOrigin(client: Client, c: Call, script: seq<Exchange>)
    ensures Origin(Final(client, c, script)) == Origin(c)
    decreases |script|
  {
    if script != [] {
      FinalKeepsOrigin(client, After(client, c, script[0]).0, script[1..]);
    }
  }

  /** A call that is in the loop stays in it, or is over, with one more exchange. */
  lemma OneMoreInLoop(client: Client, c: Call, script: seq<Exchange>, x: Exchange)
    requires InLoop(client, c, script)
    ensures var (c1, ending) := After(client, c, x);
            && Origin(c1) == Origin(c)
            && if ending.StillSending? then InLoop(client, c1, script + [x]) else Over(client, c1, script + [x])
  {
    var f := Final(client, Origin(c), script);
    AttemptDecidesNothing(client, f, c.attempt, x);
    OneMoreExchange(client, Origin(c), script, x);
  }

  /** An answer that was settled with a pause: once the pause is granted or refused, the exchange is complete. */
  lemma SettledCompletes(client: Client, c: Call, script: seq<Exchange>, a: Answer, v: Verdict, x: Exchange, c0: Call)
    requires InLoop(client, c0, script) && x.answer == a && Settle(client, c0, a) == (c, v)
    requires v.DeferFamily? || v.DeferOutage?
    ensures Origin(c) == Origin(c0)
    ensures v.DeferFamily? ==>
              if RateBudgetLeft(client, x.elapsed, x.granted)
              then InLoop(client, GrantRatePause(c, x.granted), script + [x]) else Over(client, c, script + [x])
    ensures v.DeferOutage? ==> InLoop(client, GrantOutagePause(c, x.granted), script + [x])
  {
    OneMoreInLoop(client, c0, script, x);
  }

  lemma SettledFromLoop(client: Client, c: Call, script: seq<Exchange>, a: Answer, v: Verdict) returns (c0: Call)
    requires Settled(client, c, script, a, v)
    ensures InLoop(client, c0, script) && Settle(client, c0, a) == (c, v)
  {
    FinalKeepsOrigin(client, Origin(c), script);
    c0 := Final(client, Origin(c), script).(attempt := c.attempt);
  }

  lemma AnswerFollows(cfg: Config, fc: FamilyConfig, now: real, l: Local, input: Input)
    requires CanStep(cfg, now, l, input) && l.caller.pc.Answered? && input.SettleAt?
    requires Follows(cfg.client, l.caller)
    ensures Follows(cfg.client, StepLocal(cfg, fc, now, l, input).caller)
  {
    var c := l.caller;
    var x := Exchange(c.pc.answer, 0.0, 0.0);
    OneMoreInLoop(cfg.client, c.call, c.script, x);
    FinalKeepsOrigin(cfg.client, Origin(c.call), c.script);
  }

  lemma DeferringFollows(cfg: Config, fc: FamilyConfig, now: real, l: Local, input: Input)
    requires CanStep(cfg, now, l, input) && l.caller.pc.Deferring? && input.Go?
    requires Follows(cfg.client, l.caller)
    ensures Follows(cfg.client, StepLocal(cfg, fc, now, l, input).caller)
  {
    var c := l.caller;
    var c0 := SettledFromLoop(cfg.client, c.call, c.script, c.pc.answer, DeferFamily(c.pc.delay));
    var x := Exchange(c.pc.answer, c.pc.elapsed, EffectiveDelay(fc.limits.maxCooldown, c.pc.delay));
    SettledCompletes(cfg.client, c.call, c.script, c.pc.answer, DeferFamily(c.pc.delay), x, c0);
  }

  lemma BackingOffFollows(cfg: Config, fc: FamilyConfig, now: real, l: Local, input: Input)
    requires CanStep(cfg, now, l, input) && l.caller.pc.BackingOff? && input.Go?
    requires Follows(cfg.client, l.caller)
    ensures Follows(cfg.client, StepLocal(cfg, fc, now, l, input).caller)
  {
    var c := l.caller;
    var c0 := SettledFromLoop(cfg.client, c.call, c.script, c.pc.answer, DeferOutage(c.pc.delay));
    var cap := if cfg.hasOrg then cfg.orgMaxCooldown else fc.limits.maxCooldown;
    SettledCompletes(cfg.client, c.call, c.script, c.pc.answer, DeferOutage(c.pc.delay),
                     Exchange(c.pc.answer, 0.0, EffectiveDelay(cap, c.pc.delay)), c0);
  }

  lemma StepFollows(cfg: Config, fc: FamilyConfig, now: real, l: Local, input: Input)
    requires CanStep(cfg, now, l, input) && Follows(cfg.client, l.caller)
    ensures Follows(cfg.client, StepLocal(cfg, fc, now, l, input).caller)
  {
    if input.SettleAt? {
      AnswerFollows(cfg, fc, now, l, input);
    } else if l.caller.pc.Deferring? && input.Go? {
      DeferringFollows(cfg, fc, now, l, input);
    } else if l.caller.pc.BackingOff? && input.Go? {
      BackingOffFollows(cfg, fc, now, l, input);
    }
  }

  // ----- One family

  /** The family remembers the latest, tightest quota of all it has heard. */
  ghost predicate Remembers(family: Family) {
    if family.heard == [] then family.pacer.observed == None
    else family.pacer.observed.Some? && IsLatestTightest(family.pacer.observed.value, family.heard)
  }

  lemma HeardIsRemembered(limits: Limits, l: Local, headers: Headers, wall: real, now: real)
    requires Remembers(l.family)
    ensures Remembers(Heard(limits, l, headers, wall, now).family)
  {
  }

  lemma StepRemembers(cfg: Config, fc: FamilyConfig, now: real, l: Local, input: Input)
    requires CanStep(cfg, now, l, input) && Remembers(l.family)
    ensures Remembers(StepLocal(cfg, fc, now, l, input).family)
  {
    if input.SettleAt? {
      HeardIsRemembered(fc.limits, l, l.caller.pc.headers, input.wall, now);
    }
  }

  /** A success adds its quota to what the family has heard, and nothing else does. */
  lemma SuccessIsHeard(cfg: Config, fc: FamilyConfig, now: real, l: Local, input: Input)
    requires CanStep(cfg, now, l, input)
    ensures var m := StepLocal(cfg, fc, now, l, input);
            var pc := l.caller.pc;
            m.family.heard
            == if input.SettleAt? && pc.Answered? && pc.answer.Success? && pc.headers.Valid?
               then l.family.heard + [pc.headers.quota] else l.family.heard
  {
  }

  // ----- All calls and families, over every run

  ghost predicate AllFollow(cfg: Config, s: State) {
    && (forall i :: 0 <= i < |s.callers| ==> Follows(cfg.client, s.callers[i]))
    && forall f :: 0 <= f < |s.families| ==> Remembers(s.families[f])
  }

  lemma ActFollows(cfg: Config, s: State, who: nat, input: Input)
    requires AllFollow(cfg, s) && Legal(cfg, s, Act(who, input))
    ensures AllFollow(cfg, Apply(cfg, s, Act(who, input)))
  {
    var f := FamilyOf(s.callers[who], input);
    StepFollows(cfg, cfg.families[f], s.now, View(s, who, input), input);
    StepRemembers(cfg, cfg.families[f], s.now, View(s, who, input), input);
  }

  lemma {:induction false} RunFollows(cfg: Config, s: State, es: seq<Event>, t: State)
    requires AllFollow(cfg, s) && Run(cfg, s, es, t)
    ensures AllFollow(cfg, t)
    decreases |es|
  {
    if es != [] {
      if es[0].Act? {
        ActFollows(cfg, s, es[0].who, es[0].input);
      }
      RunFollows(cfg, Apply(cfg, s, es[0]), es[1..], t);
    }
  }

  /** In every reachable state every call follows the sequential loop, and every family remembers what it heard. */
  lemma ReachableFollows(cfg: Config, t: State)
    requires Reachable(cfg, t)
    ensures AllFollow(cfg, t)
  {
    var s, es :| Initial(cfg, s) && Run(cfg, s, es, t);
    RunFollows(cfg, s, es, t);
  }

  /**
   Every call, in every interleaving: a caller that gives back to leave, and was not
   interrupted by an exception, leaves exactly because its last exchange is the first
   after which the sequential loop does not go on; a caller that gives back to send
   again does so exactly because that loop goes on after all its exchanges.
   */
  lemma CallsDecideLikeTheLoop(cfg: Config, t: State, i: nat)
    requires Reachable(cfg, t) && i < |t.callers|
    ensures var c := t.callers[i];
            var n := |c.script|;
            && (Decided(c.pc) ==>
                  && n > 0 && !GoesOnAt(cfg.client, c.call.readTimeoutLimit, c.script, n - 1)
                  && forall k :: 0 <= k < n - 1 ==> GoesOnAt(cfg.client, c.call.readTimeoutLimit, c.script, k))
            && ((c.pc.ReturnPermit? || c.pc.ReturnSlot?) && c.pc.next.Again? ==>
                  forall k :: 0 <= k < n ==> GoesOnAt(cfg.client, c.call.readTimeoutLimit, c.script, k))
  {
    ReachableFollows(cfg, t);
    var c := t.callers[i];
    assert Follows(cfg.client, c);
    StopsAtFirst(cfg.client, Origin(c.call), c.script);
  }

  /** The pause a caller is about to take is the one its hint and the number of such answers before ask for. */
  lemma PausesAreAskedFor(cfg: Config, t: State, i: nat)
    requires Reachable(cfg, t) && i < |t.callers|
    ensures var c := t.callers[i];
            && (c.pc.Deferring? ==>
                  && c.pc.answer.RateLimited?
                  && c.pc.delay
                     == RetryDelay(cfg.client, c.pc.answer.hint, CountRateLimited(c.script) + 1, c.pc.answer.jitter))
            && (c.pc.BackingOff? ==>
                  && IsTransient(c.pc.answer)
                  && c.pc.delay
                     == RetryDelay(cfg.client, if c.pc.answer.ServerError? then c.pc.answer.hint else NoHint,
                                   CountTransient(c.script) + 1, c.pc.answer.jitter))
  {
    ReachableFollows(cfg, t);
    var c := t.callers[i];
    assert Follows(cfg.client, c);
    if c.pc.Deferring? || c.pc.BackingOff? {
      DelayFollowsCounts(cfg.client, Origin(c.call), c.script, c.pc.answer);
      var f := Final(cfg.client, Origin(c.call), c.script);
      AttemptDecidesNothing(cfg.client, f, c.call.attempt, Exchange(c.pc.answer, 0.0, 0.0));
    }
  }

  /** Every family, in every interleaving, remembers the latest, tightest quota of the successes its callers settled. */
  lemma FamiliesRemember(cfg: Config, t: State, f: nat)
    requires Reachable(cfg, t) && f < |t.families|
    ensures var family := t.families[f];
            if family.heard == [] then family.pacer.observed == None
            else family.pacer.observed.Some? && IsLatestTightest(family.pacer.observed.value, family.heard)
  {
    ReachableFollows(cfg, t);
  }
}
