/**
 The budgets of a sender, counted by what its frames claim: how many force, urgent and
 other frames one alias gets through, and when it is told that it is rate limited.
 */
module Budgets {
  import opened Common
  import opened RateLimit
  import opened Broker
  import opened Membership
  import opened Throughput
  import opened Rooms

  // ---- what a frame claims ----

  /** A force message, or a control frame that stops or redirects its target. */
  predicate ClaimsForce(f: Frame) {
    match f
    case MsgFrame(m) => m.priority == Some(Force)
    case CtlFrame(c) => c.action == Some("abort") || c.action == Some("redirect")
    case _ => false
  }

  predicate ClaimsUrgent(f: Frame) { f.MsgFrame? && f.msg.priority == Some(Urgent) }

  /** Any message, reply or control frame. */
  predicate Claims(f: Frame) { f.MsgFrame? || f.CtlFrame? || f.ReplyFrame? }

  /** `perMin` at once, and as many per minute. */
  function Budget(perMin: int, ms: int): real {
    Max(perMin, 0) as real + Max(perMin, 0) as real * (ms as real / 60000.0)
  }

  lemma BudgetIsAllowance(perMin: int, ms: int)
    ensures Allowance(perMin, ms) == Budget(perMin, ms)
  {}

  /** Frames that satisfy `claims` are charged to bucket `kind`. */
  ghost predicate ChargesOnly(claims: Frame -> bool, kind: Kind) {
    forall step: Step :: step.Deliver? && Claims(step.frame) && claims(step.frame) ==>
      ChargedTo(CallOf(step), CallOf(step).alias, kind)
  }

  lemma ForceIsChargedToForce()
    ensures ChargesOnly(ClaimsForce, ForceKind) && ChargesOnly(ClaimsUrgent, UrgentKind)
      && ChargesOnly(Claims, MsgKind)
  {}

  // ---- what gets through ----

  /** A frame of `alias` with this claim that is not answered with an error. */
  ghost predicate GetsThrough(s: State, cfg: BrokerConfig, step: Step, alias: Alias, claims: Frame -> bool) {
    step.Deliver? && Claims(step.frame) && claims(step.frame) && step.frame.From() == Some(alias)
    && !HasError(Next(s, cfg, step).1)
  }

  ghost function GotThrough(cfg: BrokerConfig, steps: seq<Step>, alias: Alias, claims: Frame -> bool, t1: int,
      t2: int): nat {
    if steps == [] then 0
    else
      var front, step := steps[..|steps| - 1], steps[|steps| - 1];
      GotThrough(cfg, front, alias, claims, t1, t2)
      + if GetsThrough(Run(cfg, front), cfg, step, alias, claims) && t1 < step.now <= t2 then 1 else 0
  }

  lemma StrangerIsRefused(s: State, cfg: BrokerConfig, step: Step)
    requires step.Deliver? && !step.frame.HelloFrame? && !Authed(s, step.sock, step.frame)
    ensures HasError(Next(s, cfg, step).1)
  {
    ErrorCharged(step.sock, step.frame.Id(), HelloRequired);
  }

  lemma {:induction false} ThroughIsPassed(cfg: BrokerConfig, steps: seq<Step>, alias: Alias, claims: Frame -> bool,
      kind: Kind, t1: int, t2: int)
    requires ChargesOnly(claims, kind)
    ensures GotThrough(cfg, steps, alias, claims, t1, t2) <= Passed(cfg, steps, alias, kind, t1, t2)
  {
    if steps != [] {
      hide Next, Run, HasError, ChargedTo, CallOf;
      var front, step := steps[..|steps| - 1], steps[|steps| - 1];
      ThroughIsPassed(cfg, front, alias, claims, kind, t1, t2);
      if GetsThrough(Run(cfg, front), cfg, step, alias, claims) {
        if !Authed(Run(cfg, front), step.sock, step.frame) { StrangerIsRefused(Run(cfg, front), cfg, step); }
        CallIsOf(step, alias);
      }
    }
  }

  lemma CallIsOf(step: Step, alias: Alias)
    requires step.Deliver? && Claims(step.frame) && step.frame.From() == Some(alias)
    ensures CallOf(step).alias == alias && CallOf(step).now == step.now
  {}

  /**
   The budgets of an alias, in every run and however often it reconnects: in (t1, t2] it gets
   through at most forcePerMin force messages, aborts and redirects and as many more per minute;
   likewise urgentPerMin urgent messages; and msgPerMin frames in all.
   */
  lemma PriorityBudgets(cfg: BrokerConfig, steps: seq<Step>, alias: Alias, t1: int, t2: int)
    requires ArrivalsInOrder(steps) && t1 <= t2
    ensures
      var limits := cfg.policy.rateLimits;
      && GotThrough(cfg, steps, alias, ClaimsForce, t1, t2) as real <= Budget(limits.forcePerMin, t2 - t1)
      && GotThrough(cfg, steps, alias, ClaimsUrgent, t1, t2) as real <= Budget(limits.urgentPerMin, t2 - t1)
      && GotThrough(cfg, steps, alias, Claims, t1, t2) as real <= Budget(limits.msgPerMin, t2 - t1)
  {
    hide GotThrough, Passed, ChargesOnly, Allowance, Budget;
    ForceIsChargedToForce();
    var limits := cfg.policy.rateLimits;
    ThroughIsPassed(cfg, steps, alias, ClaimsForce, ForceKind, t1, t2);
    ThroughIsPassed(cfg, steps, alias, ClaimsUrgent, UrgentKind, t1, t2);
    ThroughIsPassed(cfg, steps, alias, Claims, MsgKind, t1, t2);
    BrokerRateBound(cfg, steps, alias, ForceKind, t1, t2);
    BrokerRateBound(cfg, steps, alias, UrgentKind, t1, t2);
    BrokerRateBound(cfg, steps, alias, MsgKind, t1, t2);
    BudgetIsAllowance(limits.forcePerMin, t2 - t1);
    BudgetIsAllowance(limits.urgentPerMin, t2 - t1);
    BudgetIsAllowance(limits.msgPerMin, t2 - t1);
  }

  // ---- when the limit is felt ----

  /** A frame of `alias` with this claim for which a msg token is spent. */
  ghost predicate Pays(s: State, cfg: BrokerConfig, step: Step, alias: Alias, claims: Frame -> bool) {
    && step.Deliver? && Claims(step.frame) && claims(step.frame) && step.frame.From() == Some(alias)
    && var rates, limits := Next(s, cfg, step).0.rates, cfg.policy.rateLimits;
    && alias in rates
    && rates[alias].msg.tokens == RefillAll(GetRates(s.rates, alias, limits, step.now), limits, step.now).msg.tokens
        - 1.0
  }

  ghost function Paid(cfg: BrokerConfig, steps: seq<Step>, alias: Alias, claims: Frame -> bool, t1: int, t2: int): nat {
    if steps == [] then 0
    else
      var front, step := steps[..|steps| - 1], steps[|steps| - 1];
      Paid(cfg, front, alias, claims, t1, t2)
      + if Pays(Run(cfg, front), cfg, step, alias, claims) && t1 < step.now <= t2 then 1 else 0
  }

  /** Bucket `kind` is charged only for frames that satisfy `claims`. */
  ghost predicate ChargedOnlyFor(kind: Kind, claims: Frame -> bool) {
    forall step: Step :: step.Deliver? && Claims(step.frame) && ChargedTo(CallOf(step), CallOf(step).alias, kind) ==>
      claims(step.frame)
  }

  lemma ForceIsChargedOnlyForForce()
    ensures ChargedOnlyFor(ForceKind, ClaimsForce) && ChargedOnlyFor(UrgentKind, ClaimsUrgent)
      && ChargedOnlyFor(MsgKind, Claims)
  {}

  lemma GrantedPays(s: State, cfg: BrokerConfig, step: Step, claims: Frame -> bool)
    requires Requesting(s, step) && Agree(s.tables, cfg.maxRooms) && claims(step.frame)
    requires MadeCheck(s, cfg, step) && CheckFor(s, cfg, CallOf(step)).1
    ensures Pays(s, cfg, step, CallOf(step).alias, claims)
  {
    hide Next, Agree, RefillAll, GetRates;
    CallIsOf(step, step.frame.From().value);
  }

  lemma {:induction false} ChargesArePaid(cfg: BrokerConfig, steps: seq<Step>, alias: Alias, kind: Kind,
      claims: Frame -> bool, t1: int, t2: int)
    requires ChargedOnlyFor(kind, claims)
    ensures Charges(cfg.policy.rateLimits, Calls(cfg, steps), alias, kind, t1, t2)
         <= Paid(cfg, steps, alias, claims, t1, t2)
  {
    if steps != [] {
      hide Next, Run, MadeCheck, Pays, Charges, Calls, ChargedOnlyFor;
      ChargesArePaid(cfg, steps[..|steps| - 1], alias, kind, claims, t1, t2);
      LastIsPaid(cfg, steps, alias, kind, claims, t1, t2);
    }
  }

  /** The last step is charged only if it pays. */
  lemma LastIsPaid(cfg: BrokerConfig, steps: seq<Step>, alias: Alias, kind: Kind, claims: Frame -> bool, t1: int,
      t2: int)
    requires steps != [] && ChargedOnlyFor(kind, claims)
    ensures
      var front, step, limits := steps[..|steps| - 1], steps[|steps| - 1], cfg.policy.rateLimits;
      Charges(limits, Calls(cfg, steps), alias, kind, t1, t2)
        <= Charges(limits, Calls(cfg, front), alias, kind, t1, t2)
           + if Pays(Run(cfg, front), cfg, step, alias, claims) && t1 < step.now <= t2 then 1 else 0
  {
    hide Next, Run, Agree, MadeCheck, Requesting, Pays, Check, Rates, CallOf;
    var front, step, limits := steps[..|steps| - 1], steps[|steps| - 1], cfg.policy.rateLimits;
    var s := Run(cfg, front);
    RunAgrees(cfg, front);
    RatesComeFromCalls(cfg, front);
    if MadeCheck(s, cfg, step) {
      CheckedIsRequesting(s, cfg, step);
      var calls := Calls(cfg, front) + [CallOf(step)];
      assert calls[..|calls| - 1] == Calls(cfg, front);
      assert GrantedLast(limits, calls) == CheckFor(s, cfg, CallOf(step)).1;
      if GrantedLast(limits, calls) && ChargedTo(CallOf(step), alias, kind) { GrantedPays(s, cfg, step, claims); }
    }
  }

  lemma CheckedIsRequesting(s: State, cfg: BrokerConfig, step: Step)
    requires MadeCheck(s, cfg, step)
    ensures step.Deliver? && IsRequest(step.frame) && Claims(step.frame) && CallOf(step).now == step.now
    ensures Requesting(s, step)
  {
    hide Next;
  }

  /**
   When an alias is told that it is rate limited, it has used up a budget in the last minute: that
   of all its frames, or that of force or of urgent messages if the frame claims it.
   */
  lemma LimitedMeansSpent(cfg: BrokerConfig, steps: seq<Step>, k: nat, alias: Alias)
    requires ArrivalsInOrder(steps) && k < |steps| && Requesting(Run(cfg, steps[..k]), steps[k])
    requires steps[k].frame.From() == Some(alias) && HasLimited(OutsAt(cfg, steps, k))
    ensures
      var f, now, limits, before := steps[k].frame, steps[k].now, cfg.policy.rateLimits, steps[..k];
      || Paid(cfg, before, alias, Claims, now - 60000, now) >= limits.msgPerMin
      || (ClaimsForce(f) && Paid(cfg, before, alias, ClaimsForce, now - 60000, now) >= limits.forcePerMin)
      || (ClaimsUrgent(f) && Paid(cfg, before, alias, ClaimsUrgent, now - 60000, now) >= limits.urgentPerMin)
  {
    hide Paid, Charges, Run, Calls, OutsAt, HasLimited, ChargedOnlyFor, ArrivalsInOrder;
    ForceIsChargedOnlyForForce();
    LimitedOnlyAfterFullMinute(cfg, steps, k);
    CallIsOf(steps[k], alias);
    var now := steps[k].now;
    ChargesArePaid(cfg, steps[..k], alias, MsgKind, Claims, now - 60000, now);
    ChargesArePaid(cfg, steps[..k], alias, ForceKind, ClaimsForce, now - 60000, now);
    ChargesArePaid(cfg, steps[..k], alias, UrgentKind, ClaimsUrgent, now - 60000, now);
  }
}
