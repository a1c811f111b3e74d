/**
 What the policy does to the frames of a run: whom a deny rule silences and whom it
 spares, which control actions need authorization, and what got through was admitted.
 */
module Governance {
  import opened Common
  import opened StateTables
  import opened RateLimit
  import opened Policy
  import opened Rooms
  import opened CapRouting
  import opened Broker
  import opened Routing
  import opened Membership
  import opened Outcomes
  import opened Honesty
  import opened Control
  import MB = Mailbox

  // ---- whom a deny rule silences ----

  /** A message or control frame of `sender`, authenticated or not. */
  predicate SendsAs(step: Step, sender: Alias) {
    step.Deliver? && (step.frame.MsgFrame? || step.frame.CtlFrame?) && step.frame.From() == Some(sender)
  }

  /** The frame is turned down: one error goes back, and at most the rate table and the message counter move. */
  ghost predicate TurnedDown(s: State, s': State, outs: seq<Out>) {
    && |outs| == 1 && (outs[0].MsgError? || outs[0].Error?)
    && s' == s.(rates := s'.rates, nextToken := s'.nextToken)
  }

  /** The policy denies the sender everything. */
  ghost predicate Silenced(policy: MeshPolicy, sender: Alias) {
    forall recipient, room, priority :: EvaluatePolicy(policy, Context(sender, recipient, room, priority)) == Deny
  }

  lemma RuleSilences(policy: MeshPolicy, rule: PolicyRule, sender: Alias)
    requires rule in policy.deny && Names(rule.from, sender) && rule.to.None? && rule.room.None?
    ensures Silenced(policy, sender)
  {
    forall recipient, room, priority
      ensures EvaluatePolicy(policy, Context(sender, recipient, room, priority)) == Deny
    {
      assert Concerns(rule, sender, recipient, room);
      DecisionIff(policy, sender, recipient, room, priority);
    }
  }

  lemma SilencedMsg(s: State, cfg: BrokerConfig, from: Peer, m: Msg, now: int)
    requires Agree(s.tables, cfg.maxRooms) && Silenced(cfg.policy, from.alias)
    ensures var (s', outs) := RouteMsg(s, cfg, from, m, now); TurnedDown(s, s', outs)
  {
    hide Agree, RouteMsg, EvaluatePolicy, CapTarget, FanBoxes, Members, MB.Enqueue, Check, Forwarded;
    RouteMsgRouted(s, cfg, from, m, now);
    forall to ensures DecisionFor(cfg, from.alias, m, to) == Deny {}
  }

  lemma SilencedCtl(s: State, cfg: BrokerConfig, from: Peer, c: Ctl, now: int)
    requires Silenced(cfg.policy, from.alias)
    ensures var (s', outs) := HandleCtl(s, cfg, from, c, now); TurnedDown(s, s', outs)
  {
    hide EvaluatePolicy, Check, LivePending;
  }

  /** In every run: nothing a sender named by a deny rule sends gets through, whoever it is for. */
  lemma DeniedSenderIsSilenced(cfg: BrokerConfig, steps: seq<Step>, k: nat, rule: PolicyRule, sender: Alias)
    requires k < |steps| && SendsAs(steps[k], sender)
    requires rule in cfg.policy.deny && Names(rule.from, sender) && rule.to.None? && rule.room.None?
    ensures TurnedDown(Run(cfg, steps[..k]), Run(cfg, steps[..k + 1]), OutsAt(cfg, steps, k))
  {
    var s, step := Run(cfg, steps[..k]), steps[k];
    RunAgrees(cfg, steps[..k]);
    RuleSilences(cfg.policy, rule, sender);
    assert steps[..k + 1][..k] == steps[..k];
    hide Run, Agree, RouteMsg, HandleCtl, Silenced;
    RunUnfolds(cfg, steps[..k + 1]);
    if Authed(s, step.sock, step.frame) {
      AliasIsKey(s.tables, cfg.maxRooms, sender);
      match step.frame {
        case MsgFrame(m) => SilencedMsg(s, cfg, s.tables.peers[sender], m, step.now);
        case CtlFrame(c) => SilencedCtl(s, cfg, s.tables.peers[sender], c, step.now);
      }
    }
  }

  // ---- whom it spares ----

  function Stricter(cfg: BrokerConfig, rule: PolicyRule): BrokerConfig {
    cfg.(policy := cfg.policy.(deny := cfg.policy.deny + [rule]))
  }

  lemma SameDecisions(cfg: BrokerConfig, rule: PolicyRule, sender: Alias)
    requires !Names(rule.from, sender)
    ensures
      var policy := Stricter(cfg, rule).policy;
      forall to, room, priority ::
        EvaluatePolicy(policy, Context(sender, to, room, priority))
          == EvaluatePolicy(cfg.policy, Context(sender, to, room, priority))
  {
    forall to, room, priority
      ensures
        EvaluatePolicy(Stricter(cfg, rule).policy, Context(sender, to, room, priority))
          == EvaluatePolicy(cfg.policy, Context(sender, to, room, priority))
    {
      UnnamedSenderIsSpared(cfg.policy, rule, Context(sender, to, room, priority));
    }
  }

  lemma {:induction false} SameScan(n: Net, p: MeshPolicy, p': MeshPolicy, q: Request, members: seq<Alias>)
    requires forall to :: Verdict(p', q, to) == Verdict(p, q, to)
    ensures ScanMembers(n, p', q, members) == ScanMembers(n, p, q, members)
  {
    if members != [] {
      SameScan(n, p, p', q, members[..|members| - 1]);
      hide Verdict;
    }
  }

  lemma {:induction false} SameFanOut(s: State, cfg: BrokerConfig, rule: PolicyRule, from: Alias, m: Msg,
      members: seq<Alias>, now: int)
    ensures FanOut(s, Stricter(cfg, rule), from, m, members, now) == FanOut(s, cfg, from, m, members, now)
  {
    hide MB.Enqueue, DropNotices;
    if members != [] { SameFanOut(s, cfg, rule, from, m, members[..|members| - 1], now); }
  }

  lemma SparedMsg(s: State, cfg: BrokerConfig, rule: PolicyRule, from: Peer, m: Msg, now: int)
    requires !Names(rule.from, from.alias)
    ensures RouteMsg(s, Stricter(cfg, rule), from, m, now) == RouteMsg(s, cfg, from, m, now)
  {
    hide EvaluatePolicy, Check, MB.Enqueue, DropNotices, FanOut, CapTarget, Choose, RouteCap;
    SameDecisions(cfg, rule, from.alias);
    var s0 := s.(nextToken := s.nextToken + 1);
    var s1 := Charge(s0, cfg, from.alias, KindOf(MsgPriority(m)), now).0;
    SameFanOut(s1, cfg, rule, from.alias, m, Members(s.tables, MsgRoom(m)), now);
    if m.to.Some? && CapTarget(m.to.value).Some? {
      SparedCap(s0, cfg, rule, from, s.nextToken, m, CapTarget(m.to.value).value, now);
    }
  }

  lemma SparedCap(s: State, cfg: BrokerConfig, rule: PolicyRule, from: Peer, token: nat, m: Msg, cap: string, now: int)
    requires !Names(rule.from, from.alias)
    ensures RouteCap(s, Stricter(cfg, rule), from, token, m, cap, now) == RouteCap(s, cfg, from, token, m, cap, now)
  {
    hide EvaluatePolicy, Check, ScanMembers;
    SameDecisions(cfg, rule, from.alias);
    var q := CapRequest(cfg, from, m, cap, now);
    SameScan(NetOf(s), cfg.policy, Stricter(cfg, rule).policy, q, Members(s.tables, MsgRoom(m)));
  }

  lemma SparedCtl(s: State, cfg: BrokerConfig, rule: PolicyRule, from: Peer, c: Ctl, now: int)
    requires !Names(rule.from, from.alias)
    ensures HandleCtl(s, Stricter(cfg, rule), from, c, now) == HandleCtl(s, cfg, from, c, now)
  {
    hide EvaluatePolicy, Check, LivePending;
    SameDecisions(cfg, rule, from.alias);
  }

  /** The step is no message or control frame of somebody the rule names. */
  ghost predicate Spared(rule: PolicyRule, step: Step) {
    forall sender :: SendsAs(step, sender) ==> !Names(rule.from, sender)
  }

  /** A deny rule changes nothing for those it does not name as senders: not for their messages
      to the alias it does name, nor for anything else they do. */
  lemma DenyRuleSparesOthers(s: State, cfg: BrokerConfig, rule: PolicyRule, step: Step)
    requires Agree(s.tables, cfg.maxRooms) && Spared(rule, step)
    ensures Next(s, Stricter(cfg, rule), step) == Next(s, cfg, step)
  {
    hide Agree, RouteMsg, HandleCtl, Names, HandleHello, MB.Enqueue, DropNotices, Join, Leave, Check;
    if step.Deliver? && Authed(s, step.sock, step.frame) && !step.frame.HelloFrame? {
      var sender := step.frame.From().value;
      AliasIsKey(s.tables, cfg.maxRooms, sender);
      match step.frame {
        case MsgFrame(m) =>
          assert SendsAs(step, sender);
          SparedMsg(s, cfg, rule, s.tables.peers[sender], m, step.now);
        case CtlFrame(c) =>
          assert SendsAs(step, sender);
          SparedCtl(s, cfg, rule, s.tables.peers[sender], c, step.now);
        case _ =>
      }
    } else if step.Deliver? && step.frame.HelloFrame? {
      SparedHello(s, cfg, rule, step.sock, step.frame.hello, step.now);
    }
  }

  lemma SparedHello(s: State, cfg: BrokerConfig, rule: PolicyRule, sock: Sock, h: Hello, now: int)
    ensures HandleHello(s, Stricter(cfg, rule), sock, h, now) == HandleHello(s, cfg, sock, h, now)
  {
    hide Enroll, MB.Flush, DropNotices, MailboxOuts, IssueMail;
  }

  /** So a run in which nobody sends whom the rule names goes exactly as without it. */
  lemma {:induction false} DenyRuleSparesRuns(cfg: BrokerConfig, rule: PolicyRule, steps: seq<Step>)
    requires forall k :: 0 <= k < |steps| ==> Spared(rule, steps[k])
    ensures Run(Stricter(cfg, rule), steps) == Run(cfg, steps)
    ensures Trace(Stricter(cfg, rule), steps) == Trace(cfg, steps)
  {
    if steps != [] {
      hide Agree, Next, Spared;
      var front, step := steps[..|steps| - 1], steps[|steps| - 1];
      DenyRuleSparesRuns(cfg, rule, front);
      RunAgrees(cfg, front);
      DenyRuleSparesOthers(Run(cfg, front), cfg, rule, step);
    }
  }

  // ---- what got through was admitted ----

  /** The rules admit the write, and force is authorized on it or it is a broadcast. */
  ghost predicate Admissible(policy: MeshPolicy, w: Write) {
    var room := MsgRoom(w.original);
    match w
    case DirectWrite(from, target, _, routed, _, _) =>
      && RulesAdmit(policy, from.alias, target.alias, room)
      && (routed.priority == Some(Force) ==> from.alias in policy.forceAllowedFrom)
    case FanWrite(from, original, _, _, _, _) => RulesAdmit(policy, from.alias, "*", room)
  }

  lemma NewWriteIsAdmissible(s: State, cfg: BrokerConfig, s': State, outs: seq<Out>, from: Peer, t: nat, m: Msg,
      now: int)
    requires Routed(s, cfg, s', outs, from, t, m, now) && t in s'.writes && t !in s.writes
    ensures Admissible(cfg.policy, s'.writes[t])
  {
    var w := s'.writes[t];
    NewWriteDecision(s, cfg, s', outs, from, t, m, now);
    var to := if w.DirectWrite? then w.target.alias else "*";
    DecisionIff(cfg.policy, w.from.alias, to, MsgRoom(w.original), MsgPriority(w.original));
    hide Routed, EvaluatePolicy, SomeConcerns, CapTarget;
  }

  lemma NewWriteDecision(s: State, cfg: BrokerConfig, s': State, outs: seq<Out>, from: Peer, t: nat, m: Msg, now: int)
    requires Routed(s, cfg, s', outs, from, t, m, now) && t in s'.writes && t !in s.writes
    ensures
      var w := s'.writes[t];
      && DecisionFor(cfg, w.from.alias, w.original, if w.DirectWrite? then w.target.alias else "*") != Deny
      && (w.DirectWrite? ==> DirectOk(cfg, w))
  {
    hide FanBoxes, MB.Enqueue, Reached, Boxed, Others, DecisionFor, Forwarded, RefsCurrent, CapTarget, Members,
        EndsWith, NoAnswers;
  }

  /** In every run each outstanding write is admitted by the rules, from its sender to its recipient in its room. */
  lemma {:induction false} WritesAreAdmitted(cfg: BrokerConfig, steps: seq<Step>, t: nat)
    requires t in Run(cfg, steps).writes
    ensures Admissible(cfg.policy, Run(cfg, steps).writes[t])
  {
    if steps != [] {
      hide Agree, Next, Run, RulesAdmit, Routed;
      var front, step := steps[..|steps| - 1], steps[|steps| - 1];
      var s, s' := Run(cfg, front), Run(cfg, steps);
      RunAgrees(cfg, front);
      RunUnfolds(cfg, steps);
      StepOnWrites(s, cfg, step, t);
      if Submitting(s, step) && t == s.nextToken {
        SubmitStep(s, cfg, step);
        AnswersBalance(cfg, front, t);
        NewWriteIsAdmissible(s.(nextToken := s.nextToken + 1), cfg, s', Next(s, cfg, step).1,
            s.tables.peers[step.frame.msg.from], t, step.frame.msg, step.now);
      } else {
        WritesAreAdmitted(cfg, front, t);
      }
    }
  }

  // ---- control actions ----

  /** What a sender has in its buckets when its frame arrives. */
  function Purse(s: State, cfg: BrokerConfig, alias: Alias, now: int): PeerRates {
    RefillAll(GetRates(s.rates, alias, cfg.policy.rateLimits, now), cfg.policy.rateLimits, now)
  }

  /** The control frame reaches an online peer that shares its room with the sender, a member there. */
  predicate ControlReaches(s: State, c: Ctl) {
    && c.from in s.tables.peers && c.to.Some? && IsOnline(s, c.to.value)
    && var from, room := s.tables.peers[c.from], CtlRoom(c);
    room in from.rooms && from.rooms[room] == Member && room in s.tables.peers[c.to.value].rooms
  }

  lemma ControlAllowedIff(cfg: BrokerConfig, c: Ctl)
    requires c.to.Some?
    ensures EvaluatePolicy(cfg.policy, Context(c.from, c.to.value, CtlRoom(c), CtlPriority(c))) == Allow
       <==> && RulesAdmit(cfg.policy, c.from, c.to.value, CtlRoom(c))
            && (c.action == Some("abort") || c.action == Some("redirect") ==> c.from in cfg.policy.forceAllowedFrom)
  {
    hide EvaluatePolicy, SomeConcerns;
    DecisionIff(cfg.policy, c.from, c.to.value, CtlRoom(c), CtlPriority(c));
  }

  lemma ControlCharge(s: State, cfg: BrokerConfig, c: Ctl, now: int)
    ensures
      var forceful, purse := c.action == Some("abort") || c.action == Some("redirect"), Purse(s, cfg, c.from, now);
      var (rates, ok) := Check(s.rates, c.from, KindOf(CtlPriority(c)), cfg.policy.rateLimits, now);
      && (ok <==> purse.msg.tokens >= 1.0 && (forceful ==> purse.force.tokens >= 1.0))
      && (ok ==> rates == s.rates[c.from := PeerRates(
            Bucket(purse.msg.tokens - 1.0, purse.msg.lastRefillAt),
            purse.urgent,
            if forceful then Bucket(purse.force.tokens - 1.0, purse.force.lastRefillAt) else purse.force)])
  {
    hide RefillAll, GetRates;
  }

  lemma ControlCases(s: State, cfg: BrokerConfig, c: Ctl, now: int)
    requires c.from in s.tables.peers && s.tables.peers[c.from].alias == c.from
    ensures
      var (s', outs) := HandleCtl(s, cfg, s.tables.peers[c.from], c, now);
      var (rates, ok) := Check(s.rates, c.from, KindOf(CtlPriority(c)), cfg.policy.rateLimits, now);
      if ControlReaches(s, c) && ok
        && EvaluatePolicy(cfg.policy, Context(c.from, c.to.value, CtlRoom(c), CtlPriority(c))) == Allow
      then
        && outs == [] && s'.rates == rates && c.to.value in s.tables.peers
        && s'.ctlWrites == s.ctlWrites[s.nextCtl := CtlWrite(RefOf(s.tables.peers[c.from]),
             RefOf(s.tables.peers[c.to.value]), c)]
      else
        |outs| == 1 && outs[0].Error? && s' == s.(rates := s'.rates)
  {
    hide EvaluatePolicy, LivePending, Check, CtlPriority;
  }

  /**
   Exactly when a control frame is accepted: it reaches its target, the rules admit it, an abort
   or a redirect comes from an alias that may use force, and the buckets it is charged to hold a
   token: msg always, force for these two actions and for no other. It is then written to the
   target and charged to exactly those; otherwise one error goes back.
   */
  lemma ControlAcceptedIff(s: State, cfg: BrokerConfig, sock: Sock, c: Ctl, now: int)
    requires Agree(s.tables, cfg.maxRooms) && Authed(s, sock, CtlFrame(c))
    ensures
      var (s', outs) := Next(s, cfg, Deliver(sock, CtlFrame(c), now));
      var forceful := c.action == Some("abort") || c.action == Some("redirect");
      var purse := Purse(s, cfg, c.from, now);
      if ControlReaches(s, c) && RulesAdmit(cfg.policy, c.from, c.to.value, CtlRoom(c))
        && (forceful ==> c.from in cfg.policy.forceAllowedFrom)
        && purse.msg.tokens >= 1.0 && (forceful ==> purse.force.tokens >= 1.0)
      then
        && outs == []
        && s'.ctlWrites == s.ctlWrites[s.nextCtl := CtlWrite(RefOf(s.tables.peers[c.from]),
             RefOf(s.tables.peers[c.to.value]), c)]
        && s'.rates == s.rates[c.from := PeerRates(
             Bucket(purse.msg.tokens - 1.0, purse.msg.lastRefillAt),
             purse.urgent,
             if forceful then Bucket(purse.force.tokens - 1.0, purse.force.lastRefillAt) else purse.force)]
      else
        |outs| == 1 && outs[0].Error? && s' == s.(rates := s'.rates)
  {
    AliasIsKey(s.tables, cfg.maxRooms, c.from);
    CtlIsHandled(s, cfg, sock, c, now);
    hide Agree, Next, HandleCtl, EvaluatePolicy, IsOnline, Check, CtlPriority, RulesAdmit, Purse, ControlReaches;
    if c.to.Some? { ControlAllowedIff(cfg, c); }
    ControlCharge(s, cfg, c, now);
    ControlCases(s, cfg, c, now);
    if ControlReaches(s, c) { ReachedIsThere(s, c); }
  }

  lemma CtlIsHandled(s: State, cfg: BrokerConfig, sock: Sock, c: Ctl, now: int)
    requires Authed(s, sock, CtlFrame(c))
    ensures Next(s, cfg, Deliver(sock, CtlFrame(c), now)) == HandleCtl(s, cfg, s.tables.peers[c.from], c, now)
  {
    hide HandleCtl;
  }

  lemma ReachedIsThere(s: State, c: Ctl)
    requires ControlReaches(s, c)
    ensures c.to.Some? && c.to.value in s.tables.peers
  {}

  /** The rules admit the control frame, and an abort or a redirect is authorized. */
  ghost predicate ControlAdmissible(policy: MeshPolicy, w: CtlWrite) {
    && w.from.alias == w.ctl.from && w.ctl.to == Some(w.target.alias)
    && RulesAdmit(policy, w.from.alias, w.target.alias, CtlRoom(w.ctl))
    && (w.ctl.action == Some("abort") || w.ctl.action == Some("redirect") ==>
          w.from.alias in policy.forceAllowedFrom)
  }

  lemma CtlFrameWrites(s: State, cfg: BrokerConfig, sock: Sock, c: Ctl, now: int, n: nat)
    requires Agree(s.tables, cfg.maxRooms) && Authed(s, sock, CtlFrame(c))
    requires n in Next(s, cfg, Deliver(sock, CtlFrame(c), now)).0.ctlWrites
    ensures
      var w := Next(s, cfg, Deliver(sock, CtlFrame(c), now)).0.ctlWrites[n];
      (n in s.ctlWrites && w == s.ctlWrites[n]) || ControlAdmissible(cfg.policy, w)
  {
    hide Agree, Next, RulesAdmit, Purse, ControlReaches;
    ControlAcceptedIff(s, cfg, sock, c, now);
    if ControlReaches(s, c) {
      ReachedIsThere(s, c);
      AliasIsKey(s.tables, cfg.maxRooms, c.from);
      AliasIsKey(s.tables, cfg.maxRooms, c.to.value);
    }
  }

  lemma OtherFramesWriteNoControl(s: State, cfg: BrokerConfig, sock: Sock, f: Frame, now: int)
    requires Agree(s.tables, cfg.maxRooms) && !(f.CtlFrame? && Authed(s, sock, f))
    ensures Dispatch(s, cfg, sock, f, now).0.ctlWrites == s.ctlWrites
  {
    hide Agree, HandleHello, RouteMsg, HandleCtl, Join, Leave;
    if f.HelloFrame? {
      HelloFrameRule(s, cfg, sock, f.hello, now);
    } else if f.MsgFrame? && Authed(s, sock, f) {
      MsgFrameRule(s, cfg, s.tables.peers[f.msg.from], f.msg, now);
    }
  }

  lemma EnvironmentWritesNoControl(s: State, cfg: BrokerConfig, step: Step)
    requires !step.Deliver?
    ensures
      var s' := Next(s, cfg, step).0;
      forall n :: n in s'.ctlWrites ==> n in s.ctlWrites && s'.ctlWrites[n] == s.ctlWrites[n]
  {
    hide DirectDone, FanDone, CloseRef, CloseAll, SweepReservations, PruneKnown, Purge;
    if Enabled(s, step) {
      match step {
        case WriteDone(t, ok, now) => DirectKeepsControls(s, cfg, t, ok, now);
        case FanWriteDone(t, a, ok, now) => FanKeepsControls(s, cfg, t, a, ok, now);
        case CtlWriteDone(n, ok) =>
          var w := s.ctlWrites[n];
          CloseRefFrame(s.(ctlWrites := s.ctlWrites - {n}, pendingCtl := s.pendingCtl - {w.ctl.id}), w.target);
        case MailWriteDone(n, ok) => CloseRefFrame(s.(mailWrites := s.mailWrites - {n}), s.mailWrites[n].target);
        case SendFailed(r) => CloseRefFrame(s, r);
        case SocketClosed(sock, order) => CloseAllFrame(s.(destroyed := s.destroyed + {sock}), order);
        case PurgeStep(order, now) => PurgeKeepsControls(s, cfg, order, now);
        case SweepStep(now) => SweepKeepsControls(s, cfg, now);
        case PruneStep(now) => SweepKeepsControls(s, cfg, now);
        case _ =>
      }
    }
  }

  lemma DirectKeepsControls(s: State, cfg: BrokerConfig, t: nat, ok: bool, now: int)
    requires t in s.writes && s.writes[t].DirectWrite?
    ensures DirectDone(s, cfg, t, ok, now).0.ctlWrites == s.ctlWrites
  {
    hide MB.Enqueue, DropNotices, CloseRef;
    CloseRefFrame(s.(writes := s.writes - {t}), s.writes[t].target);
  }

  lemma FanKeepsControls(s: State, cfg: BrokerConfig, t: nat, a: Alias, ok: bool, now: int)
    requires t in s.writes && s.writes[t].FanWrite? && a in s.writes[t].waiting
    ensures FanDone(s, cfg, t, a, ok, now).0.ctlWrites == s.ctlWrites
  {
    hide MB.Enqueue, DropNotices, CloseRef;
    CloseRefFrame(s, s.writes[t].waiting[a]);
  }

  lemma PurgeKeepsControls(s: State, cfg: BrokerConfig, order: seq<Alias>, now: int)
    ensures Purge(s, cfg, order, now).0.ctlWrites == s.ctlWrites
  {}

  lemma SweepKeepsControls(s: State, cfg: BrokerConfig, now: int)
    ensures SweepReservations(s, cfg, now).ctlWrites == s.ctlWrites && PruneKnown(s, now).ctlWrites == s.ctlWrites
  {}

  /** In every run each control frame on its way was admitted by the rules, and an abort or a
      redirect comes from an alias that may use force. */
  lemma {:induction false} ControlsAreAuthorized(cfg: BrokerConfig, steps: seq<Step>, n: nat)
    requires n in Run(cfg, steps).ctlWrites
    ensures ControlAdmissible(cfg.policy, Run(cfg, steps).ctlWrites[n])
  {
    if steps != [] {
      hide Agree, Next, Run, ControlAdmissible, Dispatch;
      var front, step := steps[..|steps| - 1], steps[|steps| - 1];
      var s := Run(cfg, front);
      RunAgrees(cfg, front);
      RunUnfolds(cfg, steps);
      if step.Deliver? && step.frame.CtlFrame? && Authed(s, step.sock, step.frame) {
        CtlFrameWrites(s, cfg, step.sock, step.frame.ctl, step.now, n);
      } else if step.Deliver? {
        OtherFramesWriteNoControl(s, cfg, step.sock, step.frame, step.now);
        DeliveryIsDispatch(s, cfg, step);
      } else {
        EnvironmentWritesNoControl(s, cfg, step);
      }
      if n in s.ctlWrites { ControlsAreAuthorized(cfg, front, n); }
    }
  }

  lemma DeliveryIsDispatch(s: State, cfg: BrokerConfig, step: Step)
    requires step.Deliver?
    ensures Next(s, cfg, step) == Dispatch(s, cfg, step.sock, step.frame, step.now)
  {
    hide Dispatch;
  }
}
