/**
 Rate limits at work in the broker: what one alias gets through in a window of
 time, over all runs, whatever reconnects and restarts of its connection occur.
 */
module Throughput {
  import opened Common
  import opened StateTables
  import opened RateLimit
  import opened Policy
  import opened Rooms
  import opened Broker
  import opened Routing
  import opened Membership
  import opened Outcomes
  import opened Honesty
  import CapRouting
  import MB = Mailbox

  predicate IsRequest(f: Frame) { f.MsgFrame? || f.CtlFrame? || f.ReplyFrame? }

  /** A message, reply or control frame from its authenticated sender. */
  predicate Requesting(s: State, step: Step) {
    step.Deliver? && IsRequest(step.frame) && Authed(s, step.sock, step.frame)
  }

  /** The rate check such a frame is subject to. */
  function CallOf(step: Step): Call
    requires step.Deliver? && IsRequest(step.frame)
  {
    match step.frame
    case MsgFrame(m) => Call(m.from, KindOf(MsgPriority(m)), step.now)
    case CtlFrame(c) => Call(c.from, KindOf(CtlPriority(c)), step.now)
    case ReplyFrame(_, alias) => Call(alias, MsgKind, step.now)
  }

  function CheckFor(s: State, cfg: BrokerConfig, c: Call): (map<Alias, PeerRates>, bool) {
    Check(s.rates, c.alias, c.kind, cfg.policy.rateLimits, c.now)
  }

  predicate HasError(outs: seq<Out>) { exists i :: 0 <= i < |outs| && (outs[i].MsgError? || outs[i].Error?) }

  predicate IsLimited(o: Out) { (o.MsgError? || o.Error?) && o.code == Limited }

  predicate HasLimited(outs: seq<Out>) { exists i :: 0 <= i < |outs| && IsLimited(outs[i]) }

  /** Either no check was made and the frame was turned down for another reason, or
      exactly one check was made and the frame got through only if it was granted. */
  ghost predicate Charged(s: State, s': State, cfg: BrokerConfig, outs: seq<Out>, c: Call) {
    var (rates, ok) := CheckFor(s, cfg, c);
    || (s'.rates == s.rates && HasError(outs) && !HasLimited(outs))
    || (s'.rates == rates && (!ok ==> HasError(outs)) && (HasLimited(outs) ==> !ok))
  }

  lemma RefusalCharged(s: State, cfg: BrokerConfig, from: Peer, token: nat, m: Msg, code: ErrorCode)
    ensures HasError(RefuseMsg(s, from, token, m, code).1)
      && (HasLimited(RefuseMsg(s, from, token, m, code).1) <==> code == Limited)
  {
    var o := MsgError(token, from.sock, m.id, code);
    assert [o][0] == o;
    if code == Limited { assert IsLimited([o][0]); }
  }

  predicate Plain(outs: seq<Out>) { forall i :: 0 <= i < |outs| ==> !outs[i].MsgError? && !outs[i].Error? }

  lemma {:induction false} NoticesArePlain(s: State, dropped: seq<Stored>)
    ensures Plain(DropNotices(s, dropped))
  {
    if dropped != [] { NoticesArePlain(s, dropped[..|dropped| - 1]); }
  }

  lemma PlainIsUnlimited(outs: seq<Out>)
    requires Plain(outs)
    ensures !HasLimited(outs)
  {}

  lemma DirectCharged(s: State, cfg: BrokerConfig, from: Peer, token: nat, m: Msg, to: Alias, now: int)
    ensures
      var (s', outs) := RouteDirect(s, cfg, from, token, m, to, now);
      Charged(s, s', cfg, outs, Call(from.alias, KindOf(MsgPriority(m)), now))
  {
    hide Check, EvaluatePolicy, MB.Enqueue, DropNotices, HasError, HasLimited;
    var s1 := Charge(s, cfg, from.alias, KindOf(MsgPriority(m)), now).0;
    RefusalCharged(s, cfg, from, token, m, PeerNotFound);
    RefusalCharged(s, cfg, from, token, m, NotMember);
    RefusalCharged(s1, cfg, from, token, m, Limited);
    RefusalCharged(s1, cfg, from, token, m, Denied);
    var (s', outs) := RouteDirect(s, cfg, from, token, m, to, now);
    NoticesArePlain(s1, MB.Enqueue(s1.box, cfg.mailbox, to, RoutedFrame(m, DecisionFor(cfg, from.alias, m, to)),
        now).1);
    if Plain(outs) { PlainIsUnlimited(outs); }
  }

  lemma CapCharged(s: State, cfg: BrokerConfig, from: Peer, token: nat, m: Msg, cap: string, now: int)
    ensures
      var (s', outs) := RouteCap(s, cfg, from, token, m, cap, now);
      Charged(s, s', cfg, outs, Call(from.alias, KindOf(MsgPriority(m)), now))
  {
    hide Check, EvaluatePolicy, CapRouting.Choose, HasError, HasLimited;
    var s1 := Charge(s, cfg, from.alias, KindOf(MsgPriority(m)), now).0;
    RefusalCharged(s1, cfg, from, token, m, Limited);
    RefusalCharged(s1, cfg, from, token, m, PeerNotFound);
    RefusalCharged(s1, cfg, from, token, m, Denied);
    RefusalCharged(s1, cfg, from, token, m, NoCapable);
    RefusalCharged(s1, cfg, from, token, m, CapsMissing);
    PlainIsUnlimited([]);
  }

  lemma {:induction false} FanOutPlain(s: State, cfg: BrokerConfig, from: Alias, m: Msg, members: seq<Alias>, now: int)
    ensures var f := FanOut(s, cfg, from, m, members, now); f.state == s.(box := f.state.box) && Plain(f.outs)
  {
    hide MB.Enqueue;
    if members != [] {
      var front, a := members[..|members| - 1], members[|members| - 1];
      FanOutPlain(s, cfg, from, m, front, now);
      var f := FanOut(s, cfg, from, m, front, now);
      NoticesArePlain(f.state, MB.Enqueue(f.state.box, cfg.mailbox, a, m, now).1);
    }
  }

  lemma BroadcastCharged(s: State, cfg: BrokerConfig, from: Peer, token: nat, m: Msg, now: int)
    ensures
      var (s', outs) := RouteBroadcast(s, cfg, from, token, m, now);
      Charged(s, s', cfg, outs, Call(from.alias, KindOf(MsgPriority(m)), now))
  {
    hide Check, EvaluatePolicy, FanOut, Members, HasError, HasLimited;
    var s1 := Charge(s, cfg, from.alias, KindOf(MsgPriority(m)), now).0;
    RefusalCharged(s, cfg, from, token, m, NotMember);
    RefusalCharged(s, cfg, from, token, m, ObserverReadonly);
    RefusalCharged(s, cfg, from, token, m, PeerNotFound);
    RefusalCharged(s1, cfg, from, token, m, Limited);
    RefusalCharged(s1, cfg, from, token, m, Denied);
    FanOutPlain(s1, cfg, from.alias, m, Members(s.tables, MsgRoom(m)), now);
    var outs := RouteBroadcast(s, cfg, from, token, m, now).1;
    if Plain(outs) { PlainIsUnlimited(outs); }
  }

  lemma MsgCharged(s: State, cfg: BrokerConfig, from: Peer, m: Msg, now: int)
    ensures
      var (s', outs) := RouteMsg(s, cfg, from, m, now);
      Charged(s, s', cfg, outs, Call(from.alias, KindOf(MsgPriority(m)), now))
  {
    hide Check, RouteBroadcast, RouteDirect, RouteCap, HasError, HasLimited;
    var token, s0 := s.nextToken, s.(nextToken := s.nextToken + 1);
    RefusalCharged(s0, cfg, from, token, m, InvalidFrame);
    RefusalCharged(s0, cfg, from, token, m, NotMember);
    RefusalCharged(s0, cfg, from, token, m, ObserverReadonly);
    BroadcastCharged(s0, cfg, from, token, m, now);
    if m.to.Some? {
      DirectCharged(s0, cfg, from, token, m, m.to.value, now);
      if CapTarget(m.to.value).Some? { CapCharged(s0, cfg, from, token, m, CapTarget(m.to.value).value, now); }
    }
  }

  lemma ErrorCharged(sock: Sock, id: MsgId, code: ErrorCode)
    ensures HasError([Error(sock, id, code)]) && (HasLimited([Error(sock, id, code)]) <==> code == Limited)
  {
    var o := Error(sock, id, code);
    assert [o][0] == o;
    if code == Limited { assert IsLimited([o][0]); }
  }

  lemma CtlCharged(s: State, cfg: BrokerConfig, from: Peer, c: Ctl, now: int)
    ensures
      var (s', outs) := HandleCtl(s, cfg, from, c, now);
      Charged(s, s', cfg, outs, Call(from.alias, KindOf(CtlPriority(c)), now))
  {
    hide Check, EvaluatePolicy, LivePending, HasError, HasLimited;
    var outs := HandleCtl(s, cfg, from, c, now).1;
    if outs == [] {
      PlainIsUnlimited(outs);
    } else {
      ErrorCharged(outs[0].sock, outs[0].id, outs[0].code);
      assert outs == [Error(outs[0].sock, outs[0].id, outs[0].code)];
    }
  }

  lemma ReplyCharged(s: State, cfg: BrokerConfig, from: Peer, id: MsgId, now: int)
    ensures
      var (s', outs) := HandleReply(s, cfg, from, id, now);
      Charged(s, s', cfg, outs, Call(from.alias, MsgKind, now))
  {
    hide Check, HasError, HasLimited;
    ErrorCharged(from.sock, id, Limited);
    PlainIsUnlimited([]);
  }

  /** Rate tables move by one check of the sender's own bucket, or not at all. */
  lemma RequestCharged(s: State, cfg: BrokerConfig, step: Step)
    requires Requesting(s, step) && Agree(s.tables, cfg.maxRooms)
    ensures var (s', outs) := Next(s, cfg, step); Charged(s, s', cfg, outs, CallOf(step))
  {
    hide Agree, RouteMsg, HandleCtl, HandleReply, Charged;
    AliasIsKey(s.tables, cfg.maxRooms, step.frame.From().value);
    match step.frame {
      case MsgFrame(m) => MsgCharged(s, cfg, s.tables.peers[m.from], m, step.now);
      case CtlFrame(c) => CtlCharged(s, cfg, s.tables.peers[c.from], c, step.now);
      case ReplyFrame(id, alias) => ReplyCharged(s, cfg, s.tables.peers[alias], id, step.now);
    }
  }

  lemma OtherFramesCharge(s: State, cfg: BrokerConfig, sock: Sock, f: Frame, now: int)
    requires !(IsRequest(f) && Authed(s, sock, f))
    ensures Dispatch(s, cfg, sock, f, now).0.rates == s.rates
  {
    hide Join, Leave, RouteMsg, HandleCtl, HandleReply, HandleHello;
    if f.HelloFrame? { HelloFrameRule(s, cfg, sock, f.hello, now); }
  }

  lemma OtherStepsCharge(s: State, cfg: BrokerConfig, step: Step)
    requires !Requesting(s, step)
    ensures Next(s, cfg, step).0.rates == s.rates
  {
    if step.Deliver? {
      hide Dispatch;
      OtherFramesCharge(s, cfg, step.sock, step.frame, step.now);
    } else {
      hide Next;
      EnvironmentFrame(s, cfg, step);
    }
  }

  // ---- runs ----

  /** A check was made in this step. */
  ghost predicate MadeCheck(s: State, cfg: BrokerConfig, step: Step) {
    Requesting(s, step) && Next(s, cfg, step).0.rates == CheckFor(s, cfg, CallOf(step)).0
  }

  /** The rate checks of a run, in order. */
  ghost function Calls(cfg: BrokerConfig, steps: seq<Step>): seq<Call> {
    if steps == [] then []
    else
      var front, step := steps[..|steps| - 1], steps[|steps| - 1];
      if MadeCheck(Run(cfg, front), cfg, step) then Calls(cfg, front) + [CallOf(step)] else Calls(cfg, front)
  }

  /** The rate table of a run is that of its checks alone: nothing else, in
      particular no hello or close, ever touches it. */
  lemma {:induction false} RatesComeFromCalls(cfg: BrokerConfig, steps: seq<Step>)
    ensures Run(cfg, steps).rates == Rates(cfg.policy.rateLimits, Calls(cfg, steps))
  {
    if steps != [] {
      hide Check, Agree, Next;
      var front, step := steps[..|steps| - 1], steps[|steps| - 1];
      var s := Run(cfg, front);
      RatesComeFromCalls(cfg, front);
      RunAgrees(cfg, front);
      RunUnfolds(cfg, steps);
      if MadeCheck(s, cfg, step) {
        var calls := Calls(cfg, front) + [CallOf(step)];
        assert calls[..|calls| - 1] == Calls(cfg, front);
      } else if Requesting(s, step) {
        RequestCharged(s, cfg, step);
      } else {
        OtherStepsCharge(s, cfg, step);
      }
    }
  }

  /** The broker let the frame of this step through. */
  ghost predicate LetThrough(s: State, cfg: BrokerConfig, step: Step) {
    Requesting(s, step) && !HasError(Next(s, cfg, step).1)
  }

  /** How many frames of `alias` were let through in (t1, t2] at the expense of bucket `kind`. */
  ghost function Passed(cfg: BrokerConfig, steps: seq<Step>, alias: Alias, kind: Kind, t1: int, t2: int): nat {
    if steps == [] then 0
    else
      var front, step := steps[..|steps| - 1], steps[|steps| - 1];
      Passed(cfg, front, alias, kind, t1, t2)
      + if LetThrough(Run(cfg, front), cfg, step) && ChargedTo(CallOf(step), alias, kind) && t1 < step.now <= t2
        then 1 else 0
  }

  lemma {:induction false} PassedAreCharged(cfg: BrokerConfig, steps: seq<Step>, alias: Alias, kind: Kind, t1: int,
      t2: int)
    ensures Passed(cfg, steps, alias, kind, t1, t2)
         <= Charges(cfg.policy.rateLimits, Calls(cfg, steps), alias, kind, t1, t2)
  {
    if steps != [] {
      hide Check, Agree, Next, Rates, Run, LetThrough, MadeCheck, Charges;
      var front, step := steps[..|steps| - 1], steps[|steps| - 1];
      PassedAreCharged(cfg, front, alias, kind, t1, t2);
      ThroughIsChecked(cfg, steps, alias, kind, t1, t2);
    }
  }

  /** A frame let through in the last step is one more granted check. */
  lemma ThroughIsChecked(cfg: BrokerConfig, steps: seq<Step>, alias: Alias, kind: Kind, t1: int, t2: int)
    requires steps != []
    ensures
      var front, step, limits := steps[..|steps| - 1], steps[|steps| - 1], cfg.policy.rateLimits;
      var through := LetThrough(Run(cfg, front), cfg, step) && ChargedTo(CallOf(step), alias, kind)
        && t1 < step.now <= t2;
      Charges(limits, Calls(cfg, steps), alias, kind, t1, t2)
        >= Charges(limits, Calls(cfg, front), alias, kind, t1, t2) + if through then 1 else 0
  {
    hide Check, Agree, Next, Rates, Run, HasError, HasLimited;
    var front, step, limits := steps[..|steps| - 1], steps[|steps| - 1], cfg.policy.rateLimits;
    var s, before := Run(cfg, front), Calls(cfg, front);
    RatesComeFromCalls(cfg, front);
    RunAgrees(cfg, front);
    if Requesting(s, step) { RequestCharged(s, cfg, step); }
    if MadeCheck(s, cfg, step) {
      var calls := before + [CallOf(step)];
      assert calls[..|calls| - 1] == before;
      assert GrantedLast(limits, calls) == CheckFor(s, cfg, CallOf(step)).1;
    }
  }

  /** Frames arrive under a non-decreasing clock. */
  predicate ArrivalsInOrder(steps: seq<Step>) {
    forall i, j :: 0 <= i < j < |steps| && steps[i].Deliver? && steps[j].Deliver? ==> steps[i].now <= steps[j].now
  }

  predicate HasArrival(steps: seq<Step>, now: int) {
    exists k :: 0 <= k < |steps| && steps[k].Deliver? && steps[k].now == now
  }

  lemma {:induction false} CallTimes(cfg: BrokerConfig, steps: seq<Step>)
    requires ArrivalsInOrder(steps)
    ensures forall i :: 0 <= i < |Calls(cfg, steps)| ==> HasArrival(steps, Calls(cfg, steps)[i].now)
    ensures RateLimit.ClockNonDecreasing(Calls(cfg, steps))
  {
    if steps != [] {
      hide MadeCheck, Requesting, Run;
      var n := |steps| - 1;
      var front, step := steps[..n], steps[n];
      CallTimes(cfg, front);
      CallIsDelivery(cfg, steps);
      var calls, before := Calls(cfg, steps), Calls(cfg, front);
      forall i | 0 <= i < |calls| ensures HasArrival(steps, calls[i].now) {
        if i < |before| {
          assert HasArrival(front, before[i].now);
          var k :| 0 <= k < |front| && front[k].Deliver? && front[k].now == before[i].now;
          assert steps[k] == front[k] && calls[i] == before[i];
        } else {
          assert steps[n].Deliver? && steps[n].now == calls[i].now;
        }
      }
      forall i, j | 0 <= i < j < |calls| ensures calls[i].now <= calls[j].now {
        assert calls[i] == before[i];
        if j < |before| {
          assert calls[j] == before[j];
        } else {
          assert HasArrival(front, before[i].now);
          var k :| 0 <= k < |front| && front[k].Deliver? && front[k].now == before[i].now;
          assert steps[k] == front[k];
        }
      }
    }
  }

  lemma CallIsDelivery(cfg: BrokerConfig, steps: seq<Step>)
    requires steps != []
    ensures
      var front, step := steps[..|steps| - 1], steps[|steps| - 1];
      || Calls(cfg, steps) == Calls(cfg, front)
      || (step.Deliver? && |Calls(cfg, steps)| == |Calls(cfg, front)| + 1
          && Calls(cfg, steps)[..|Calls(cfg, front)|] == Calls(cfg, front)
          && Calls(cfg, steps)[|Calls(cfg, front)|].now == step.now)
  {
    hide Next, Run;
  }

  /**
   The rate bound of the broker: in every run, the messages, replies and control
   frames one alias gets through in (t1, t2] at the expense of one of its buckets number at
   most the capacity of that bucket plus what it earns in t2 - t1, no matter
   how often the alias disconnects and says hello again.
   */
  lemma BrokerRateBound(cfg: BrokerConfig, steps: seq<Step>, alias: Alias, kind: Kind, t1: int, t2: int)
    requires ArrivalsInOrder(steps) && t1 <= t2
    ensures Passed(cfg, steps, alias, kind, t1, t2) as real <= Allowance(Capacity(kind, cfg.policy.rateLimits), t2 - t1)
  {
    hide Passed, Charges, Calls, Allowance;
    PassedAreCharged(cfg, steps, alias, kind, t1, t2);
    CallTimes(cfg, steps);
    RateBound(cfg.policy.rateLimits, Calls(cfg, steps), alias, kind, t1, t2);
  }

  /** Conversely `rate_limited` is only ever answered when the sender's own bucket or
      its msg bucket was charged its full capacity within the last minute. */
  lemma LimitedOnlyAfterFullMinute(cfg: BrokerConfig, steps: seq<Step>, k: nat)
    requires ArrivalsInOrder(steps) && k < |steps| && Requesting(Run(cfg, steps[..k]), steps[k])
    requires HasLimited(OutsAt(cfg, steps, k))
    ensures
      var c, limits, calls := CallOf(steps[k]), cfg.policy.rateLimits, Calls(cfg, steps[..k]);
      var t1 := c.now - RATE_BUCKET_WINDOW_MS;
      || Charges(limits, calls, c.alias, c.kind, t1, c.now) >= Capacity(c.kind, limits)
      || Charges(limits, calls, c.alias, MsgKind, t1, c.now) >= Capacity(MsgKind, limits)
  {
    hide Check, Agree, Next, Rates, Charges, HasError, HasLimited, Run;
    var s, step, upto := Run(cfg, steps[..k]), steps[k], steps[..k + 1];
    var c, calls := CallOf(step), Calls(cfg, steps[..k]);
    assert upto[..k] == steps[..k];
    RunAgrees(cfg, steps[..k]);
    RequestCharged(s, cfg, step);
    RatesComeFromCalls(cfg, steps[..k]);
    CallTimes(cfg, upto);
    assert MadeCheck(s, cfg, step);
    assert Calls(cfg, upto) == calls + [c];
    assert (calls + [c])[..|calls + [c]| - 1] == calls;
    RefusedOnlyAfterFullMinute(cfg.policy.rateLimits, calls, c);
  }
}
