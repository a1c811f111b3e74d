/**
 Control actions: a relayed acknowledgement always answers a control frame that
 its receiver sent and that passed every gate, over all runs.
 */
module Control {
  import opened Common
  import opened StateTables
  import opened RateLimit
  import opened Policy
  import opened Rooms
  import opened Broker
  import opened Routing
  import opened Membership
  import opened Outcomes
  import opened Honesty
  import CapRouting
  import MB = Mailbox

  function CtlRoom(c: Ctl): Room { GetOr(c.room, DEFAULT_ROOM) }

  /** Membership, role, reachability, policy and rate gates of a control frame. */
  predicate PassesGates(s: State, cfg: BrokerConfig, c: Ctl, now: int) {
    && c.from in s.tables.peers && c.to.Some?
    && var from, to, room := s.tables.peers[c.from], c.to.value, CtlRoom(c);
    && room in from.rooms && from.rooms[room] == Member
    && IsOnline(s, to) && room in s.tables.peers[to].rooms
    && EvaluatePolicy(cfg.policy, Context(c.from, to, room, CtlPriority(c))) == Allow
    && Check(s.rates, c.from, KindOf(CtlPriority(c)), cfg.policy.rateLimits, now).1
  }

  /** The step delivers a control frame from its authenticated sender, and it passes. */
  predicate Accepting(s: State, cfg: BrokerConfig, step: Step) {
    step.Deliver? && step.frame.CtlFrame? && Authed(s, step.sock, step.frame)
    && PassesGates(s, cfg, step.frame.ctl, step.now)
  }

  function PendingOf(c: Ctl, now: int): PendingCtl
    requires c.to.Some?
  {
    PendingCtl(c.from, c.to.value, GetOr(c.action, ""), now)
  }

  /** `ack`, sent by the authenticated `ack.from`, answers the pending entry `p`. */
  predicate Fits(ack: CtlAck, p: PendingCtl) {
    p.to == ack.from && ack.to == Some(p.from) && p.action == GetOr(ack.action, "")
  }

  predicate Acking(s: State, step: Step) {
    && step.Deliver? && step.frame.CtlAckFrame? && Authed(s, step.sock, step.frame)
    && var ack := step.frame.ack;
    ack.replyTo.Some? && ack.replyTo.value in s.pendingCtl && Fits(ack, s.pendingCtl[ack.replyTo.value])
  }

  /** Relayed acknowledgements for control id `id`. */
  function Relays(outs: seq<Out>, id: MsgId): nat {
    if outs == [] then 0
    else
      var o := outs[|outs| - 1];
      Relays(outs[..|outs| - 1], id) + if o.CtlAckOut? && o.ack.replyTo == Some(id) then 1 else 0
  }

  predicate NoRelays(outs: seq<Out>) { forall i :: 0 <= i < |outs| ==> !outs[i].CtlAckOut? }

  lemma {:induction false} NoRelaysCount(outs: seq<Out>, id: MsgId)
    requires NoRelays(outs)
    ensures Relays(outs, id) == 0
  {
    if outs != [] { NoRelaysCount(outs[..|outs| - 1], id); }
  }

  lemma {:induction false} RelaysAdd(a: seq<Out>, b: seq<Out>, id: MsgId)
    ensures Relays(a + b, id) == Relays(a, id) + Relays(b, id)
  {
    if b == [] {
      assert a + b == a;
    } else {
      var front, o := b[..|b| - 1], b[|b| - 1];
      assert (a + b)[..|a + b| - 1] == a + front && (a + b)[|a + b| - 1] == o;
      RelaysAdd(a, front, id);
    }
  }

  // ---- what each step does to the pending table ----

  /** The pending table only shrank, and nothing was relayed. */
  ghost predicate Calm(s: State, s': State, outs: seq<Out>) {
    NoRelays(outs) && forall id :: id in s'.pendingCtl ==> id in s.pendingCtl && s'.pendingCtl[id] == s.pendingCtl[id]
  }

  lemma AcceptStep(s: State, cfg: BrokerConfig, step: Step)
    requires Accepting(s, cfg, step) && Agree(s.tables, cfg.maxRooms)
    ensures
      var (s', outs) := Next(s, cfg, step);
      var c := step.frame.ctl;
      outs == [] && s'.pendingCtl == LivePending(s.pendingCtl, step.now)[c.id := PendingOf(c, step.now)]
  {
    hide Agree, HandleCtl;
    AliasIsKey(s.tables, cfg.maxRooms, step.frame.ctl.from);
    PassingCtl(s, cfg, step.frame.ctl, step.now);
  }

  lemma PassingCtl(s: State, cfg: BrokerConfig, c: Ctl, now: int)
    requires PassesGates(s, cfg, c, now) && s.tables.peers[c.from].alias == c.from
    ensures
      var (s', outs) := HandleCtl(s, cfg, s.tables.peers[c.from], c, now);
      outs == [] && s'.pendingCtl == LivePending(s.pendingCtl, now)[c.id := PendingOf(c, now)]
  {
    hide Check, EvaluatePolicy, LivePending;
  }

  lemma AckStep(s: State, cfg: BrokerConfig, step: Step)
    requires Acking(s, step) && Agree(s.tables, cfg.maxRooms)
    ensures
      var (s', outs) := Next(s, cfg, step);
      var ack := step.frame.ack;
      var p := s.pendingCtl[ack.replyTo.value];
      && s'.pendingCtl == s.pendingCtl - {ack.replyTo.value}
      && outs == if IsOnline(s, p.from) then [CtlAckOut(s.tables.peers[p.from].sock, ack)] else []
  {
    AliasIsKey(s.tables, cfg.maxRooms, step.frame.ack.from);
    hide Agree;
  }

  lemma {:induction false} NoticesAreNoRelays(s: State, dropped: seq<Stored>)
    ensures NoRelays(DropNotices(s, dropped))
  {
    if dropped != [] { NoticesAreNoRelays(s, dropped[..|dropped| - 1]); }
  }

  lemma {:induction false} MailboxOutsAreNoRelays(sock: Sock, frames: seq<Stored>)
    ensures NoRelays(MailboxOuts(sock, frames))
  {
    if frames != [] { MailboxOutsAreNoRelays(sock, frames[..|frames| - 1]); }
  }

  lemma HelloCalm(s: State, cfg: BrokerConfig, sock: Sock, h: Hello, now: int)
    ensures var (s', outs) := HandleHello(s, cfg, sock, h, now); Calm(s, s', outs)
  {
    hide Enroll, MB.Flush, HandleHello, DropNotices, MailboxOuts;
    HelloCases(s, cfg, sock, h, now);
    if h.from.Some? {
      var s1 := Enrolled(s, cfg, sock, h, now);
      var (b, frames, dropped) := MB.Flush(s1.box, cfg.mailbox, h.from.value, now);
      NoticesAreNoRelays(s1, dropped);
      MailboxOutsAreNoRelays(sock, frames);
    }
  }

  lemma {:induction false} FanOutCalm(s: State, cfg: BrokerConfig, from: Alias, m: Msg, members: seq<Alias>, now: int)
    ensures var f := FanOut(s, cfg, from, m, members, now); f.state == s.(box := f.state.box) && NoRelays(f.outs)
  {
    hide MB.Enqueue;
    if members != [] {
      var front, a := members[..|members| - 1], members[|members| - 1];
      FanOutCalm(s, cfg, from, m, front, now);
      var f := FanOut(s, cfg, from, m, front, now);
      NoticesAreNoRelays(f.state, MB.Enqueue(f.state.box, cfg.mailbox, a, m, now).1);
    }
  }

  lemma BroadcastCalm(s: State, cfg: BrokerConfig, from: Peer, token: nat, m: Msg, now: int)
    ensures var (s', outs) := RouteBroadcast(s, cfg, from, token, m, now); Calm(s, s', outs)
  {
    hide Check, EvaluatePolicy, FanOut, Members;
    var s1 := Charge(s, cfg, from.alias, KindOf(MsgPriority(m)), now).0;
    FanOutCalm(s1, cfg, from.alias, m, Members(s.tables, MsgRoom(m)), now);
  }

  lemma DirectCalm(s: State, cfg: BrokerConfig, from: Peer, token: nat, m: Msg, to: Alias, now: int)
    ensures var (s', outs) := RouteDirect(s, cfg, from, token, m, to, now); Calm(s, s', outs)
  {
    hide Check, EvaluatePolicy, MB.Enqueue, DropNotices;
    var s1 := Charge(s, cfg, from.alias, KindOf(MsgPriority(m)), now).0;
    var routed := RoutedFrame(m, DecisionFor(cfg, from.alias, m, to));
    NoticesAreNoRelays(s1, MB.Enqueue(s1.box, cfg.mailbox, to, routed, now).1);
  }

  lemma MsgCalm(s: State, cfg: BrokerConfig, from: Peer, m: Msg, now: int)
    ensures var (s', outs) := RouteMsg(s, cfg, from, m, now); Calm(s, s', outs)
  {
    hide RouteBroadcast, RouteDirect, RouteCap;
    var s0 := s.(nextToken := s.nextToken + 1);
    BroadcastCalm(s0, cfg, from, s.nextToken, m, now);
    if m.to.Some? {
      DirectCalm(s0, cfg, from, s.nextToken, m, m.to.value, now);
      if CapTarget(m.to.value).Some? { CapCalm(s0, cfg, from, s.nextToken, m, CapTarget(m.to.value).value, now); }
    }
  }

  lemma CapCalm(s: State, cfg: BrokerConfig, from: Peer, token: nat, m: Msg, cap: string, now: int)
    ensures var (s', outs) := RouteCap(s, cfg, from, token, m, cap, now); Calm(s, s', outs)
  {
    hide Check, EvaluatePolicy, CapRouting.Choose;
  }

  /** A control frame that does not pass changes nothing in the pending table. */
  lemma RefusedCtlCalm(s: State, cfg: BrokerConfig, c: Ctl, now: int)
    requires c.from in s.tables.peers && s.tables.peers[c.from].alias == c.from && !PassesGates(s, cfg, c, now)
    ensures var (s', outs) := HandleCtl(s, cfg, s.tables.peers[c.from], c, now); Calm(s, s', outs)
  {
    hide Check, EvaluatePolicy, LivePending;
  }

  lemma DispatchCalm(s: State, cfg: BrokerConfig, sock: Sock, f: Frame, now: int)
    requires Agree(s.tables, cfg.maxRooms)
    requires var step := Deliver(sock, f, now); !Accepting(s, cfg, step) && !Acking(s, step)
    ensures var (s', outs) := Dispatch(s, cfg, sock, f, now); Calm(s, s', outs)
  {
    hide Agree, HandleHello, RouteMsg, HandleCtl, Join, Leave, PassesGates;
    if f.HelloFrame? {
      HelloCalm(s, cfg, sock, f.hello, now);
    } else if Authed(s, sock, f) {
      var a := f.From().value;
      AliasIsKey(s.tables, cfg.maxRooms, a);
      match f {
        case MsgFrame(m) => MsgCalm(s, cfg, s.tables.peers[a], m, now);
        case CtlFrame(c) => RefusedCtlCalm(s, cfg, c, now);
        case _ =>
      }
    }
  }

  lemma CalmStep(s: State, cfg: BrokerConfig, step: Step)
    requires Agree(s.tables, cfg.maxRooms) && !Accepting(s, cfg, step) && !Acking(s, step)
    ensures var (s', outs) := Next(s, cfg, step); Calm(s, s', outs)
  {
    hide Agree, Dispatch, Accepting, Acking;
    if step.Deliver? {
      DispatchCalm(s, cfg, step.sock, step.frame, step.now);
    } else {
      hide Next;
      EnvironmentFrame(s, cfg, step);
      EnvironmentRelaysNothing(s, cfg, step);
    }
  }

  lemma EnvironmentRelaysNothing(s: State, cfg: BrokerConfig, step: Step)
    requires !step.Deliver?
    ensures NoRelays(Next(s, cfg, step).1)
  {
    hide MB.Enqueue, DropNotices, CloseRef, Unexpired;
    if Enabled(s, step) {
      match step {
        case WriteDone(t, ok, now) =>
          var w := s.writes[t];
          var s2 := CloseRef(s.(writes := s.writes - {t}), w.target);
          NoticesAreNoRelays(s2, MB.Enqueue(s2.box, cfg.mailbox, w.target.alias, w.routed, now).1);
        case FanWriteDone(t, a, ok, now) =>
          var w := s.writes[t];
          var s2 := CloseRef(s, w.waiting[a]);
          NoticesAreNoRelays(s2, MB.Enqueue(s2.box, cfg.mailbox, a, w.original, now).1);
        case PurgeStep(order, now) => NoticesAreNoRelays(s, MB.ExpiredOver(s.box, cfg.mailbox, order, now));
        case _ =>
      }
    }
  }

  // ---- correlation over runs ----

  /** Step `j` accepted a control frame with id `id` that `p` records. */
  ghost predicate AcceptedAt(cfg: BrokerConfig, steps: seq<Step>, j: nat, id: MsgId, p: PendingCtl) {
    && j < |steps| && Accepting(Run(cfg, steps[..j]), cfg, steps[j])
    && steps[j].frame.ctl.id == id && PendingOf(steps[j].frame.ctl, steps[j].now) == p
  }

  ghost predicate WasAccepted(cfg: BrokerConfig, steps: seq<Step>, id: MsgId, p: PendingCtl) {
    exists j: nat :: AcceptedAt(cfg, steps, j, id, p)
  }

  lemma AcceptedPersists(cfg: BrokerConfig, steps: seq<Step>, n: nat, id: MsgId, p: PendingCtl)
    requires n <= |steps| && WasAccepted(cfg, steps[..n], id, p)
    ensures exists j: nat :: j < n && AcceptedAt(cfg, steps, j, id, p)
  {
    hide Accepting, Run;
    var j: nat :| AcceptedAt(cfg, steps[..n], j, id, p);
    assert steps[..n][..j] == steps[..j];
    assert AcceptedAt(cfg, steps, j, id, p);
  }

  /** Every pending entry was recorded by an accepted control frame. */
  lemma {:induction false} PendingWasAccepted(cfg: BrokerConfig, steps: seq<Step>, id: MsgId)
    requires id in Run(cfg, steps).pendingCtl
    ensures WasAccepted(cfg, steps, id, Run(cfg, steps).pendingCtl[id])
  {
    if steps != [] {
      hide Agree, Next, Run, Accepting, Acking;
      var n := |steps| - 1;
      var front, step := steps[..n], steps[n];
      var s, p := Run(cfg, front), Run(cfg, steps).pendingCtl[id];
      RunAgrees(cfg, front);
      RunUnfolds(cfg, steps);
      if Accepting(s, cfg, step) {
        AcceptStep(s, cfg, step);
      } else if Acking(s, step) {
        AckStep(s, cfg, step);
      } else {
        CalmStep(s, cfg, step);
      }
      if Accepting(s, cfg, step) && step.frame.ctl.id == id {
        assert AcceptedAt(cfg, steps, n, id, p);
      } else {
        PendingWasAccepted(cfg, front, id);
        AcceptedPersists(cfg, steps, n, id, p);
      }
    }
  }

  /** What a relayed acknowledgement proves. */
  ghost predicate Correlated(cfg: BrokerConfig, steps: seq<Step>, k: nat, j: nat, o: Out)
    requires k < |steps| && o.CtlAckOut?
  {
    && j < k && Accepting(Run(cfg, steps[..j]), cfg, steps[j])
    && var c, s := steps[j].frame.ctl, Run(cfg, steps[..k]);
    && o.ack.replyTo == Some(c.id) && o.ack.to == Some(c.from) && c.to == Some(o.ack.from)
    && GetOr(o.ack.action, "") == GetOr(c.action, "")
    && IsOnline(s, c.from) && o.sock == s.tables.peers[c.from].sock
    && steps[k].Deliver? && steps[k].frame == CtlAckFrame(o.ack) && Authed(s, steps[k].sock, steps[k].frame)
  }

  /**
   In every run each relayed acknowledgement goes to the alias that earlier sent
   a control frame with that id, to that target, with that action, which passed
   the membership, role, policy and rate gates; and it comes from that target.
   */
  lemma AcksAnswerAcceptedControls(cfg: BrokerConfig, steps: seq<Step>, k: nat, o: Out)
    requires k < |steps| && o in OutsAt(cfg, steps, k) && o.CtlAckOut?
    ensures exists j: nat :: Correlated(cfg, steps, k, j, o)
  {
    hide Agree, Next, Run, Check, EvaluatePolicy;
    var s, step := Run(cfg, steps[..k]), steps[k];
    RunAgrees(cfg, steps[..k]);
    if Acking(s, step) {
      AckStep(s, cfg, step);
      var id := step.frame.ack.replyTo.value;
      PendingWasAccepted(cfg, steps[..k], id);
      AcceptedPersists(cfg, steps, k, id, s.pendingCtl[id]);
      var j: nat :| j < k && AcceptedAt(cfg, steps, j, id, s.pendingCtl[id]);
      assert Correlated(cfg, steps, k, j, o);
    } else {
      if Accepting(s, cfg, step) { AcceptStep(s, cfg, step); } else { CalmStep(s, cfg, step); }
      assert false;
    }
  }

  /** Accepted control frames with id `id`. */
  ghost function Acceptances(cfg: BrokerConfig, steps: seq<Step>, id: MsgId): nat {
    if steps == [] then 0
    else
      var front, step := steps[..|steps| - 1], steps[|steps| - 1];
      Acceptances(cfg, front, id) + if Accepting(Run(cfg, front), cfg, step) && step.frame.ctl.id == id then 1 else 0
  }

  lemma StepSpendsPending(s: State, cfg: BrokerConfig, step: Step, id: MsgId)
    requires Agree(s.tables, cfg.maxRooms)
    ensures
      var (s', outs) := Next(s, cfg, step);
      Relays(outs, id) + (if id in s'.pendingCtl then 1 else 0)
        <= (if id in s.pendingCtl then 1 else 0) + if Accepting(s, cfg, step) && step.frame.ctl.id == id then 1 else 0
  {
    hide Agree, Next, Accepting, IsOnline;
    var (s', outs) := Next(s, cfg, step);
    if Accepting(s, cfg, step) {
      AcceptStep(s, cfg, step);
    } else if Acking(s, step) {
      AckStep(s, cfg, step);
      OneRelay(outs, step.frame.ack, id);
    } else {
      CalmStep(s, cfg, step);
      NoRelaysCount(outs, id);
    }
  }

  lemma OneRelay(outs: seq<Out>, ack: CtlAck, id: MsgId)
    requires outs == [] || (|outs| == 1 && outs[0].CtlAckOut? && outs[0].ack == ack)
    ensures Relays(outs, id) <= if ack.replyTo == Some(id) then 1 else 0
  {
    if outs != [] { assert outs[..0] == []; }
  }

  /** The relayed acknowledgements for an id never outnumber the accepted control frames with that id. */
  lemma {:induction false} NoMoreAcksThanControls(cfg: BrokerConfig, steps: seq<Step>, id: MsgId)
    ensures Relays(Trace(cfg, steps), id) + (if id in Run(cfg, steps).pendingCtl then 1 else 0)
         <= Acceptances(cfg, steps, id)
  {
    if steps != [] {
      hide Agree, Next, Accepting;
      var front, step := steps[..|steps| - 1], steps[|steps| - 1];
      NoMoreAcksThanControls(cfg, front, id);
      RunAgrees(cfg, front);
      StepSpendsPending(Run(cfg, front), cfg, step, id);
      RelaysAdd(Trace(cfg, front), Next(Run(cfg, front), cfg, step).1, id);
    }
  }
}
