/**
 The mailboxes inside the broker: every run of the broker is a run of the mailbox
 module, and everything that leaves a mailbox undelivered is reported to its
 sender if that sender is online.
 */
module Postbox {
  import opened Common
  import opened StateTables
  import opened RateLimit
  import opened Policy
  import opened Rooms
  import opened Broker
  import opened Routing
  import opened Membership
  import opened Outcomes
  import opened Honesty
  import opened Throughput
  import CapRouting
  import MB = Mailbox

  // ---- mailbox steps in sequence ----

  /** The box after some mailbox steps, and all they handed back as dropped. */
  function After(b: MB.Box, cfg: BrokerConfig, mail: seq<MB.Step>): (MB.Box, seq<Stored>) {
    if mail == [] then (b, [])
    else
      var (b1, dropped) := After(b, cfg, mail[..|mail| - 1]);
      var e := MB.Apply(b1, cfg.mailbox, mail[|mail| - 1]);
      (e.box, dropped + e.dropped)
  }

  lemma AfterOne(b: MB.Box, cfg: BrokerConfig, x: MB.Step)
    ensures After(b, cfg, [x]) == (MB.Apply(b, cfg.mailbox, x).box, MB.Apply(b, cfg.mailbox, x).dropped)
  {
    assert [x][..0] == [];
    assert [] + MB.Apply(b, cfg.mailbox, x).dropped == MB.Apply(b, cfg.mailbox, x).dropped;
  }

  lemma AfterSnoc(b: MB.Box, cfg: BrokerConfig, mail: seq<MB.Step>, x: MB.Step)
    ensures
      var (b1, dropped) := After(b, cfg, mail);
      var e := MB.Apply(b1, cfg.mailbox, x);
      After(b, cfg, mail + [x]) == (e.box, dropped + e.dropped)
  {
    assert (mail + [x])[..|mail + [x]| - 1] == mail;
  }

  lemma MailRunUnfolds(cfg: BrokerConfig, mail: seq<MB.Step>)
    requires mail != []
    ensures MB.Run(cfg.mailbox, mail)
         == MB.Apply(MB.Run(cfg.mailbox, mail[..|mail| - 1]), cfg.mailbox, mail[|mail| - 1]).box
  {}

  lemma {:induction false} RunAppends(cfg: BrokerConfig, before: seq<MB.Step>, mail: seq<MB.Step>)
    ensures MB.Run(cfg.mailbox, before + mail) == After(MB.Run(cfg.mailbox, before), cfg, mail).0
  {
    if mail == [] {
      assert before + mail == before;
    } else {
      hide MB.Apply, MB.Run, After;
      var front, x := mail[..|mail| - 1], mail[|mail| - 1];
      RunAppends(cfg, before, front);
      LastOfBoth(before, mail);
      MailRunUnfolds(cfg, before + mail);
      AfterSnoc(MB.Run(cfg.mailbox, before), cfg, front, x);
    }
  }

  lemma LastOfBoth(before: seq<MB.Step>, mail: seq<MB.Step>)
    requires mail != []
    ensures
      var all, front, x := before + mail, mail[..|mail| - 1], mail[|mail| - 1];
      all[..|all| - 1] == before + front && all[|all| - 1] == x && mail == front + [x]
  {}

  // ---- receipts ----

  /** The drop notices among the answers. */
  function Receipts(outs: seq<Out>): seq<Out> {
    if outs == [] then []
    else Receipts(outs[..|outs| - 1]) + if outs[|outs| - 1].DropNotice? then [outs[|outs| - 1]] else []
  }

  lemma {:induction false} ReceiptsAdd(a: seq<Out>, b: seq<Out>)
    ensures Receipts(a + b) == Receipts(a) + Receipts(b)
  {
    if b == [] {
      assert a + b == a;
    } else {
      ReceiptsAdd(a, b[..|b| - 1]);
      assert (a + b)[..|a + b| - 1] == a + b[..|b| - 1];
    }
  }

  lemma {:induction false} NoticesAreReceipts(s: State, dropped: seq<Stored>)
    ensures Receipts(DropNotices(s, dropped)) == DropNotices(s, dropped)
  {
    if dropped != [] {
      var front := dropped[..|dropped| - 1];
      NoticesAreReceipts(s, front);
      var f := dropped[|dropped| - 1].frame;
      var last := if IsOnline(s, f.from) then [DropNotice(s.tables.peers[f.from].sock, f.id, f.to)] else [];
      ReceiptsAdd(DropNotices(s, front), last);
      if last != [] { assert last[..0] == []; }
    }
  }

  predicate Unrelated(outs: seq<Out>) { forall i :: 0 <= i < |outs| ==> !outs[i].DropNotice? }

  lemma {:induction false} UnrelatedReceipts(outs: seq<Out>)
    requires Unrelated(outs)
    ensures Receipts(outs) == []
  {
    if outs != [] { UnrelatedReceipts(outs[..|outs| - 1]); }
  }

  lemma ReceiptsThenAnswer(s: State, dropped: seq<Stored>, rest: seq<Out>)
    requires Unrelated(rest)
    ensures Receipts(DropNotices(s, dropped) + rest) == DropNotices(s, dropped)
  {
    ReceiptsAdd(DropNotices(s, dropped), rest);
    NoticesAreReceipts(s, dropped);
    UnrelatedReceipts(rest);
  }

  lemma {:induction false} NoticesAdd(s: State, a: seq<Stored>, b: seq<Stored>)
    ensures DropNotices(s, a + b) == DropNotices(s, a) + DropNotices(s, b)
  {
    if b == [] {
      assert a + b == a;
    } else {
      NoticesAdd(s, a, b[..|b| - 1]);
      assert (a + b)[..|a + b| - 1] == a + b[..|b| - 1];
    }
  }

  /** The step did the mailbox steps `mail`, and sent exactly the receipts for what they dropped. */
  ghost predicate Posted(s: State, cfg: BrokerConfig, s': State, outs: seq<Out>, mail: seq<MB.Step>) {
    var (b, dropped) := After(s.box, cfg, mail);
    s'.box == b && Receipts(outs) == DropNotices(s', dropped)
  }

  lemma NothingPosted(s: State, cfg: BrokerConfig, s': State, outs: seq<Out>)
    requires s'.box == s.box && Unrelated(outs)
    ensures Posted(s, cfg, s', outs, [])
  {
    UnrelatedReceipts(outs);
  }

  /** One frame put into a mailbox. */
  lemma QueuePosted(s: State, s1: State, cfg: BrokerConfig, alias: Alias, frame: Msg, now: int, rest: seq<Out>)
    requires s1.box == s.box && Unrelated(rest)
    ensures
      var (s2, notices) := Broker.Queue(s1, cfg, alias, frame, now);
      Posted(s, cfg, s2, notices + rest, [MB.EnqueueStep(alias, frame, now)])
  {
    hide MB.Enqueue, DropNotices;
    AfterOne(s.box, cfg, MB.EnqueueStep(alias, frame, now));
    var (s2, notices) := Broker.Queue(s1, cfg, alias, frame, now);
    var dropped := MB.Enqueue(s1.box, cfg.mailbox, alias, frame, now).1;
    ReceiptsThenAnswer(s1, dropped, rest);
    NoticesFrame(s1, s2, dropped);
  }

  // ---- broadcasts ----

  /** The mailboxes a broadcast fills, in the order of the members. */
  function BoxSteps(s: State, from: Alias, m: Msg, members: seq<Alias>, now: int): seq<MB.Step> {
    if members == [] then []
    else
      var a := members[|members| - 1];
      BoxSteps(s, from, m, members[..|members| - 1], now)
      + if a != from && !IsOnline(s, a) && a in s.known then [MB.EnqueueStep(a, m, now)] else []
  }

  ghost predicate FanPosted(s: State, cfg: BrokerConfig, f: Fan, mail: seq<MB.Step>) {
    var (b, dropped) := After(s.box, cfg, mail);
    f.state == s.(box := b) && f.outs == DropNotices(s, dropped)
  }

  lemma FanOnePosted(s: State, cfg: BrokerConfig, from: Alias, m: Msg, a: Alias, now: int, f: Fan, mail: seq<MB.Step>)
    requires FanPosted(s, cfg, f, mail)
    ensures
      var here := if a != from && !IsOnline(s, a) && a in s.known then [MB.EnqueueStep(a, m, now)] else [];
      FanPosted(s, cfg, FanOne(f, cfg, from, m, a, now), mail + here)
  {
    hide MB.Enqueue, DropNotices;
    if a != from && !IsOnline(s, a) && a in s.known {
      AfterSnoc(s.box, cfg, mail, MB.EnqueueStep(a, m, now));
      var dropped := MB.Enqueue(f.state.box, cfg.mailbox, a, m, now).1;
      NoticesAdd(s, After(s.box, cfg, mail).1, dropped);
      NoticesFrame(f.state, s, dropped);
    } else {
      assert mail + [] == mail;
    }
  }

  lemma {:induction false} FanOutPosted(s: State, cfg: BrokerConfig, from: Alias, m: Msg, members: seq<Alias>, now: int)
    ensures FanPosted(s, cfg, FanOut(s, cfg, from, m, members, now), BoxSteps(s, from, m, members, now))
  {
    hide FanOne;
    if members != [] {
      hide FanPosted, IsOnline;
      var front, a := members[..|members| - 1], members[|members| - 1];
      FanOutPosted(s, cfg, from, m, front, now);
      FanOnePosted(s, cfg, from, m, a, now, FanOut(s, cfg, from, m, front, now), BoxSteps(s, from, m, front, now));
    }
  }

  lemma {:induction false} BoxStepsFrame(s: State, s': State, from: Alias, m: Msg, members: seq<Alias>, now: int)
    requires s'.tables == s.tables && s'.destroyed == s.destroyed && s'.known == s.known
    ensures BoxSteps(s', from, m, members, now) == BoxSteps(s, from, m, members, now)
  {
    if members != [] { BoxStepsFrame(s, s', from, m, members[..|members| - 1], now); }
  }

  lemma BroadcastPosted(s: State, cfg: BrokerConfig, from: Peer, token: nat, m: Msg, now: int)
    ensures
      var (s', outs) := RouteBroadcast(s, cfg, from, token, m, now);
      Posted(s, cfg, s', outs, if HasError(outs) then [] else BoxSteps(s, from.alias, m, Members(s.tables, MsgRoom(m)),
          now))
  {
    hide Check, EvaluatePolicy, FanOut, Members, BoxSteps, Posted;
    var members := Members(s.tables, MsgRoom(m));
    var s1 := Charge(s, cfg, from.alias, KindOf(MsgPriority(m)), now).0;
    var (s', outs) := RouteBroadcast(s, cfg, from, token, m, now);
    FanOutPlain(s1, cfg, from.alias, m, members, now);
    if |outs| == 1 && outs[0].MsgError? {
      NothingPosted(s, cfg, s', outs);
    } else {
      FanOutPosted(s1, cfg, from.alias, m, members, now);
      BoxStepsFrame(s, s1, from.alias, m, members, now);
      var f := FanOut(s1, cfg, from.alias, m, members, now);
      FanPostedThen(s, cfg, s1, s', f, BoxSteps(s, from.alias, m, members, now), outs[|f.outs|..]);
      assert outs == f.outs + outs[|f.outs|..];
    }
  }

  lemma FanPostedThen(s: State, cfg: BrokerConfig, s1: State, s': State, f: Fan, mail: seq<MB.Step>, rest: seq<Out>)
    requires s1 == s.(rates := s1.rates) && FanPosted(s1, cfg, f, mail) && Unrelated(rest)
    requires s' == f.state.(writes := s'.writes)
    ensures Posted(s, cfg, s', f.outs + rest, mail)
  {
    hide DropNotices, After;
    var dropped := After(s.box, cfg, mail).1;
    ReceiptsThenAnswer(s1, dropped, rest);
    NoticesFrame(s1, s', dropped);
  }

  lemma DirectPosted(s: State, cfg: BrokerConfig, from: Peer, token: nat, m: Msg, to: Alias, now: int)
    ensures
      var (s', outs) := RouteDirect(s, cfg, from, token, m, to, now);
      Posted(s, cfg, s', outs,
        if HasError(outs) || IsOnline(s, to) then []
        else [MB.EnqueueStep(to, RoutedFrame(m, DecisionFor(cfg, from.alias, m, to)), now)])
  {
    hide Check, EvaluatePolicy, Broker.Queue, Posted;
    var s1 := Charge(s, cfg, from.alias, KindOf(MsgPriority(m)), now).0;
    var d := DecisionFor(cfg, from.alias, m, to);
    var (s', outs) := RouteDirect(s, cfg, from, token, m, to, now);
    if outs == [] || (|outs| == 1 && outs[0].MsgError?) {
      NothingPosted(s, cfg, s', outs);
    } else {
      var ack := MsgAck(token, from.sock, m.id, QueuedOffline, InterruptOf(d, MsgPriority(m)), None, None);
      QueuePosted(s, s1, cfg, to, RoutedFrame(m, d), now, [ack]);
      QueuedIsPlain(s1, cfg, to, RoutedFrame(m, d), now, ack);
    }
  }

  lemma QueuedIsPlain(s: State, cfg: BrokerConfig, to: Alias, f: Msg, now: int, ack: Out)
    requires ack.MsgAck?
    ensures !HasError(Broker.Queue(s, cfg, to, f, now).1 + [ack])
    ensures |Broker.Queue(s, cfg, to, f, now).1 + [ack]| >= 1
  {
    hide MB.Enqueue, DropNotices;
    NoticesArePlain(s, MB.Enqueue(s.box, cfg.mailbox, to, f, now).1);
  }

  lemma CapPosted(s: State, cfg: BrokerConfig, from: Peer, token: nat, m: Msg, cap: string, now: int)
    ensures var (s', outs) := RouteCap(s, cfg, from, token, m, cap, now); Posted(s, cfg, s', outs, [])
  {
    hide Check, EvaluatePolicy, CapRouting.Choose, Posted;
    var (s', outs) := RouteCap(s, cfg, from, token, m, cap, now);
    NothingPosted(s, cfg, s', outs);
  }

  // ---- the mailbox steps of a broker step ----

  /** What submitting a message puts into mailboxes. */
  ghost function MsgMail(s: State, cfg: BrokerConfig, m: Msg, now: int, outs: seq<Out>): seq<MB.Step> {
    if HasError(outs) then []
    else if m.broadcast then BoxSteps(s, m.from, m, Members(s.tables, MsgRoom(m)), now)
    else if m.to.Some? && CapTarget(m.to.value).None? && !IsOnline(s, m.to.value) then
      [MB.EnqueueStep(m.to.value, Forwarded(cfg, m.from, m, m.to.value, None), now)]
    else []
  }

  function ExpireSteps(order: seq<Alias>, now: int): seq<MB.Step> {
    if order == [] then [] else ExpireSteps(order[..|order| - 1], now) + [MB.ExpireStep(order[|order| - 1], now)]
  }

  ghost function MailOf(s: State, cfg: BrokerConfig, step: Step): seq<MB.Step> {
    match step
    case Deliver(sock, f, now) =>
      if Submitting(s, step) then MsgMail(s, cfg, f.msg, now, Next(s, cfg, step).1)
      else if f.HelloFrame? && !Authed(s, sock, f) && Acceptable(s, cfg, sock, f.hello) then
        [MB.FlushStep(f.hello.from.value, now)]
      else []
    case WriteDone(t, ok, now) =>
      if DirectCompletion(s, step) && !ok then [MB.EnqueueStep(s.writes[t].target.alias, s.writes[t].routed, now)]
      else []
    case FanWriteDone(t, a, ok, now) => if FanCompletion(s, step) && !ok then
      [MB.EnqueueStep(a, s.writes[t].original, now)] else []
    case PurgeStep(order, now) => if Enabled(s, step) then ExpireSteps(order, now) else []
    case _ => []
  }

  lemma MsgPosted(s: State, cfg: BrokerConfig, from: Peer, m: Msg, now: int)
    requires from.alias == m.from
    ensures
      var (s', outs) := RouteMsg(s, cfg, from, m, now);
      Posted(s, cfg, s', outs, MsgMail(s, cfg, m, now, outs))
  {
    hide RouteBroadcast, RouteDirect, RouteCap, BoxSteps, Posted, HasError, Members, EvaluatePolicy;
    var token, s0 := s.nextToken, s.(nextToken := s.nextToken + 1);
    var (s', outs) := RouteMsg(s, cfg, from, m, now);
    if m.broadcast {
      BroadcastPosted(s0, cfg, from, token, m, now);
      BoxStepsFrame(s, s0, m.from, m, Members(s.tables, MsgRoom(m)), now);
      PostedFrame(s, s0, cfg, s', outs, MsgMail(s, cfg, m, now, outs));
    } else if m.to.None? || SenderGate(from, MsgRoom(m)).Some? {
      NothingPosted(s, cfg, s', outs);
      RefusedHasError(outs);
    } else if CapTarget(m.to.value).Some? {
      CapPosted(s0, cfg, from, token, m, CapTarget(m.to.value).value, now);
      PostedFrame(s, s0, cfg, s', outs, []);
    } else {
      DirectPosted(s0, cfg, from, token, m, m.to.value, now);
      PostedFrame(s, s0, cfg, s', outs, MsgMail(s, cfg, m, now, outs));
    }
  }

  lemma RefusedHasError(outs: seq<Out>)
    requires |outs| == 1 && outs[0].MsgError?
    ensures HasError(outs)
  {}

  lemma PostedFrame(s: State, s0: State, cfg: BrokerConfig, s': State, outs: seq<Out>, mail: seq<MB.Step>)
    requires s0.box == s.box && Posted(s0, cfg, s', outs, mail)
    ensures Posted(s, cfg, s', outs, mail)
  {}

  lemma {:induction false} MailOutsUnrelated(sock: Sock, frames: seq<Stored>)
    ensures Unrelated(MailboxOuts(sock, frames))
  {
    if frames != [] { MailOutsUnrelated(sock, frames[..|frames| - 1]); }
  }

  lemma HelloPosted(s: State, cfg: BrokerConfig, sock: Sock, h: Hello, now: int)
    ensures
      var (s', outs) := HandleHello(s, cfg, sock, h, now);
      Posted(s, cfg, s', outs, if Acceptable(s, cfg, sock, h) then [MB.FlushStep(h.from.value, now)] else [])
  {
    hide HandleHello, Acceptable, DropNotices, MailboxOuts, MB.FreshPart, MB.ExpiredPart;
    var (s', outs) := HandleHello(s, cfg, sock, h, now);
    HelloMailbox(s, cfg, sock, h, now);
    if Acceptable(s, cfg, sock, h) {
      AcceptableHasAlias(s, cfg, sock, h);
      var live := MB.FreshPart(MB.Queue(s.box, h.from.value), cfg.mailbox.mailboxTtlMs, now);
      var gone := MB.ExpiredPart(MB.Queue(s.box, h.from.value), cfg.mailbox.mailboxTtlMs, now);
      var rest := [Welcome(sock, h.id, RoomSet(WantedRooms(h)), |live|)] + MailboxOuts(sock, live);
      AfterOne(s.box, cfg, MB.FlushStep(h.from.value, now));
      MailOutsUnrelated(sock, live);
      ReceiptsThenAnswer(s', gone, rest);
      assert outs == DropNotices(s', gone) + rest;
    } else {
      NothingPosted(s, cfg, s', outs);
    }
  }

  lemma AcceptableHasAlias(s: State, cfg: BrokerConfig, sock: Sock, h: Hello)
    requires Acceptable(s, cfg, sock, h)
    ensures h.from.Some?
  {
    hide AllJoinable;
  }

  lemma {:induction false} PurgePosted(b: MB.Box, cfg: BrokerConfig, order: seq<Alias>, now: int)
    ensures After(b, cfg, ExpireSteps(order, now)) == (MB.ExpireAll(b, cfg.mailbox, order, now),
        MB.ExpiredOver(b, cfg.mailbox, order, now))
  {
    if order != [] {
      hide MB.Expire;
      var front, a := order[..|order| - 1], order[|order| - 1];
      PurgePosted(b, cfg, front, now);
      AfterSnoc(b, cfg, ExpireSteps(front, now), MB.ExpireStep(a, now));
    }
  }

  lemma DispatchPosted(s: State, cfg: BrokerConfig, sock: Sock, f: Frame, now: int)
    requires Agree(s.tables, cfg.maxRooms)
    ensures
      var (s', outs) := Dispatch(s, cfg, sock, f, now);
      Posted(s, cfg, s', outs, MailOf(s, cfg, Deliver(sock, f, now)))
  {
    hide Agree, HandleHello, RouteMsg, HandleCtl, Join, Leave, Posted, MsgMail, Acceptable;
    var (s', outs) := Dispatch(s, cfg, sock, f, now);
    if Submitting(s, Deliver(sock, f, now)) {
      AliasIsKey(s.tables, cfg.maxRooms, f.msg.from);
      MsgPosted(s, cfg, s.tables.peers[f.msg.from], f.msg, now);
    } else if f.HelloFrame? && !Authed(s, sock, f) {
      HelloPosted(s, cfg, sock, f.hello, now);
    } else {
      if f.CtlFrame? && Authed(s, sock, f) { CtlUnposted(s, cfg, s.tables.peers[f.ctl.from], f.ctl, now); }
      NothingPosted(s, cfg, s', outs);
    }
  }

  lemma CtlUnposted(s: State, cfg: BrokerConfig, from: Peer, c: Ctl, now: int)
    ensures var (s', outs) := HandleCtl(s, cfg, from, c, now); s'.box == s.box && Unrelated(outs)
  {
    hide Check, EvaluatePolicy, LivePending;
  }

  lemma DirectDonePosted(s: State, cfg: BrokerConfig, token: nat, ok: bool, now: int)
    requires token in s.writes && s.writes[token].DirectWrite?
    ensures
      var (s', outs) := DirectDone(s, cfg, token, ok, now);
      var w := s.writes[token];
      Posted(s, cfg, s', outs, if ok then [] else [MB.EnqueueStep(w.target.alias, w.routed, now)])
  {
    hide Broker.Queue, CloseRef, Posted;
    var (s', outs) := DirectDone(s, cfg, token, ok, now);
    var w, s1 := s.writes[token], s.(writes := s.writes - {token});
    if ok {
      NothingPosted(s, cfg, s', outs);
    } else {
      CloseRefFrame(s1, w.target);
      QueuePosted(s, CloseRef(s1, w.target), cfg, w.target.alias, w.routed, now, [DirectAck(token, w, false)]);
    }
  }

  lemma FanDonePosted(s: State, cfg: BrokerConfig, token: nat, a: Alias, ok: bool, now: int)
    requires token in s.writes && s.writes[token].FanWrite? && a in s.writes[token].waiting
    ensures
      var (s', outs) := FanDone(s, cfg, token, a, ok, now);
      Posted(s, cfg, s', outs, if ok then [] else [MB.EnqueueStep(a, s.writes[token].original, now)])
  {
    hide Broker.Queue, CloseRef, Posted;
    var (s', outs) := FanDone(s, cfg, token, a, ok, now);
    var w := s.writes[token];
    if ok {
      NothingPosted(s, cfg, s', outs);
    } else {
      var s1 := CloseRef(s, w.waiting[a]);
      CloseRefFrame(s, w.waiting[a]);
      var (s2, notices) := Broker.Queue(s1, cfg, a, w.original, now);
      var rest := outs[|notices|..];
      assert outs == notices + rest;
      QueuePosted(s, s1, cfg, a, w.original, now, rest);
      PostedWrites(s, cfg, s2, s', outs, [MB.EnqueueStep(a, w.original, now)]);
    }
  }

  lemma PostedWrites(s: State, cfg: BrokerConfig, s2: State, s': State, outs: seq<Out>, mail: seq<MB.Step>)
    requires Posted(s, cfg, s2, outs, mail) && s' == s2.(writes := s'.writes)
    ensures Posted(s, cfg, s', outs, mail)
  {
    hide After;
    NoticesFrame(s2, s', After(s.box, cfg, mail).1);
  }

  /**
   Every step of the broker does exactly its mailbox steps, and answers with exactly
   one drop notice, under the original id and to the sender's current connection,
   for each entry they dropped whose sender is online.
   */
  lemma StepPosted(s: State, cfg: BrokerConfig, step: Step)
    requires Agree(s.tables, cfg.maxRooms)
    ensures var (s', outs) := Next(s, cfg, step); Posted(s, cfg, s', outs, MailOf(s, cfg, step))
  {
    hide Agree, Dispatch, DirectDone, FanDone, Posted, Submitting, Acceptable, MsgMail, CloseRef;
    var (s', outs) := Next(s, cfg, step);
    if !Enabled(s, step) {
      NothingPosted(s, cfg, s', outs);
    } else {
      match step {
        case Deliver(sock, f, now) => DispatchPosted(s, cfg, sock, f, now);
        case WriteDone(t, ok, now) => DirectDonePosted(s, cfg, t, ok, now);
        case FanWriteDone(t, a, ok, now) => FanDonePosted(s, cfg, t, a, ok, now);
        case PurgeStep(order, now) => PurgeStepPosted(s, cfg, order, now);
        case CtlWriteDone(n, ok) =>
          CloseRefFrame(s.(ctlWrites := s.ctlWrites - {n}, pendingCtl := s.pendingCtl - {s.ctlWrites[n].ctl.id}),
              s.ctlWrites[n].target);
          NothingPosted(s, cfg, s', outs);
        case MailWriteDone(n, ok) =>
          CloseRefFrame(s.(mailWrites := s.mailWrites - {n}), s.mailWrites[n].target);
          NothingPosted(s, cfg, s', outs);
        case SendFailed(r) =>
          CloseRefFrame(s, r);
          NothingPosted(s, cfg, s', outs);
        case SocketClosed(sock, order) =>
          CloseAllFrame(s.(destroyed := s.destroyed + {sock}), order);
          NothingPosted(s, cfg, s', outs);
        case _ => NothingPosted(s, cfg, s', outs);
      }
    }
  }

  lemma PurgeStepPosted(s: State, cfg: BrokerConfig, order: seq<Alias>, now: int)
    ensures var (s', outs) := Purge(s, cfg, order, now); Posted(s, cfg, s', outs, ExpireSteps(order, now))
  {
    hide DropNotices, MB.ExpireAll, MB.ExpiredOver;
    PurgePosted(s.box, cfg, order, now);
    var gone := MB.ExpiredOver(s.box, cfg.mailbox, order, now);
    var s' := Purge(s, cfg, order, now).0;
    NoticesAreReceipts(s, gone);
    NoticesFrame(s, s', gone);
  }

  // ---- runs ----

  ghost function Mail(cfg: BrokerConfig, steps: seq<Step>): seq<MB.Step> {
    if steps == [] then []
    else Mail(cfg, steps[..|steps| - 1]) + MailOf(Run(cfg, steps[..|steps| - 1]), cfg, steps[|steps| - 1])
  }

  /** Every run of the broker is a run of the mailbox. */
  lemma {:induction false} BrokerRunsMailbox(cfg: BrokerConfig, steps: seq<Step>)
    ensures Run(cfg, steps).box == MB.Run(cfg.mailbox, Mail(cfg, steps))
  {
    if steps != [] {
      hide Agree, Next, MailOf, After;
      var front, step := steps[..|steps| - 1], steps[|steps| - 1];
      BrokerRunsMailbox(cfg, front);
      RunAgrees(cfg, front);
      RunUnfolds(cfg, steps);
      StepPosted(Run(cfg, front), cfg, step);
      RunAppends(cfg, Mail(cfg, front), MailOf(Run(cfg, front), cfg, step));
    }
  }

  lemma {:induction false} BoxStepsEnqueue(s: State, from: Alias, m: Msg, members: seq<Alias>, now: int)
    ensures forall x :: x in BoxSteps(s, from, m, members, now) ==> x.EnqueueStep?
  {
    if members != [] { BoxStepsEnqueue(s, from, m, members[..|members| - 1], now); }
  }

  lemma {:induction false} ExpireStepsExpire(order: seq<Alias>, now: int)
    ensures forall x :: x in ExpireSteps(order, now) ==> x.ExpireStep?
  {
    if order != [] { ExpireStepsExpire(order[..|order| - 1], now); }
  }

  lemma NoSizeQueryInStep(s: State, cfg: BrokerConfig, step: Step)
    ensures forall x :: x in MailOf(s, cfg, step) ==> !x.SizeStep?
  {
    hide Next, Acceptable, BoxSteps, ExpireSteps;
    match step {
      case Deliver(sock, f, now) =>
        if f.MsgFrame? { BoxStepsEnqueue(s, f.msg.from, f.msg, Members(s.tables, MsgRoom(f.msg)), now); }
      case PurgeStep(order, now) => ExpireStepsExpire(order, now);
      case _ =>
    }
  }

  lemma {:induction false} NoSizeQuery(cfg: BrokerConfig, steps: seq<Step>)
    ensures forall x :: x in Mail(cfg, steps) ==> !x.SizeStep?
  {
    if steps != [] {
      hide MailOf;
      NoSizeQuery(cfg, steps[..|steps| - 1]);
      NoSizeQueryInStep(Run(cfg, steps[..|steps| - 1]), cfg, steps[|steps| - 1]);
    }
  }

  // ---- mailbox entries on their way ----

  predicate Carries(w: MailWrite, alias: Alias, x: Stored) { w.target.alias == alias && w.stored == x }

  /** How many outstanding writes carry entry `x` to `alias`. */
  ghost function InFlight(writes: map<nat, MailWrite>, alias: Alias, x: Stored): nat {
    |Flights(writes, alias, x)|
  }

  function Flights(writes: map<nat, MailWrite>, alias: Alias, x: Stored): set<nat> {
    set n | n in writes && Carries(writes[n], alias, x)
  }

  lemma OneMoreFlight(writes: map<nat, MailWrite>, n: nat, w: MailWrite, alias: Alias, x: Stored)
    requires n !in writes
    ensures InFlight(writes[n := w], alias, x) == InFlight(writes, alias, x) + if Carries(w, alias, x) then 1 else 0
  {
    var f, f' := Flights(writes, alias, x), Flights(writes[n := w], alias, x);
    hide Carries;
    forall k ensures k in f' <==> k in f || (k == n && Carries(w, alias, x)) {}
    assert n !in f;
    hide Flights;
    if Carries(w, alias, x) { assert f' == f + {n}; } else { assert f' == f; }
  }

  lemma OneFlightLess(writes: map<nat, MailWrite>, n: nat, alias: Alias, x: Stored)
    requires n in writes
    ensures InFlight(writes, alias, x)
         == InFlight(writes - {n}, alias, x) + if Carries(writes[n], alias, x) then 1 else 0
  {
    OneMoreFlight(writes - {n}, n, writes[n], alias, x);
    assert (writes - {n})[n := writes[n]] == writes;
  }

  predicate Below(writes: map<nat, MailWrite>, next: nat) { forall n :: n in writes ==> n < next }

  /** Issuing mailbox writes puts exactly those entries on their way. */
  lemma {:induction false} IssueCounts(writes: map<nat, MailWrite>, next: nat, target: Ref, frames: seq<Stored>,
      alias: Alias, x: Stored)
    requires Below(writes, next)
    ensures Below(IssueMail(writes, next, target, frames), next + |frames|)
    ensures InFlight(IssueMail(writes, next, target, frames), alias, x)
         == InFlight(writes, alias, x) + if target.alias == alias then MB.Count(frames, x) else 0
  {
    if frames != [] {
      var n := |frames| - 1;
      IssueCounts(writes, next, target, frames[..n], alias, x);
      OneMoreFlight(IssueMail(writes, next, target, frames[..n]), next + n, MailWrite(target, frames[n]), alias, x);
      assert frames == frames[..n] + [frames[n]];
      MB.CountConcat(frames[..n], [frames[n]], x);
    }
  }

  /** The step completes the write of entry `x` to `alias`, with outcome `ok`. */
  predicate Lands(s: State, step: Step, alias: Alias, x: Stored, ok: bool) {
    step.MailWriteDone? && step.n in s.mailWrites && step.ok == ok && Carries(s.mailWrites[step.n], alias, x)
  }

  ghost function Landings(cfg: BrokerConfig, steps: seq<Step>, alias: Alias, x: Stored, ok: bool): nat {
    if steps == [] then 0
    else
      var front, step := steps[..|steps| - 1], steps[|steps| - 1];
      Landings(cfg, front, alias, x, ok) + if Lands(Run(cfg, front), step, alias, x, ok) then 1 else 0
  }

  predicate Greeting(s: State, cfg: BrokerConfig, step: Step) {
    step.Deliver? && step.frame.HelloFrame? && !Authed(s, step.sock, step.frame)
    && Acceptable(s, cfg, step.sock, step.frame.hello)
  }

  /** What a step hands over to `alias`. */
  function HandedOver(s: State, cfg: BrokerConfig, step: Step, alias: Alias): seq<Stored> {
    if Greeting(s, cfg, step) && step.frame.hello.from == Some(alias) then
      MB.FreshPart(MB.Queue(s.box, alias), cfg.mailbox.mailboxTtlMs, step.now)
    else []
  }

  lemma OtherFramesKeepFlights(s: State, cfg: BrokerConfig, sock: Sock, f: Frame, now: int)
    requires !f.HelloFrame? || Authed(s, sock, f) || !Acceptable(s, cfg, sock, f.hello)
    requires Agree(s.tables, cfg.maxRooms)
    ensures
      var s' := Dispatch(s, cfg, sock, f, now).0;
      s'.mailWrites == s.mailWrites && s'.nextMail == s.nextMail
  {
    hide Agree, RouteMsg, HandleHello, HandleCtl, Join, Leave, Acceptable;
    if f.HelloFrame? {
      HelloMailbox(s, cfg, sock, f.hello, now);
    } else if Authed(s, sock, f) {
      match f {
        case MsgFrame(m) => MsgFrameRule(s, cfg, s.tables.peers[m.from], m, now);
        case CtlFrame(c) => CtlKeepsFlights(s, cfg, s.tables.peers[c.from], c, now);
        case _ =>
      }
    }
  }

  lemma CtlKeepsFlights(s: State, cfg: BrokerConfig, from: Peer, c: Ctl, now: int)
    ensures var s' := HandleCtl(s, cfg, from, c, now).0; s'.mailWrites == s.mailWrites && s'.nextMail == s.nextMail
  {
    hide Check, LivePending;
  }

  lemma GreetingIssues(s: State, cfg: BrokerConfig, step: Step, alias: Alias, x: Stored)
    requires Greeting(s, cfg, step) && Below(s.mailWrites, s.nextMail)
    ensures
      var s' := Next(s, cfg, step).0;
      && Below(s'.mailWrites, s'.nextMail)
      && InFlight(s'.mailWrites, alias, x)
         == InFlight(s.mailWrites, alias, x) + MB.Count(HandedOver(s, cfg, step, alias), x)
  {
    hide HandleHello, Acceptable, MB.FreshPart, MB.ExpiredPart, DropNotices, InFlight, IssueMail;
    var h := step.frame.hello;
    AcceptableHasAlias(s, cfg, step.sock, h);
    HelloMailbox(s, cfg, step.sock, h, step.now);
    var live := MB.FreshPart(MB.Queue(s.box, h.from.value), cfg.mailbox.mailboxTtlMs, step.now);
    IssueCounts(s.mailWrites, s.nextMail, RefOf(PeerFor(s, step.sock, h)), live, alias, x);
  }

  /** Over one step, what is on its way to `alias` changes by what is handed over and what lands. */
  lemma StepFlights(s: State, cfg: BrokerConfig, step: Step, alias: Alias, x: Stored)
    requires Agree(s.tables, cfg.maxRooms) && Below(s.mailWrites, s.nextMail)
    ensures
      var s' := Next(s, cfg, step).0;
      && Below(s'.mailWrites, s'.nextMail)
      && InFlight(s'.mailWrites, alias, x)
           + (if Lands(s, step, alias, x, true) then 1 else 0) + (if Lands(s, step, alias, x, false) then 1 else 0)
         == InFlight(s.mailWrites, alias, x) + MB.Count(HandedOver(s, cfg, step, alias), x)
  {
    hide Agree, Next, InFlight, Acceptable, MB.FreshPart;
    if Greeting(s, cfg, step) {
      GreetingIssues(s, cfg, step, alias, x);
    } else if step.MailWriteDone? && step.n in s.mailWrites {
      OneFlightLess(s.mailWrites, step.n, alias, x);
      MailDoneLands(s, cfg, step);
    } else {
      OtherStepsKeepFlights(s, cfg, step);
    }
  }

  lemma MailDoneLands(s: State, cfg: BrokerConfig, step: Step)
    requires step.MailWriteDone? && step.n in s.mailWrites
    ensures var s' := Next(s, cfg, step).0; s'.mailWrites == s.mailWrites - {step.n} && s'.nextMail == s.nextMail
  {
    hide CloseRef;
    CloseRefFrame(s.(mailWrites := s.mailWrites - {step.n}), s.mailWrites[step.n].target);
  }

  lemma OtherStepsKeepFlights(s: State, cfg: BrokerConfig, step: Step)
    requires Agree(s.tables, cfg.maxRooms) && !Greeting(s, cfg, step)
      && !(step.MailWriteDone? && step.n in s.mailWrites)
    ensures var s' := Next(s, cfg, step).0; s'.mailWrites == s.mailWrites && s'.nextMail == s.nextMail
  {
    if step.Deliver? {
      hide Agree, Dispatch, Acceptable;
      OtherFramesKeepFlights(s, cfg, step.sock, step.frame, step.now);
    } else if step.MailWriteDone? {
    } else {
      hide Next;
      EnvironmentFrame(s, cfg, step);
    }
  }

  /** Steps that flush nothing leave the delivered part of the ledger alone. */
  lemma {:induction false} DeliveredUnchanged(cfg: BrokerConfig, before: seq<MB.Step>, mail: seq<MB.Step>, alias: Alias)
    requires forall y :: y in mail ==> !y.FlushStep?
    ensures MB.History(cfg.mailbox, before + mail, alias).delivered == MB.History(cfg.mailbox, before, alias).delivered
  {
    if mail == [] {
      assert before + mail == before;
    } else {
      var all, front, y := before + mail, mail[..|mail| - 1], mail[|mail| - 1];
      assert all[..|all| - 1] == before + front && all[|all| - 1] == y && y in mail;
      DeliveredUnchanged(cfg, before, front, alias);
      LastDelivers(cfg, all, alias);
    }
  }

  lemma LastDelivers(cfg: BrokerConfig, mail: seq<MB.Step>, alias: Alias)
    requires mail != []
    ensures
      var front, y := mail[..|mail| - 1], mail[|mail| - 1];
      MB.History(cfg.mailbox, mail, alias).delivered == MB.History(cfg.mailbox, front, alias).delivered
        + if y.FlushStep? && y.alias == alias
          then MB.FreshPart(MB.Queue(MB.Run(cfg.mailbox, front), alias), cfg.mailbox.mailboxTtlMs, y.now) else []
  {
    hide MB.FreshPart, MB.ExpiredPart, MB.Run;
  }

  lemma OnlyGreetingsFlush(s: State, cfg: BrokerConfig, step: Step)
    ensures
      if Greeting(s, cfg, step) then MailOf(s, cfg, step) == [MB.FlushStep(step.frame.hello.from.value, step.now)]
      else forall y :: y in MailOf(s, cfg, step) ==> !y.FlushStep?
  {
    hide Next, Acceptable, BoxSteps, ExpireSteps, HasError;
    match step {
      case Deliver(sock, f, now) =>
        if f.HelloFrame? && Acceptable(s, cfg, sock, f.hello) { AcceptableHasAlias(s, cfg, sock, f.hello); }
        if f.MsgFrame? { BoxStepsEnqueue(s, f.msg.from, f.msg, Members(s.tables, MsgRoom(f.msg)), now); }
      case PurgeStep(order, now) => ExpireStepsExpire(order, now);
      case _ =>
    }
  }

  lemma StepDelivers(cfg: BrokerConfig, steps: seq<Step>, alias: Alias, x: Stored)
    requires steps != []
    ensures
      var front, step := steps[..|steps| - 1], steps[|steps| - 1];
      MB.Count(MB.History(cfg.mailbox, Mail(cfg, steps), alias).delivered, x)
        == MB.Count(MB.History(cfg.mailbox, Mail(cfg, front), alias).delivered, x)
           + MB.Count(HandedOver(Run(cfg, front), cfg, step, alias), x)
  {
    hide MB.History, MB.FreshPart, MailOf, Run, MB.Run, Acceptable;
    var front, step := steps[..|steps| - 1], steps[|steps| - 1];
    var s, before := Run(cfg, front), Mail(cfg, front);
    OnlyGreetingsFlush(s, cfg, step);
    BrokerRunsMailbox(cfg, front);
    if Greeting(s, cfg, step) {
      AcceptableHasAlias(s, cfg, step.sock, step.frame.hello);
      var all := before + MailOf(s, cfg, step);
      assert all[..|all| - 1] == before;
      LastDelivers(cfg, all, alias);
      MB.CountConcat(MB.History(cfg.mailbox, before, alias).delivered, HandedOver(s, cfg, step, alias), x);
    } else {
      DeliveredUnchanged(cfg, before, MailOf(s, cfg, step), alias);
    }
  }

  /** Every entry counted as delivered is still on its way, has arrived, or was lost with its connection. */
  lemma {:induction false} DeliveredIsInFlightOrLanded(cfg: BrokerConfig, steps: seq<Step>, alias: Alias, x: Stored)
    ensures Below(Run(cfg, steps).mailWrites, Run(cfg, steps).nextMail)
    ensures MB.Count(MB.History(cfg.mailbox, Mail(cfg, steps), alias).delivered, x)
         == InFlight(Run(cfg, steps).mailWrites, alias, x)
            + Landings(cfg, steps, alias, x, true) + Landings(cfg, steps, alias, x, false)
  {
    if steps == [] {
      assert Flights(INITIAL.mailWrites, alias, x) == {};
    } else {
      hide Agree, Next, InFlight, HandedOver, Lands, MB.History, Mail;
      var front, step := steps[..|steps| - 1], steps[|steps| - 1];
      DeliveredIsInFlightOrLanded(cfg, front, alias, x);
      RunAgrees(cfg, front);
      StepFlights(Run(cfg, front), cfg, step, alias, x);
      StepDelivers(cfg, steps, alias, x);
    }
  }

  // ---- announcements ----

  /** What step `k` of the run dropped from mailboxes. */
  ghost function DroppedAt(cfg: BrokerConfig, steps: seq<Step>, k: nat): seq<Stored>
    requires k < |steps|
  {
    After(Run(cfg, steps[..k]).box, cfg, MailOf(Run(cfg, steps[..k]), cfg, steps[k])).1
  }

  lemma {:induction false} NoticesIff(s: State, dropped: seq<Stored>, o: Out)
    ensures o in DropNotices(s, dropped) <==>
      exists x ::
        && x in dropped && IsOnline(s, x.frame.from)
        && o == DropNotice(s.tables.peers[x.frame.from].sock, x.frame.id, x.frame.to)
  {
    if dropped != [] {
      var front, y := dropped[..|dropped| - 1], dropped[|dropped| - 1];
      NoticesIff(s, front, o);
      assert dropped == front + [y];
      assert forall x :: x in dropped <==> x in front || x == y;
    }
  }

  lemma {:induction false} ReceiptsIff(outs: seq<Out>, o: Out)
    ensures o in Receipts(outs) <==> o in outs && o.DropNotice?
  {
    if outs != [] {
      ReceiptsIff(outs[..|outs| - 1], o);
      assert outs == outs[..|outs| - 1] + [outs[|outs| - 1]];
    }
  }

  /** A drop notice goes out in a step exactly for an entry dropped in it whose sender is then online; it
      names the message and whom it was for. */
  lemma NoticesTellTheDrops(cfg: BrokerConfig, steps: seq<Step>, k: nat, o: Out)
    requires k < |steps| && o.DropNotice?
    ensures
      var s' := Run(cfg, steps[..k + 1]);
      o in OutsAt(cfg, steps, k) <==>
        exists x ::
          && x in DroppedAt(cfg, steps, k) && IsOnline(s', x.frame.from)
          && o == DropNotice(s'.tables.peers[x.frame.from].sock, x.frame.id, x.frame.to)
  {
    hide Agree, Next, Run, MailOf, After, DropNotices, IsOnline;
    assert steps[..k + 1][..k] == steps[..k];
    RunAgrees(cfg, steps[..k]);
    RunUnfolds(cfg, steps[..k + 1]);
    StepPosted(Run(cfg, steps[..k]), cfg, steps[k]);
    ReceiptsIff(OutsAt(cfg, steps, k), o);
    NoticesIff(Run(cfg, steps[..k + 1]), DroppedAt(cfg, steps, k), o);
  }

  lemma LastDrops(cfg: BrokerConfig, mail: seq<MB.Step>, alias: Alias)
    requires mail != []
    ensures
      var front, y := mail[..|mail| - 1], mail[|mail| - 1];
      MB.History(cfg.mailbox, mail, alias).dropped == MB.History(cfg.mailbox, front, alias).dropped
        + if y.alias == alias then MB.Apply(MB.Run(cfg.mailbox, front), cfg.mailbox, y).dropped else []
  {
    hide MB.Apply, MB.Run;
  }

  lemma {:induction false} AfterDrops(cfg: BrokerConfig, before: seq<MB.Step>, mail: seq<MB.Step>, alias: Alias,
      x: Stored)
    requires x in MB.History(cfg.mailbox, before + mail, alias).dropped
    ensures x in MB.History(cfg.mailbox, before, alias).dropped || x in After(MB.Run(cfg.mailbox, before), cfg, mail).1
  {
    if mail == [] {
      assert before + mail == before;
    } else {
      hide MB.Apply, MB.Run, MB.History, After;
      var all, front, y := before + mail, mail[..|mail| - 1], mail[|mail| - 1];
      assert all[..|all| - 1] == before + front && all[|all| - 1] == y && mail == front + [y];
      RunAppends(cfg, before, front);
      AfterSnoc(MB.Run(cfg.mailbox, before), cfg, front, y);
      LastDrops(cfg, all, alias);
      if x in MB.History(cfg.mailbox, before + front, alias).dropped { AfterDrops(cfg, before, front, alias, x); }
    }
  }

  /** Every entry the ledger calls dropped was dropped by some step of the run. */
  lemma {:induction false} DropsHappenInSteps(cfg: BrokerConfig, steps: seq<Step>, alias: Alias, x: Stored)
    requires x in MB.History(cfg.mailbox, Mail(cfg, steps), alias).dropped
    ensures exists k: nat :: k < |steps| && x in DroppedAt(cfg, steps, k)
  {
    if steps != [] {
      hide MB.History, MailOf, Run, After;
      var n := |steps| - 1;
      var front := steps[..n];
      BrokerRunsMailbox(cfg, front);
      AfterDrops(cfg, Mail(cfg, front), MailOf(Run(cfg, front), cfg, steps[n]), alias, x);
      if x in MB.History(cfg.mailbox, Mail(cfg, front), alias).dropped {
        DropsHappenInSteps(cfg, front, alias, x);
        var k: nat :| k < |front| && x in DroppedAt(cfg, front, k);
        assert front[..k] == steps[..k];
        assert x in DroppedAt(cfg, steps, k);
      } else {
        assert x in DroppedAt(cfg, steps, n);
      }
    }
  }

  lemma NothingDiscarded(cfg: BrokerConfig, steps: seq<Step>, alias: Alias)
    ensures MB.History(cfg.mailbox, Mail(cfg, steps), alias).discarded == []
  {
    hide Run, Mail;
    NoSizeQuery(cfg, steps);
    MB.SilentLossOnlyBySizeQuery(cfg.mailbox, Mail(cfg, steps), alias);
  }

  /**
   Mailbox conservation in the broker: in every run, every entry ever put into the
   mailbox of an alias is still there, on its way to a connection that said hello,
   has arrived, was dropped by a step, or was lost when its connection broke while it
   was on its way; each once. A drop is announced to its sender if that one is online
   (`NoticesTellTheDrops`), the last kind of loss to nobody (`FailedMailIsSilent`).
   The two counters and the queue lengths add up to the number of entries.
   */
  lemma BrokerConservesMail(cfg: BrokerConfig, steps: seq<Step>, alias: Alias, x: Stored)
    ensures
      var h, s := MB.History(cfg.mailbox, Mail(cfg, steps), alias), Run(cfg, steps);
      MB.Count(h.entered, x)
        == MB.Count(MB.Queue(s.box, alias), x) + InFlight(s.mailWrites, alias, x) + Landings(cfg, steps, alias, x, true)
           + MB.Count(h.dropped, x) + Landings(cfg, steps, alias, x, false)
    ensures
      var h, b := MB.History(cfg.mailbox, Mail(cfg, steps), alias), Run(cfg, steps).box;
      && multiset(h.entered) == multiset(MB.Queue(b, alias)) + multiset(h.delivered) + multiset(h.dropped)
      && MB.EnqueueCount(Mail(cfg, steps)) == MB.QueuedIn(b.queues) + b.delivered + b.dropped
  {
    hide Run, Mail, InFlight, Landings;
    var mail := Mail(cfg, steps);
    BrokerRunsMailbox(cfg, steps);
    NothingDiscarded(cfg, steps, alias);
    MB.Conservation(cfg.mailbox, mail, alias);
    MB.CountersBalance(cfg.mailbox, mail);
    MB.EntryConserved(cfg.mailbox, mail, alias, x);
    DeliveredIsInFlightOrLanded(cfg, steps, alias, x);
  }

  /** A mailbox entry whose write fails is gone: nothing is queued again and nobody is told. */
  lemma FailedMailIsSilent(s: State, cfg: BrokerConfig, n: nat)
    requires n in s.mailWrites
    ensures
      var (s', outs) := Next(s, cfg, MailWriteDone(n, false));
      outs == [] && s'.box == s.box && s'.mailWrites == s.mailWrites - {n}
      && Lands(s, MailWriteDone(n, false), s.mailWrites[n].target.alias, s.mailWrites[n].stored, false)
  {
    hide CloseRef;
    CloseRefFrame(s.(mailWrites := s.mailWrites - {n}), s.mailWrites[n].target);
  }
}
