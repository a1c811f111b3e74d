/**
 The broker as the object it is: handlers that update the shared tables, the
 pending-control map and the outstanding writes in place. Each handler is
 proved to do exactly one step of the protocol in module Broker.
 */
module Server {
  import opened Common
  import opened StateTables
  import opened RateLimit
  import opened Policy
  import opened Rooms
  import opened CapRouting
  import opened Membership
  import B = Broker
  import MB = Mailbox

  class Server {
    const state: BrokerState
    const cfg: B.BrokerConfig
    var destroyed: set<Sock>
    var tokenSockets: set<Sock>
    var pendingCtl: map<MsgId, B.PendingCtl>
    var writes: map<nat, B.Write>
    var nextToken: nat
    var ctlWrites: map<nat, B.CtlWrite>
    var nextCtl: nat
    var mailWrites: map<nat, B.MailWrite>
    var nextMail: nat
    var nextGen: nat
    /** The steps taken so far. */
    ghost var history: seq<B.Step>

    ghost function View(): B.State
      reads this, state
    {
      B.State(TablesOf(state), MB.BoxOf(state), state.rates, state.knownAliases, destroyed, tokenSockets,
              pendingCtl, writes, nextToken, ctlWrites, nextCtl, mailWrites, nextMail, nextGen)
    }

    /** The object is where the steps of its history lead. */
    ghost predicate Valid()
      reads this, state
    {
      View() == B.Run(cfg, history)
    }

    constructor (cfg: B.BrokerConfig)
      ensures Valid() && history == [] && View() == B.INITIAL && fresh(state) && this.cfg == cfg
    {
      this.cfg := cfg;
      state := new BrokerState();
      destroyed, tokenSockets, pendingCtl, writes := {}, {}, map[], map[];
      nextToken, ctlWrites, nextCtl, mailWrites, nextMail, nextGen := 0, map[], 0, map[], 0, 0;
      history := [];
    }

    predicate Online(alias: Alias)
      reads this, state
      ensures Online(alias) == B.IsOnline(View(), alias)
    {
      alias in state.peers && state.peers[alias].sock !in destroyed
    }

    // ---- drop receipts, closing ----

    /** One receipt per dropped entry whose sender is online. */
    method NotifyDropped(dropped: seq<Stored>) returns (outs: seq<B.Out>)
      ensures outs == B.DropNotices(View(), dropped)
    {
      outs := [];
      for i := 0 to |dropped|
        invariant outs == B.DropNotices(View(), dropped[..i])
      {
        assert dropped[..i + 1][..i] == dropped[..i];
        var frame := dropped[i].frame;
        if frame.from !in state.peers || state.peers[frame.from].sock in destroyed { continue; }
        outs := outs + [B.DropNotice(state.peers[frame.from].sock, frame.id, frame.to)];
      }
      assert dropped[..|dropped|] == dropped;
    }

    method Enqueue(alias: Alias, frame: Msg, now: int) returns (outs: seq<B.Out>)
      modifies state`mailbox, state`mailboxDropped
      ensures (View(), outs) == B.Queue(old(View()), cfg, alias, frame, now)
    {
      hide MB.Enqueue, B.DropNotices;
      ghost var s := View();
      var dropped := MB.EnqueueMailbox(state, cfg.mailbox, alias, frame, now);
      outs := NotifyDropped(dropped);
      NoticesFrame(s, View(), dropped);
    }

    /** Detach a record from its rooms and drop it. */
    method Remove(alias: Alias)
      requires alias in state.peers
      modifies state`peers, state`rooms
      ensures TablesOf(state) == Close(old(TablesOf(state)), alias)
    {
      DetachFromRooms(state, alias);
      state.peers := state.peers - {alias};
      assert state.peers == old(state.peers) - {alias};
    }

    method ClosePeer(alias: Alias)
      modifies this`destroyed, state`peers, state`rooms
      ensures View() == B.ClosePeer(old(View()), alias)
    {
      if alias !in state.peers { return; }
      var peer := state.peers[alias];
      Remove(alias);
      destroyed := destroyed + {peer.sock};
    }

    /** Close a record after a failed write, unless it has been replaced since. */
    method CloseIfCurrent(ref: B.Ref)
      modifies this`destroyed, state`peers, state`rooms
      ensures View() == B.CloseRef(old(View()), ref)
    {
      if ref.alias in state.peers && state.peers[ref.alias].gen == ref.gen { ClosePeer(ref.alias); }
    }

    // ---- hello ----

    method Refuse(sock: Sock, id: MsgId, code: B.ErrorCode) returns (outs: seq<B.Out>)
      modifies this`destroyed
      ensures (View(), outs) == B.RefuseHello(old(View()), sock, id, code)
    {
      destroyed := destroyed + {sock};
      outs := [B.Error(sock, id, code)];
    }

    /** Join the requested rooms one after the other, undoing everything on a refusal. */
    method Admit(peer: Peer, wanted: seq<Room>, roles: map<Room, Role>, fallback: Role) returns (ok: bool)
      modifies state`peers, state`rooms
      ensures (TablesOf(state), ok) == Enroll(old(TablesOf(state)), peer, cfg.maxRooms, wanted, roles, fallback)
    {
      hide Join, Close;
      ghost var t0 := TablesOf(state).(peers := state.peers[peer.alias := peer]);
      state.peers := state.peers[peer.alias := peer];
      for i := 0 to |wanted|
        invariant peer.alias in state.peers
        invariant (TablesOf(state), true) == JoinAll(t0, peer.alias, cfg.maxRooms, wanted[..i], roles, fallback)
      {
        assert wanted[..i + 1][..i] == wanted[..i];
        var role := RoleFor(roles, fallback, wanted[i]);
        ghost var t := TablesOf(state);
        var joined := JoinRoom(state, cfg.maxRooms, peer.alias, wanted[i], role);
        if !joined {
          JoinRefusedUnchanged(t, peer.alias, cfg.maxRooms, wanted[i], role);
          JoinAllStops(t0, peer.alias, cfg.maxRooms, wanted, i + 1, roles, fallback);
          Remove(peer.alias);
          return false;
        }
      }
      assert wanted[..|wanted|] == wanted;
      ok := true;
    }

    method HandleHello(sock: Sock, h: B.Hello, now: int) returns (outs: seq<B.Out>)
      modifies this, state
      ensures history == old(history)
      ensures (View(), outs) == B.HandleHello(old(View()), cfg, sock, h, now)
    {
      hide Enroll, B.Greet;
      if h.from.None? {
        outs := Refuse(sock, h.id, B.InvalidAlias);
        return;
      }
      var alias := h.from.value;
      if sock in tokenSockets && (cfg.brokerToken.None? || h.token != cfg.brokerToken) {
        outs := Refuse(sock, h.id, B.InvalidToken);
        return;
      }
      if alias in state.peers && state.peers[alias].sock != sock && state.peers[alias].sock !in destroyed {
        outs := Refuse(sock, h.id, B.AliasTaken);
        return;
      }
      var peer := Peer(alias, sock, nextGen, map[], GetOr(h.reservations, []), Unknown,
          B.EffectiveCaps(h.proto, h.caps));
      nextGen := nextGen + 1;
      state.knownAliases := state.knownAliases[alias := now];
      var ok := Admit(peer, GetOr(h.rooms, [DEFAULT_ROOM]), h.roles, GetOr(h.role, Member));
      if !ok {
        outs := Refuse(sock, h.id, B.BadRoom);
        return;
      }
      outs := Greet(peer, h.id, now);
    }

    /** Flush the mailbox of a new record and welcome it. */
    method Greet(peer: Peer, id: MsgId, now: int) returns (outs: seq<B.Out>)
      modifies this`mailWrites, this`nextMail, state`mailbox, state`mailboxDropped, state`mailboxDelivered
      ensures (View(), outs) == B.Greet(old(View()), cfg, peer, id, now)
    {
      hide MB.Flush, B.DropNotices;
      ghost var s := View();
      var frames, dropped := MB.FlushMailbox(state, cfg.mailbox, peer.alias, now);
      var notices := NotifyDropped(dropped);
      NoticesFrame(s, View(), dropped);
      var rooms := if peer.alias in state.peers then state.peers[peer.alias].rooms else map[];
      var mail := SendMail(B.RefOf(peer), frames);
      outs := notices + [B.Welcome(peer.sock, id, rooms.Keys, |frames|)] + mail;
    }

    /** Hand mailbox entries to the connection, one write each. */
    method SendMail(target: B.Ref, frames: seq<Stored>) returns (outs: seq<B.Out>)
      modifies this`mailWrites, this`nextMail
      ensures outs == B.MailboxOuts(target.sock, frames)
      ensures mailWrites == B.IssueMail(old(mailWrites), old(nextMail), target, frames)
        && nextMail == old(nextMail) + |frames|
    {
      outs := [];
      for i := 0 to |frames|
        invariant outs == B.MailboxOuts(target.sock, frames[..i])
        invariant mailWrites == B.IssueMail(old(mailWrites), old(nextMail), target, frames[..i])
          && nextMail == old(nextMail) + i
      {
        assert frames[..i + 1][..i] == frames[..i];
        outs := outs + [B.MailboxOut(target.sock, frames[i])];
        mailWrites := mailWrites[nextMail := B.MailWrite(target, frames[i])];
        nextMail := nextMail + 1;
      }
      assert frames[..|frames|] == frames;
    }

    /** Callback of the write of a mailbox entry. */
    method MailDone(n: nat, ok: bool)
      requires n in mailWrites
      modifies this`mailWrites, this`destroyed, state`peers, state`rooms
      ensures View() == B.MailDone(old(View()), n, ok)
    {
      hide B.CloseRef;
      var w := mailWrites[n];
      mailWrites := mailWrites - {n};
      if !ok { CloseIfCurrent(w.target); }
    }

    // ---- messages ----

    method Charge(alias: Alias, priority: Priority, now: int) returns (ok: bool)
      modifies state`rates
      ensures (View(), ok) == B.Charge(old(View()), cfg, alias, KindOf(priority), now)
    {
      hide Check;
      ok := CheckRate(state, alias, KindOf(priority), cfg.policy.rateLimits, now);
    }

    /** Deliver to every member: to the socket if online, to the mailbox if known. */
    method FanOut(from: Alias, m: Msg, members: seq<Alias>, now: int)
        returns (waiting: map<Alias, B.Ref>, queued: nat, total: nat, outs: seq<B.Out>)
      modifies state`mailbox, state`mailboxDropped
      ensures B.Fan(View(), waiting, queued, total, outs) == B.FanOut(old(View()), cfg, from, m, members, now)
    {
      hide B.Queue;
      waiting, queued, total, outs := map[], 0, 0, [];
      for i := 0 to |members|
        invariant B.Fan(View(), waiting, queued, total, outs) == B.FanOut(old(View()), cfg, from, m, members[..i], now)
      {
        assert members[..i + 1][..i] == members[..i];
        var alias := members[i];
        if alias == from { continue; }
        total := total + 1;
        if Online(alias) {
          waiting := waiting[alias := B.RefOf(state.peers[alias])];
        } else if alias in state.knownAliases {
          var notices := Enqueue(alias, m, now);
          outs := outs + notices;
          queued := queued + 1;
        }
      }
      assert members[..|members|] == members;
    }

    method RouteBroadcast(from: Peer, token: nat, m: Msg, now: int) returns (outs: seq<B.Out>)
      modifies this, state
      ensures history == old(history)
      ensures (View(), outs) == B.RouteBroadcast(old(View()), cfg, from, token, m, now)
    {
      hide Check, EvaluatePolicy, B.FanOut;
      var room, priority := GetOr(m.room, DEFAULT_ROOM), GetOr(m.priority, Normal);
      if room !in from.rooms { return [B.MsgError(token, from.sock, m.id, B.NotMember)]; }
      if from.rooms[room] == Observer { return [B.MsgError(token, from.sock, m.id, B.ObserverReadonly)]; }
      var members := if room in state.rooms then state.rooms[room] else [];
      if |members| <= 1 { return [B.MsgError(token, from.sock, m.id, B.PeerNotFound)]; }
      var ok := Charge(from.alias, priority, now);
      if !ok { return [B.MsgError(token, from.sock, m.id, B.Limited)]; }
      var d := EvaluatePolicy(cfg.policy, Context(from.alias, "*", room, priority));
      if d.Deny? { return [B.MsgError(token, from.sock, m.id, B.Denied)]; }
      var waiting, queued, total, notices := FanOut(from.alias, m, members, now);
      if waiting == map[] {
        outs := notices + [B.FanAck(token, B.RefOf(from), m, 0, total)];
      } else {
        writes := writes[token := B.FanWrite(B.RefOf(from), m, waiting, 0, queued, total)];
        outs := notices;
      }
    }

    method RouteDirect(from: Peer, token: nat, m: Msg, to: Alias, now: int) returns (outs: seq<B.Out>)
      modifies this, state
      ensures history == old(history)
      ensures (View(), outs) == B.RouteDirect(old(View()), cfg, from, token, m, to, now)
    {
      hide Check, EvaluatePolicy, B.Queue;
      var room, priority := GetOr(m.room, DEFAULT_ROOM), GetOr(m.priority, Normal);
      var online := Online(to);
      if !online && to !in state.knownAliases { return [B.MsgError(token, from.sock, m.id, B.PeerNotFound)]; }
      if online && room !in state.peers[to].rooms { return [B.MsgError(token, from.sock, m.id, B.NotMember)]; }
      var ok := Charge(from.alias, priority, now);
      if !ok { return [B.MsgError(token, from.sock, m.id, B.Limited)]; }
      var d := EvaluatePolicy(cfg.policy, Context(from.alias, to, room, priority));
      if d.Deny? { return [B.MsgError(token, from.sock, m.id, B.Denied)]; }
      var routed, interrupt := B.RoutedFrame(m, d), B.InterruptOf(d, priority);
      if online {
        writes := writes[token := B.DirectWrite(B.RefOf(from), B.RefOf(state.peers[to]), m, routed, interrupt, None)];
        outs := [];
      } else {
        var notices := Enqueue(to, routed, now);
        outs := notices + [B.MsgAck(token, from.sock, m.id, B.QueuedOffline, interrupt, None, None)];
      }
    }

    method RouteCap(from: Peer, token: nat, m: Msg, cap: string, now: int) returns (outs: seq<B.Out>)
      modifies this, state
      ensures history == old(history)
      ensures (View(), outs) == B.RouteCap(old(View()), cfg, from, token, m, cap, now)
    {
      hide Check, EvaluatePolicy, Choose;
      var room, priority := GetOr(m.room, DEFAULT_ROOM), GetOr(m.priority, Normal);
      var ok := Charge(from.alias, priority, now);
      if !ok { return [B.MsgError(token, from.sock, m.id, B.Limited)]; }
      if room !in state.rooms { return [B.MsgError(token, from.sock, m.id, B.PeerNotFound)]; }
      var choice := FindTarget(Net(Tables(state.peers, state.rooms), destroyed), cfg.policy,
                               Request(from.alias, cap, room, priority, now, cfg.aliasLeq), state.rooms[room]);
      if choice.Refused? { return [B.MsgError(token, from.sock, m.id, B.CapCode(choice.code))]; }
      var chosen := choice.peer;
      var d := EvaluatePolicy(cfg.policy, Context(from.alias, chosen.alias, room, priority));
      if d.Deny? { return [B.MsgError(token, from.sock, m.id, B.Denied)]; }
      var addressed := m.(to := Some(chosen.alias), routedCap := Some(cap), routedTo := Some(chosen.alias));
      writes := writes[token := B.DirectWrite(B.RefOf(from), B.RefOf(chosen), m, B.RoutedFrame(addressed, d),
                                              B.InterruptOf(d, priority), Some(chosen.alias))];
      outs := [];
    }

    method RouteMsg(from: Peer, m: Msg, now: int) returns (outs: seq<B.Out>)
      modifies this, state
      ensures history == old(history)
      ensures (View(), outs) == B.RouteMsg(old(View()), cfg, from, m, now)
    {
      hide B.RouteBroadcast, B.RouteDirect, B.RouteCap;
      var token := nextToken;
      nextToken := nextToken + 1;
      if m.broadcast {
        outs := RouteBroadcast(from, token, m, now);
        return;
      }
      if m.to.None? { return [B.MsgError(token, from.sock, m.id, B.InvalidFrame)]; }
      var room := GetOr(m.room, DEFAULT_ROOM);
      if room !in from.rooms { return [B.MsgError(token, from.sock, m.id, B.NotMember)]; }
      if from.rooms[room] == Observer { return [B.MsgError(token, from.sock, m.id, B.ObserverReadonly)]; }
      var cap := B.CapTarget(m.to.value);
      if cap.Some? {
        outs := RouteCap(from, token, m, cap.value, now);
      } else {
        outs := RouteDirect(from, token, m, m.to.value, now);
      }
    }

    /** Callback of a directed or capability-routed write. */
    method DirectDone(token: nat, ok: bool, now: int) returns (outs: seq<B.Out>)
      requires token in writes && writes[token].DirectWrite?
      modifies this, state
      ensures history == old(history)
      ensures (View(), outs) == B.DirectDone(old(View()), cfg, token, ok, now)
    {
      hide B.Queue, B.CloseRef;
      var w := writes[token];
      writes := writes - {token};
      if ok { return [B.MsgAck(token, w.from.sock, w.original.id, B.Delivered, w.interrupt, None, w.routedTo)]; }
      CloseIfCurrent(w.target);
      var notices := Enqueue(w.target.alias, w.routed, now);
      outs := notices + [B.MsgAck(token, w.from.sock, w.original.id, B.QueuedOffline, w.interrupt, None, w.routedTo)];
    }

    /** Callback of one write of a broadcast. */
    method FanDone(token: nat, alias: Alias, ok: bool, now: int) returns (outs: seq<B.Out>)
      requires token in writes && writes[token].FanWrite? && alias in writes[token].waiting
      modifies this, state
      ensures history == old(history)
      ensures (View(), outs) == B.FanDone(old(View()), cfg, token, alias, ok, now)
    {
      hide B.Queue, B.CloseRef;
      var w := writes[token];
      outs := [];
      var delivered, queued := w.delivered, w.queued;
      if ok {
        delivered := delivered + 1;
      } else {
        CloseIfCurrent(w.waiting[alias]);
        outs := Enqueue(alias, w.original, now);
        queued := queued + 1;
      }
      FanFrame(old(View()), w.waiting[alias], cfg, alias, w.original, now);
      var waiting := w.waiting - {alias};
      if waiting == map[] {
        writes := writes - {token};
        outs := outs + [B.FanAck(token, w.from, w.original, delivered, w.total)];
      } else {
        writes := writes[token := B.FanWrite(w.from, w.original, waiting, delivered, queued, w.total)];
      }
    }

    // ---- control plane ----

    /** Forget control frames that were not acknowledged in time. */
    method PrunePending(now: int)
      modifies this`pendingCtl
      ensures pendingCtl == B.LivePending(old(pendingCtl), now)
    {
      var ids := pendingCtl.Keys;
      while ids != {}
        invariant ids <= old(pendingCtl).Keys
        invariant pendingCtl == map id | id in old(pendingCtl)
          && (id in ids || now - old(pendingCtl)[id].at <= B.CTL_PENDING_TTL_MS) :: old(pendingCtl)[id]
      {
        var id :| id in ids;
        ids := ids - {id};
        if now - pendingCtl[id].at > B.CTL_PENDING_TTL_MS { pendingCtl := pendingCtl - {id}; }
      }
    }

    method HandleCtl(from: Peer, c: B.Ctl, now: int) returns (outs: seq<B.Out>)
      modifies this, state
      ensures history == old(history)
      ensures (View(), outs) == B.HandleCtl(old(View()), cfg, from, c, now)
    {
      hide Check, EvaluatePolicy, B.LivePending;
      if c.to.None? { return [B.Error(from.sock, c.id, B.InvalidFrame)]; }
      var to, room := c.to.value, GetOr(c.room, DEFAULT_ROOM);
      if room !in from.rooms { return [B.Error(from.sock, c.id, B.NotMember)]; }
      if from.rooms[room] == Observer { return [B.Error(from.sock, c.id, B.ObserverReadonly)]; }
      if !Online(to) { return [B.Error(from.sock, c.id, B.Unreachable)]; }
      var target := state.peers[to];
      if room !in target.rooms { return [B.Error(from.sock, c.id, B.NotMember)]; }
      var priority := if c.action == Some("abort") || c.action == Some("redirect") then Force else Normal;
      var d := EvaluatePolicy(cfg.policy, Context(from.alias, to, room, priority));
      if d != Allow { return [B.Error(from.sock, c.id, B.Denied)]; }
      var ok := Charge(from.alias, priority, now);
      if !ok { return [B.Error(from.sock, c.id, B.Limited)]; }
      PrunePending(now);
      pendingCtl := pendingCtl[c.id := B.PendingCtl(from.alias, to, GetOr(c.action, ""), now)];
      ctlWrites := ctlWrites[nextCtl := B.CtlWrite(B.RefOf(from), B.RefOf(target), c)];
      nextCtl := nextCtl + 1;
      outs := [];
    }

    /** Callback of a control write. */
    method CtlDone(n: nat, ok: bool) returns (outs: seq<B.Out>)
      requires n in ctlWrites
      modifies this, state
      ensures history == old(history)
      ensures (View(), outs) == B.CtlDone(old(View()), n, ok)
    {
      hide B.CloseRef;
      var w := ctlWrites[n];
      ctlWrites := ctlWrites - {n};
      if ok { return []; }
      pendingCtl := pendingCtl - {w.ctl.id};
      CloseIfCurrent(w.target);
      outs := [B.Error(w.from.sock, w.ctl.id, B.Unreachable)];
    }

    method HandleCtlAck(from: Peer, ack: B.CtlAck) returns (outs: seq<B.Out>)
      modifies this`pendingCtl
      ensures (View(), outs) == B.HandleCtlAck(old(View()), from, ack)
    {
      if ack.replyTo.None? || ack.replyTo.value !in pendingCtl { return []; }
      var id := ack.replyTo.value;
      var p := pendingCtl[id];
      if p.to != from.alias || ack.to != Some(p.from) { return []; }
      if p.action != GetOr(ack.action, "") { return []; }
      pendingCtl := pendingCtl - {id};
      if !Online(p.from) { return []; }
      outs := [B.CtlAckOut(state.peers[p.from].sock, ack)];
    }

    // ---- dispatch ----

    method Dispatch(sock: Sock, f: B.Frame, now: int) returns (outs: seq<B.Out>)
      modifies this, state
      ensures history == old(history)
      ensures (View(), outs) == B.Dispatch(old(View()), cfg, sock, f, now)
    {
      hide B.HandleHello, B.RouteMsg, B.HandleCtl, B.HandleCtlAck, Join, Leave;
      var from := f.From();
      var authed := from.Some? && from.value in state.peers && state.peers[from.value].sock == sock;
      if f.HelloFrame? {
        if authed { return [B.Error(sock, f.Id(), B.InvalidFrame)]; }
        outs := HandleHello(sock, f.hello, now);
        return;
      }
      if !authed { return [B.Error(sock, f.Id(), B.HelloRequired)]; }
      var peer := state.peers[from.value];
      match f {
        case MsgFrame(m) => outs := RouteMsg(peer, m, now);
        case CtlFrame(c) => outs := HandleCtl(peer, c, now);
        case CtlAckFrame(a) => outs := HandleCtlAck(peer, a);
        case JoinFrame(id, alias, room, role) =>
          if room.None? { return [B.Error(sock, id, B.BadRoom)]; }
          var ok := JoinRoom(state, cfg.maxRooms, alias, room.value, GetOr(role, Member));
          outs := [if ok then B.OkAck(sock, id) else B.Error(sock, id, B.BadRoom)];
        case LeaveFrame(id, alias, room) =>
          if room.None? { return [B.Error(sock, id, B.BadRoom)]; }
          var ok := LeaveRoom(state, alias, room.value);
          outs := [if ok then B.OkAck(sock, id) else B.Error(sock, id, B.NotMember)];
        case ReserveFrame(id, alias, rs) =>
          state.peers := state.peers[peer.alias := peer.(reservations := rs)];
          outs := [B.OkAck(sock, id)];
        case ReplyFrame(id, alias) =>
          var ok := Charge(peer.alias, Normal, now);
          outs := if ok then [] else [B.Error(peer.sock, id, B.Limited)];
        case ActivityFrame(id, alias, act) =>
          state.peers := state.peers[peer.alias := peer.(activity := act)];
          outs := [];
      }
    }

    // ---- the environment ----

    /** A socket closed: drop every record that is on it. */
    method SocketClosed(sock: Sock) returns (ghost order: seq<Alias>)
      modifies this`destroyed, state`peers, state`rooms
      ensures B.Enabled(old(View()), B.SocketClosed(sock, order))
      ensures View() == B.CloseAll(old(View()).(destroyed := old(destroyed) + {sock}), order)
    {
      hide B.ClosePeer;
      order := [];
      destroyed := destroyed + {sock};
      ghost var s0 := View();
      var aliases := set a | a in state.peers && state.peers[a].sock == sock;
      while aliases != {}
        invariant NoDup(order)
        invariant forall a :: a in aliases || a in order <==> a in old(state.peers) && old(state.peers)[a].sock == sock
        invariant forall a :: a in aliases ==> a !in order
        invariant View() == B.CloseAll(s0, order)
      {
        var alias :| alias in aliases;
        ClosePeer(alias);
        aliases := aliases - {alias};
        ghost var longer := order + [alias];
        AppendNoDup(order, alias);
        assert longer[..|longer| - 1] == order;
        order := longer;
      }
    }

    /** Forget aliases that have neither a connection nor mail and are out of date. */
    method PruneKnownAliases(now: int)
      modifies state`knownAliases
      ensures View() == B.PruneKnown(old(View()), now)
    {
      var aliases := state.knownAliases.Keys;
      while aliases != {}
        invariant aliases <= old(state.knownAliases).Keys
        invariant state.knownAliases ==
          map a | a in old(state.knownAliases) && (a in aliases || B.StaysKnown(old(View()), a, now)) ::
            old(state.knownAliases)[a]
      {
        var alias :| alias in aliases;
        aliases := aliases - {alias};
        if alias in state.peers || alias in state.mailbox { continue; }
        if now - state.knownAliases[alias] > B.KNOWN_ALIAS_TTL_MS {
          state.knownAliases := state.knownAliases - {alias};
        }
      }
    }

    /** Drop the reservations that are too old. */
    method SweepReservations(now: int)
      modifies state`peers
      ensures View() == B.SweepReservations(old(View()), cfg, now)
    {
      hide B.Unexpired;
      if cfg.reservationTtlMs <= 0 { return; }
      var aliases := state.peers.Keys;
      while aliases != {}
        invariant aliases <= old(state.peers).Keys
        invariant state.peers == map a | a in old(state.peers) ::
          if a in aliases then old(state.peers)[a]
          else B.Lapsed(old(state.peers)[a], cfg.reservationTtlMs, now)
      {
        var alias :| alias in aliases;
        aliases := aliases - {alias};
        state.peers := state.peers[alias := B.Lapsed(state.peers[alias], cfg.reservationTtlMs, now)];
      }
    }

    method PurgeMailboxExpired(now: int) returns (outs: seq<B.Out>, ghost order: seq<Alias>)
      modifies state`mailbox, state`mailboxDropped
      ensures B.Enabled(old(View()), B.PurgeStep(order, now))
      ensures (View(), outs) == B.Purge(old(View()), cfg, order, now)
    {
      hide B.DropNotices;
      ghost var s := View();
      var dropped;
      dropped, order := MB.PurgeAllExpired(state, cfg.mailbox, now);
      outs := NotifyDropped(dropped);
      NoticesFrame(s, View(), dropped);
    }

    // ---- events: each is one step of the protocol ----

    /** The new history, which leads to where the object is. */
    ghost predicate Stepped(before: seq<B.Step>, step: B.Step)
      reads this, state
    {
      history == before + [step] && Valid()
    }

    method OnAccept(sock: Sock, tokenRequired: bool)
      requires Valid()
      modifies this`tokenSockets, this`history
      ensures Stepped(old(history), B.Accept(sock, tokenRequired))
    {
      hide B.Run;
      RunSnoc(cfg, history, B.Accept(sock, tokenRequired));
      if tokenRequired { tokenSockets := tokenSockets + {sock}; }
      history := history + [B.Accept(sock, tokenRequired)];
    }

    method OnFrame(sock: Sock, f: B.Frame, now: int) returns (outs: seq<B.Out>)
      requires Valid()
      modifies this, state
      ensures Stepped(old(history), B.Deliver(sock, f, now))
      ensures outs == B.OutsAt(cfg, history, |old(history)|)
    {
      hide B.Dispatch, B.Run;
      RunSnoc(cfg, history, B.Deliver(sock, f, now));
      outs := Dispatch(sock, f, now);
      history := history + [B.Deliver(sock, f, now)];
    }

    method OnWriteDone(token: nat, ok: bool, now: int) returns (outs: seq<B.Out>)
      requires Valid() && token in writes && writes[token].DirectWrite?
      modifies this, state
      ensures Stepped(old(history), B.WriteDone(token, ok, now))
      ensures outs == B.OutsAt(cfg, history, |old(history)|)
    {
      hide B.DirectDone, B.Run;
      RunSnoc(cfg, history, B.WriteDone(token, ok, now));
      outs := DirectDone(token, ok, now);
      history := history + [B.WriteDone(token, ok, now)];
    }

    method OnFanWriteDone(token: nat, alias: Alias, ok: bool, now: int) returns (outs: seq<B.Out>)
      requires Valid() && token in writes && writes[token].FanWrite? && alias in writes[token].waiting
      modifies this, state
      ensures Stepped(old(history), B.FanWriteDone(token, alias, ok, now))
      ensures outs == B.OutsAt(cfg, history, |old(history)|)
    {
      hide B.FanDone, B.Run;
      RunSnoc(cfg, history, B.FanWriteDone(token, alias, ok, now));
      outs := FanDone(token, alias, ok, now);
      history := history + [B.FanWriteDone(token, alias, ok, now)];
    }

    method OnCtlWriteDone(n: nat, ok: bool) returns (outs: seq<B.Out>)
      requires Valid() && n in ctlWrites
      modifies this, state
      ensures Stepped(old(history), B.CtlWriteDone(n, ok))
      ensures outs == B.OutsAt(cfg, history, |old(history)|)
    {
      hide B.CtlDone, B.Run;
      RunSnoc(cfg, history, B.CtlWriteDone(n, ok));
      outs := CtlDone(n, ok);
      history := history + [B.CtlWriteDone(n, ok)];
    }

    method OnMailWriteDone(n: nat, ok: bool)
      requires Valid() && n in mailWrites
      modifies this`mailWrites, this`destroyed, this`history, state`peers, state`rooms
      ensures Stepped(old(history), B.MailWriteDone(n, ok))
    {
      hide B.MailDone, B.Run;
      RunSnoc(cfg, history, B.MailWriteDone(n, ok));
      MailDone(n, ok);
      history := history + [B.MailWriteDone(n, ok)];
    }

    /** The write of an acknowledgement, a welcome or another notice failed. */
    method OnSendFailed(ref: B.Ref)
      requires Valid()
      modifies this`destroyed, this`history, state`peers, state`rooms
      ensures Stepped(old(history), B.SendFailed(ref))
    {
      hide B.CloseRef, B.Run;
      RunSnoc(cfg, history, B.SendFailed(ref));
      CloseIfCurrent(ref);
      history := history + [B.SendFailed(ref)];
    }

    /** A timer, the sweep or the peer destroyed a socket. */
    method OnDestroy(sock: Sock)
      requires Valid()
      modifies this`destroyed, this`history
      ensures Stepped(old(history), B.Destroy(sock))
    {
      hide B.Run;
      RunSnoc(cfg, history, B.Destroy(sock));
      destroyed := destroyed + {sock};
      history := history + [B.Destroy(sock)];
    }

    method OnSocketClosed(sock: Sock)
      requires Valid()
      modifies this`destroyed, this`history, state`peers, state`rooms
      ensures |history| == |old(history)| + 1 && history[|old(history)|].SocketClosed?
        && history[|old(history)|].sock == sock
      ensures Stepped(old(history), history[|old(history)|])
    {
      hide B.CloseAll, B.Run;
      ghost var before := history;
      ghost var order := SocketClosed(sock);
      RunSnoc(cfg, before, B.SocketClosed(sock, order));
      history := before + [B.SocketClosed(sock, order)];
    }

    method OnPrune(now: int)
      requires Valid()
      modifies this`history, state`knownAliases
      ensures Stepped(old(history), B.PruneStep(now))
    {
      hide B.PruneKnown, B.Run;
      RunSnoc(cfg, history, B.PruneStep(now));
      PruneKnownAliases(now);
      history := history + [B.PruneStep(now)];
    }

    method OnSweep(now: int)
      requires Valid()
      modifies this`history, state`peers
      ensures Stepped(old(history), B.SweepStep(now))
    {
      hide B.SweepReservations, B.Run;
      RunSnoc(cfg, history, B.SweepStep(now));
      SweepReservations(now);
      history := history + [B.SweepStep(now)];
    }

    method OnPurge(now: int) returns (outs: seq<B.Out>)
      requires Valid()
      modifies this`history, state`mailbox, state`mailboxDropped
      ensures |history| == |old(history)| + 1 && history[|old(history)|].PurgeStep?
        && history[|old(history)|].now == now
      ensures Stepped(old(history), history[|old(history)|])
      ensures outs == B.OutsAt(cfg, history, |old(history)|)
    {
      hide B.Purge, B.Run;
      ghost var before := history;
      ghost var order;
      outs, order := PurgeMailboxExpired(now);
      RunSnoc(cfg, before, B.PurgeStep(order, now));
      history := before + [B.PurgeStep(order, now)];
    }
  }

  /** What holds of every run holds of every broker object: here, the agreement of its two room tables. */
  lemma TablesAgree(server: Server)
    requires server.Valid()
    ensures Agree(TablesOf(server.state), server.cfg.maxRooms)
  {
    RunAgrees(server.cfg, server.history);
  }

  /** Closing a record and queueing a frame do not touch the outstanding writes. */
  lemma FanFrame(s: B.State, r: B.Ref, cfg: B.BrokerConfig, alias: Alias, m: Msg, now: int)
    ensures B.Queue(B.CloseRef(s, r), cfg, alias, m, now).0.writes == s.writes
  {
    hide MB.Enqueue, B.DropNotices;
  }

  lemma JoinRefusedUnchanged(t: Tables, alias: Alias, maxRooms: int, room: Room, role: Role)
    requires alias in t.peers && !Join(t, alias, maxRooms, room, role).1
    ensures Join(t, alias, maxRooms, room, role).0 == t
  {
    hide HasPlace;
  }

  /** After a refusal the remaining rooms are not looked at. */
  lemma {:induction false} JoinAllStops(t: Tables, alias: Alias, maxRooms: int, wanted: seq<Room>, n: nat,
      roles: map<Room, Role>, fallback: Role)
    requires alias in t.peers && n <= |wanted| && !JoinAll(t, alias, maxRooms, wanted[..n], roles, fallback).1
    ensures JoinAll(t, alias, maxRooms, wanted, roles, fallback)
         == JoinAll(t, alias, maxRooms, wanted[..n], roles, fallback)
  {
    if n == |wanted| {
      assert wanted[..n] == wanted;
    } else {
      var front := wanted[..|wanted| - 1];
      assert front[..n] == wanted[..n];
      JoinAllStops(t, alias, maxRooms, front, n, roles, fallback);
    }
  }
}
