/**
 The broker protocol as steps on its tables. A frame written to a socket is an
 outstanding write whose outcome the environment decides later; a write that
 fails at once is one the environment fails first. `Next` gives the new state and
 the answers handed to sockets; presence and reservation broadcasts are left out.
 */
module Broker {
  import opened Common
  import opened StateTables
  import opened RateLimit
  import opened Policy
  import opened Rooms
  import opened CapRouting
  import MB = Mailbox

  // ---- frames ----

  datatype Ctl = Ctl(id: MsgId, from: Alias, to: Option<Alias>, room: Option<Room>, action: Option<string>,
      body: string)

  datatype CtlAck = CtlAck(id: MsgId, from: Alias, to: Option<Alias>, replyTo: Option<MsgId>, action: Option<string>,
      status: string)

  datatype Hello = Hello(
    id: MsgId,
    from: Option<Alias>,
    token: Option<string>,
    rooms: Option<seq<Room>>,
    roles: map<Room, Role>,
    role: Option<Role>,
    reservations: Option<seq<Reservation>>,
    caps: Option<seq<string>>,
    proto: Option<int>)

  datatype Frame =
    | HelloFrame(hello: Hello)
    | MsgFrame(msg: Msg)
    | CtlFrame(ctl: Ctl)
    | CtlAckFrame(ack: CtlAck)
    | JoinFrame(id: MsgId, sender: Alias, room: Option<Room>, role: Option<Role>)
    | LeaveFrame(id: MsgId, sender: Alias, room: Option<Room>)
    | ReserveFrame(id: MsgId, sender: Alias, reservations: seq<Reservation>)
    | ActivityFrame(id: MsgId, sender: Alias, activity: Activity)
    | ReplyFrame(id: MsgId, sender: Alias)
  {
    function From(): Option<Alias> {
      match this
      case HelloFrame(h) => h.from
      case MsgFrame(m) => Some(m.from)
      case CtlFrame(c) => Some(c.from)
      case CtlAckFrame(a) => Some(a.from)
      case _ => Some(sender)
    }

    function Id(): MsgId {
      match this
      case HelloFrame(h) => h.id
      case MsgFrame(m) => m.id
      case CtlFrame(c) => c.id
      case CtlAckFrame(a) => a.id
      case _ => id
    }
  }

  // ---- answers ----

  datatype ErrorCode =
    | InvalidAlias | InvalidToken | AliasTaken | BadRoom | NotMember | ObserverReadonly | PeerNotFound
    | Limited | Denied | InvalidFrame | HelloRequired | Unreachable | NoCapable | CapsMissing

  datatype AckStatus = Delivered | QueuedOffline

  datatype Interrupt = ForceAccepted | ForceDowngraded

  /** `token` numbers the message an answer belongs to, in order of arrival. */
  datatype Out =
    | MsgError(token: nat, sock: Sock, id: MsgId, code: ErrorCode)
    | MsgAck(token: nat, sock: Sock, id: MsgId, status: AckStatus, interrupt: Option<Interrupt>,
             counts: Option<(nat, nat)>, routedTo: Option<Alias>)
    | DropNotice(sock: Sock, id: MsgId, to: Option<string>)
    | Error(sock: Sock, id: MsgId, code: ErrorCode)
    | OkAck(sock: Sock, id: MsgId)
    | Welcome(sock: Sock, id: MsgId, rooms: set<Room>, mailboxCount: nat)
    | MailboxOut(sock: Sock, stored: Stored)
    | CtlAckOut(sock: Sock, ack: CtlAck)

  // ---- state ----

  /** A peer record captured by a callback: `gen` is its identity. */
  datatype Ref = Ref(alias: Alias, sock: Sock, gen: nat)

  function RefOf(p: Peer): Ref { Ref(p.alias, p.sock, p.gen) }

  /** Outstanding writes of relayed messages, by token. */
  datatype Write =
    | DirectWrite(from: Ref, target: Ref, original: Msg, routed: Msg, interrupt: Option<Interrupt>,
        routedTo: Option<Alias>)
    | FanWrite(from: Ref, original: Msg, waiting: map<Alias, Ref>, delivered: nat, queued: nat, total: nat)

  datatype CtlWrite = CtlWrite(from: Ref, target: Ref, ctl: Ctl)

  /** A mailbox entry on its way to the connection that said hello. */
  datatype MailWrite = MailWrite(target: Ref, stored: Stored)

  datatype PendingCtl = PendingCtl(from: Alias, to: Alias, action: string, at: int)

  datatype BrokerConfig = BrokerConfig(
    mailbox: MB.Config,
    maxRooms: int,
    policy: MeshPolicy,
    brokerToken: Option<string>,
    reservationTtlMs: int,
    aliasLeq: AliasOrder)

  datatype State = State(
    tables: Tables,
    box: MB.Box,
    rates: map<Alias, PeerRates>,
    known: map<Alias, int>,
    destroyed: set<Sock>,
    tokenSocks: set<Sock>,
    pendingCtl: map<MsgId, PendingCtl>,
    writes: map<nat, Write>,
    nextToken: nat,
    ctlWrites: map<nat, CtlWrite>,
    nextCtl: nat,
    mailWrites: map<nat, MailWrite>,
    nextMail: nat,
    nextGen: nat)

  const CTL_PENDING_TTL_MS := 60000
  const KNOWN_ALIAS_TTL_MS := 86400000
  const PROTO_VERSION := 2
  const MAX_CAP_CHARS := 32

  const INITIAL := State(Tables(map[], map[]), MB.EMPTY, map[], map[], {}, {}, map[], map[], 0, map[], 0, map[], 0, 0)

  function NetOf(s: State): Net { Net(s.tables, s.destroyed) }

  predicate IsOnline(s: State, a: Alias) { Online(NetOf(s), a) }

  // ---- closing, drop notices ----

  function ClosePeer(s: State, alias: Alias): State {
    if alias !in s.tables.peers then s
    else s.(tables := Close(s.tables, alias), destroyed := s.destroyed + {s.tables.peers[alias].sock})
  }

  predicate IsCurrent(s: State, r: Ref) { r.alias in s.tables.peers && s.tables.peers[r.alias].gen == r.gen }

  /** Close a record after a failed write, unless a re-hello has replaced it. */
  function CloseRef(s: State, r: Ref): State { if IsCurrent(s, r) then ClosePeer(s, r.alias) else s }

  /** One receipt per dropped entry whose original sender is online. */
  function DropNotices(s: State, dropped: seq<Stored>): seq<Out> {
    if dropped == [] then []
    else
      var f := dropped[|dropped| - 1].frame;
      DropNotices(s, dropped[..|dropped| - 1])
      + if IsOnline(s, f.from) then [DropNotice(s.tables.peers[f.from].sock, f.id, f.to)] else []
  }

  /** Put a frame into an offline mailbox and tell the senders of what it displaced. */
  function Queue(s: State, cfg: BrokerConfig, alias: Alias, frame: Msg, now: int): (State, seq<Out>) {
    var (b, dropped) := MB.Enqueue(s.box, cfg.mailbox, alias, frame, now);
    (s.(box := b), DropNotices(s, dropped))
  }

  // ---- hello ----

  function EffectiveCaps(proto: Option<int>, caps: Option<seq<string>>): seq<string> {
    if proto.None? || proto.value < PROTO_VERSION then [] else GetOr(caps, [])
  }

  function NewPeer(s: State, sock: Sock, alias: Alias, h: Hello): Peer {
    Peer(alias, sock, s.nextGen, map[], GetOr(h.reservations, []), Unknown, EffectiveCaps(h.proto, h.caps))
  }

  function WantedRooms(h: Hello): seq<Room> { GetOr(h.rooms, [DEFAULT_ROOM]) }

  function RefuseHello(s: State, sock: Sock, id: MsgId, code: ErrorCode): (State, seq<Out>) {
    (s.(destroyed := s.destroyed + {sock}), [Error(sock, id, code)])
  }

  predicate TokenOk(s: State, cfg: BrokerConfig, sock: Sock, h: Hello) {
    sock in s.tokenSocks ==> cfg.brokerToken.Some? && h.token == cfg.brokerToken
  }

  function MailboxOuts(sock: Sock, frames: seq<Stored>): seq<Out> {
    if frames == [] then [] else MailboxOuts(sock, frames[..|frames| - 1]) + [MailboxOut(sock, frames[|frames| - 1])]
  }

  /** The outstanding writes after one for each of `frames`, numbered from `next`. */
  function IssueMail(writes: map<nat, MailWrite>, next: nat, target: Ref, frames: seq<Stored>): map<nat, MailWrite> {
    if frames == [] then writes
    else
      var n := |frames| - 1;
      IssueMail(writes, next, target, frames[..n])[next + n := MailWrite(target, frames[n])]
  }

  /** The mailbox of a new record is flushed, and it is welcomed. */
  function Greet(s: State, cfg: BrokerConfig, peer: Peer, id: MsgId, now: int): (State, seq<Out>) {
    var (b, frames, dropped) := MB.Flush(s.box, cfg.mailbox, peer.alias, now);
    (s.(box := b, mailWrites := IssueMail(s.mailWrites, s.nextMail, RefOf(peer), frames),
        nextMail := s.nextMail + |frames|),
     DropNotices(s, dropped)
     + [Welcome(peer.sock, id, RoomsOf(s.tables, peer.alias).Keys, |frames|)]
     + MailboxOuts(peer.sock, frames))
  }

  function HandleHello(s: State, cfg: BrokerConfig, sock: Sock, h: Hello, now: int): (State, seq<Out>) {
    if h.from.None? then RefuseHello(s, sock, h.id, InvalidAlias)
    else
      var alias := h.from.value;
      if !TokenOk(s, cfg, sock, h) then RefuseHello(s, sock, h.id, InvalidToken)
      else if alias in s.tables.peers && s.tables.peers[alias].sock != sock
        && s.tables.peers[alias].sock !in s.destroyed then
        RefuseHello(s, sock, h.id, AliasTaken)
      else
        var peer := NewPeer(s, sock, alias, h);
        var (t, ok) := Enroll(s.tables, peer, cfg.maxRooms, WantedRooms(h), h.roles, GetOr(h.role, Member));
        var s1 := s.(tables := t, known := s.known[alias := now], nextGen := s.nextGen + 1);
        if !ok then RefuseHello(s1, sock, h.id, BadRoom)
        else Greet(s1, cfg, peer, h.id, now)
  }

  // ---- messages ----

  function TrimStart(s: string): string { if s != "" && IsSpace(s[0]) then TrimStart(s[1..]) else s }

  function TrimEnd(s: string): string { if s != "" && IsSpace(s[|s| - 1]) then TrimEnd(s[..|s| - 1]) else s }

  function Trim(s: string): string { TrimEnd(TrimStart(s)) }

  /** Lower case as far as it matters here: the characters whose lower case is a letter a-z. */
  function LowerChar(c: char): char {
    if 'A' <= c <= 'Z' then (c as int + 32) as char else if c == '\U{212A}' then 'k' else c
  }

  function Lower(s: string): string { seq(|s|, i requires 0 <= i < |s| => LowerChar(s[i])) }

  /** The capability grammar `[a-z0-9][a-z0-9._-]*`, at most 32 characters. */
  predicate IsCapName(name: string) {
    && 1 <= |name| <= MAX_CAP_CHARS
    && IsLowerOrDigit(name[0])
    && forall i :: 0 < i < |name| ==> IsLowerOrDigit(name[i]) || name[i] == '.' || name[i] == '_' || name[i] == '-'
  }

  /** The capability named by a `cap:` target; a malformed one is an ordinary, unknown alias. */
  function CapTarget(to: string): Option<string> {
    var lower := Lower(Trim(to));
    if !("cap:" <= lower) then None
    else
      var name := Trim(lower[4..]);
      if IsCapName(name) then Some(name) else None
  }

  /** The sender may write to `room`. */
  function SenderGate(from: Peer, room: Room): Option<ErrorCode> {
    if room !in from.rooms then Some(NotMember)
    else if from.rooms[room] == Observer then Some(ObserverReadonly)
    else None
  }

  function RoutedFrame(m: Msg, d: Decision): Msg {
    if d.Downgrade? then m.(priority := Some(Urgent), interrupt := false) else m
  }

  function InterruptOf(d: Decision, p: Priority): Option<Interrupt> {
    if d.Downgrade? then Some(ForceDowngraded) else if p == Force then Some(ForceAccepted) else None
  }

  function RefuseMsg(s: State, from: Peer, token: nat, m: Msg, code: ErrorCode): (State, seq<Out>) {
    (s, [MsgError(token, from.sock, m.id, code)])
  }

  function MsgRoom(m: Msg): Room { GetOr(m.room, DEFAULT_ROOM) }

  function MsgPriority(m: Msg): Priority { GetOr(m.priority, Normal) }

  /** The rate check of a sender; the state keeps the charge or the refill. */
  function Charge(s: State, cfg: BrokerConfig, alias: Alias, kind: Kind, now: int): (State, bool) {
    var (r, ok) := Check(s.rates, alias, kind, cfg.policy.rateLimits, now);
    (s.(rates := r), ok)
  }

  function RouteDirect(s: State, cfg: BrokerConfig, from: Peer, token: nat, m: Msg, to: Alias,
      now: int): (State, seq<Out>) {
    var room, priority := MsgRoom(m), MsgPriority(m);
    var online := IsOnline(s, to);
    if !online && to !in s.known then RefuseMsg(s, from, token, m, PeerNotFound)
    else if online && room !in s.tables.peers[to].rooms then RefuseMsg(s, from, token, m, NotMember)
    else
      var (s1, ok) := Charge(s, cfg, from.alias, KindOf(priority), now);
      var d := EvaluatePolicy(cfg.policy, Context(from.alias, to, room, priority));
      if !ok then RefuseMsg(s1, from, token, m, Limited)
      else if d.Deny? then RefuseMsg(s1, from, token, m, Denied)
      else
        var routed, interrupt := RoutedFrame(m, d), InterruptOf(d, priority);
        if online then
          var write := DirectWrite(RefOf(from), RefOf(s.tables.peers[to]), m, routed, interrupt, None);
          (s1.(writes := s1.writes[token := write]), [])
        else
          var (s2, notices) := Queue(s1, cfg, to, routed, now);
          (s2, notices + [MsgAck(token, from.sock, m.id, QueuedOffline, interrupt, None, None)])
  }

  function CapCode(e: CapError): ErrorCode {
    match e
    case PolicyDenied => Denied
    case NoCapablePeer => NoCapable
    case CapsUnsupported => CapsMissing
  }

  function CapRequest(cfg: BrokerConfig, from: Peer, m: Msg, cap: string, now: int): Request {
    Request(from.alias, cap, MsgRoom(m), MsgPriority(m), now, cfg.aliasLeq)
  }

  function RouteCap(s: State, cfg: BrokerConfig, from: Peer, token: nat, m: Msg, cap: string,
      now: int): (State, seq<Out>) {
    var room, priority := MsgRoom(m), MsgPriority(m);
    var (s1, ok) := Charge(s, cfg, from.alias, KindOf(priority), now);
    if !ok then RefuseMsg(s1, from, token, m, Limited)
    else if room !in s.tables.rooms then RefuseMsg(s1, from, token, m, PeerNotFound)
    else
      match Choose(NetOf(s), cfg.policy, CapRequest(cfg, from, m, cap, now), s.tables.rooms[room])
      case Refused(e) => RefuseMsg(s1, from, token, m, CapCode(e))
      case Chosen(p) =>
        var d := EvaluatePolicy(cfg.policy, Context(from.alias, p.alias, room, priority));
        if d.Deny? then RefuseMsg(s1, from, token, m, Denied)
        else
          var addressed := m.(to := Some(p.alias), routedCap := Some(cap), routedTo := Some(p.alias));
          (s1.(writes := s1.writes[token :=
             DirectWrite(RefOf(from), RefOf(p), m, RoutedFrame(addressed, d), InterruptOf(d, priority),
                 Some(p.alias))]), [])
  }

  /** The fan-out over the members of a room: writes to those online, mailboxes for
      those known but offline. */
  datatype Fan = Fan(state: State, waiting: map<Alias, Ref>, queued: nat, total: nat, outs: seq<Out>)

  function FanOne(f: Fan, cfg: BrokerConfig, from: Alias, m: Msg, a: Alias, now: int): Fan {
    if a == from then f
    else if IsOnline(f.state, a) then
      f.(waiting := f.waiting[a := RefOf(f.state.tables.peers[a])], total := f.total + 1)
    else if a in f.state.known then
      var (s', notices) := Queue(f.state, cfg, a, m, now);
      Fan(s', f.waiting, f.queued + 1, f.total + 1, f.outs + notices)
    else f.(total := f.total + 1)
  }

  function FanOut(s: State, cfg: BrokerConfig, from: Alias, m: Msg, members: seq<Alias>, now: int): Fan {
    if members == [] then Fan(s, map[], 0, 0, [])
    else FanOne(FanOut(s, cfg, from, m, members[..|members| - 1], now), cfg, from, m, members[|members| - 1], now)
  }

  function FanAck(token: nat, from: Ref, m: Msg, delivered: nat, total: nat): Out {
    var status := if delivered > 0 then Delivered else QueuedOffline;
    MsgAck(token, from.sock, m.id, status, None, Some((delivered, total)), None)
  }

  function RouteBroadcast(s: State, cfg: BrokerConfig, from: Peer, token: nat, m: Msg, now: int): (State, seq<Out>) {
    var room, priority := MsgRoom(m), MsgPriority(m);
    var gate := SenderGate(from, room);
    if gate.Some? then RefuseMsg(s, from, token, m, gate.value)
    else if |Members(s.tables, room)| <= 1 then RefuseMsg(s, from, token, m, PeerNotFound)
    else
      var (s1, ok) := Charge(s, cfg, from.alias, KindOf(priority), now);
      if !ok then RefuseMsg(s1, from, token, m, Limited)
      else if EvaluatePolicy(cfg.policy, Context(from.alias, "*", room, priority)).Deny? then
        RefuseMsg(s1, from, token, m, Denied)
      else
        var f := FanOut(s1, cfg, from.alias, m, Members(s.tables, room), now);
        if f.waiting == map[] then (f.state, f.outs + [FanAck(token, RefOf(from), m, 0, f.total)])
        else
          var write := FanWrite(RefOf(from), m, f.waiting, 0, f.queued, f.total);
          (f.state.(writes := f.state.writes[token := write]), f.outs)
  }

  /** A message gets the next token, then takes one of three routes. */
  function RouteMsg(s0: State, cfg: BrokerConfig, from: Peer, m: Msg, now: int): (State, seq<Out>) {
    var token := s0.nextToken;
    var s := s0.(nextToken := token + 1);
    if m.broadcast then RouteBroadcast(s, cfg, from, token, m, now)
    else if m.to.None? then RefuseMsg(s, from, token, m, InvalidFrame)
    else
      var gate := SenderGate(from, MsgRoom(m));
      if gate.Some? then RefuseMsg(s, from, token, m, gate.value)
      else
        var cap := CapTarget(m.to.value);
        if cap.Some? then RouteCap(s, cfg, from, token, m, cap.value, now)
        else RouteDirect(s, cfg, from, token, m, m.to.value, now)
  }

  /** The outcome of a directed or capability-routed write. */
  function DirectDone(s: State, cfg: BrokerConfig, token: nat, ok: bool, now: int): (State, seq<Out>)
    requires token in s.writes && s.writes[token].DirectWrite?
  {
    var w := s.writes[token];
    var s1 := s.(writes := s.writes - {token});
    if ok then (s1, [MsgAck(token, w.from.sock, w.original.id, Delivered, w.interrupt, None, w.routedTo)])
    else
      var (s2, notices) := Queue(CloseRef(s1, w.target), cfg, w.target.alias, w.routed, now);
      (s2, notices + [MsgAck(token, w.from.sock, w.original.id, QueuedOffline, w.interrupt, None, w.routedTo)])
  }

  /** The outcome of one write of a broadcast; the last one sends the receipt. */
  function FanDone(s: State, cfg: BrokerConfig, token: nat, a: Alias, ok: bool, now: int): (State, seq<Out>)
    requires token in s.writes && s.writes[token].FanWrite? && a in s.writes[token].waiting
  {
    var w := s.writes[token];
    var (s1, notices) := if ok then (s, []) else Queue(CloseRef(s, w.waiting[a]), cfg, a, w.original, now);
    var w' := w.(waiting := w.waiting - {a},
                 delivered := w.delivered + if ok then 1 else 0,
                 queued := w.queued + if ok then 0 else 1);
    if w'.waiting == map[] then
      (s1.(writes := s1.writes - {token}), notices + [FanAck(token, w.from, w.original, w'.delivered, w.total)])
    else (s1.(writes := s1.writes[token := w']), notices)
  }

  // ---- control plane ----

  predicate IsForceAction(action: Option<string>) { action == Some("abort") || action == Some("redirect") }

  function CtlPriority(c: Ctl): Priority { if IsForceAction(c.action) then Force else Normal }

  function LivePending(m: map<MsgId, PendingCtl>, now: int): map<MsgId, PendingCtl> {
    map id | id in m && now - m[id].at <= CTL_PENDING_TTL_MS :: m[id]
  }

  function RefuseCtl(s: State, from: Peer, c: Ctl, code: ErrorCode): (State, seq<Out>) {
    (s, [Error(from.sock, c.id, code)])
  }

  function HandleCtl(s: State, cfg: BrokerConfig, from: Peer, c: Ctl, now: int): (State, seq<Out>) {
    if c.to.None? then RefuseCtl(s, from, c, InvalidFrame)
    else
      var to, room := c.to.value, GetOr(c.room, DEFAULT_ROOM);
      var gate := SenderGate(from, room);
      if gate.Some? then RefuseCtl(s, from, c, gate.value)
      else if !IsOnline(s, to) then RefuseCtl(s, from, c, Unreachable)
      else if room !in s.tables.peers[to].rooms then RefuseCtl(s, from, c, NotMember)
      else if EvaluatePolicy(cfg.policy, Context(from.alias, to, room, CtlPriority(c))) != Allow then
        RefuseCtl(s, from, c, Denied)
      else
        var (s1, ok) := Charge(s, cfg, from.alias, KindOf(CtlPriority(c)), now);
        if !ok then RefuseCtl(s1, from, c, Limited)
        else
          var pending := PendingCtl(from.alias, to, GetOr(c.action, ""), now);
          (s1.(pendingCtl := LivePending(s1.pendingCtl, now)[c.id := pending],
               ctlWrites := s1.ctlWrites[s1.nextCtl := CtlWrite(RefOf(from), RefOf(s.tables.peers[to]), c)],
               nextCtl := s1.nextCtl + 1), [])
  }

  function CtlDone(s: State, n: nat, ok: bool): (State, seq<Out>)
    requires n in s.ctlWrites
  {
    var w := s.ctlWrites[n];
    var s1 := s.(ctlWrites := s.ctlWrites - {n});
    if ok then (s1, [])
    else (CloseRef(s1.(pendingCtl := s1.pendingCtl - {w.ctl.id}), w.target),
        [Error(w.from.sock, w.ctl.id, Unreachable)])
  }

  /** A mailbox entry arrived, or was lost with the connection: nobody is told. */
  function MailDone(s: State, n: nat, ok: bool): State
    requires n in s.mailWrites
  {
    var s1 := s.(mailWrites := s.mailWrites - {n});
    if ok then s1 else CloseRef(s1, s.mailWrites[n].target)
  }

  function HandleCtlAck(s: State, from: Peer, ack: CtlAck): (State, seq<Out>) {
    if ack.replyTo.None? || ack.replyTo.value !in s.pendingCtl then (s, [])
    else
      var id := ack.replyTo.value;
      var p := s.pendingCtl[id];
      if p.to != from.alias || ack.to != Some(p.from) || p.action != GetOr(ack.action, "") then (s, [])
      else
        var s1 := s.(pendingCtl := s.pendingCtl - {id});
        if IsOnline(s, p.from) then (s1, [CtlAckOut(s.tables.peers[p.from].sock, ack)]) else (s1, [])
  }

  // ---- rooms, reservations, activity ----

  function HandleJoin(s: State, cfg: BrokerConfig, sock: Sock, alias: Alias, id: MsgId, room: Option<Room>,
      role: Option<Role>): (State, seq<Out>)
    requires alias in s.tables.peers
  {
    if room.None? then (s, [Error(sock, id, BadRoom)])
    else
      var (t, ok) := Join(s.tables, alias, cfg.maxRooms, room.value, GetOr(role, Member));
      (s.(tables := t), [if ok then OkAck(sock, id) else Error(sock, id, BadRoom)])
  }

  function HandleLeave(s: State, sock: Sock, alias: Alias, id: MsgId, room: Option<Room>): (State, seq<Out>)
    requires alias in s.tables.peers
  {
    if room.None? then (s, [Error(sock, id, BadRoom)])
    else
      var (t, ok) := Leave(s.tables, alias, room.value);
      (s.(tables := t), [if ok then OkAck(sock, id) else Error(sock, id, NotMember)])
  }

  /** A reply is charged like a message; where it then goes is not modelled. */
  function HandleReply(s: State, cfg: BrokerConfig, from: Peer, id: MsgId, now: int): (State, seq<Out>) {
    var (s1, ok) := Charge(s, cfg, from.alias, MsgKind, now);
    (s1, if ok then [] else [Error(from.sock, id, Limited)])
  }

  function WithPeer(s: State, p: Peer): State { s.(tables := s.tables.(peers := s.tables.peers[p.alias := p])) }

  // ---- dispatch ----

  predicate Authed(s: State, sock: Sock, f: Frame) {
    f.From().Some? && f.From().value in s.tables.peers && s.tables.peers[f.From().value].sock == sock
  }

  function Dispatch(s: State, cfg: BrokerConfig, sock: Sock, f: Frame, now: int): (State, seq<Out>) {
    if f.HelloFrame? then
      if Authed(s, sock, f) then (s, [Error(sock, f.Id(), InvalidFrame)]) else HandleHello(s, cfg, sock, f.hello, now)
    else if !Authed(s, sock, f) then (s, [Error(sock, f.Id(), HelloRequired)])
    else
      var peer := s.tables.peers[f.From().value];
      match f
      case MsgFrame(m) => RouteMsg(s, cfg, peer, m, now)
      case CtlFrame(c) => HandleCtl(s, cfg, peer, c, now)
      case CtlAckFrame(a) => HandleCtlAck(s, peer, a)
      case JoinFrame(id, alias, room, role) => HandleJoin(s, cfg, sock, alias, id, room, role)
      case LeaveFrame(id, alias, room) => HandleLeave(s, sock, alias, id, room)
      case ReserveFrame(id, alias, rs) => (WithPeer(s, peer.(reservations := rs)), [OkAck(sock, id)])
      case ActivityFrame(id, alias, act) => (WithPeer(s, peer.(activity := act)), [])
      case ReplyFrame(id, alias) => HandleReply(s, cfg, peer, id, now)
      case HelloFrame(_) => (s, [])
  }

  // ---- the environment ----

  function CloseAll(s: State, order: seq<Alias>): State {
    if order == [] then s else ClosePeer(CloseAll(s, order[..|order| - 1]), order[|order| - 1])
  }

  /** A connection, mail or a recent hello keeps an alias known. */
  predicate StaysKnown(s: State, a: Alias, now: int)
    requires a in s.known
  {
    a in s.tables.peers || a in s.box.queues || now - s.known[a] <= KNOWN_ALIAS_TTL_MS
  }

  function PruneKnown(s: State, now: int): State {
    s.(known := map a | a in s.known && StaysKnown(s, a, now) :: s.known[a])
  }

  /** The reservations that are not older than the configured age. */
  function Unexpired(rs: seq<Reservation>, ttlMs: int, now: int): (kept: seq<Reservation>)
    ensures forall r :: r in kept ==> r in rs
  {
    if rs == [] then []
    else
      var r := rs[|rs| - 1];
      Unexpired(rs[..|rs| - 1], ttlMs, now) + if r.since.None? || now - r.since.value <= ttlMs then [r] else []
  }

  function Lapsed(p: Peer, ttlMs: int, now: int): Peer { p.(reservations := Unexpired(p.reservations, ttlMs, now)) }

  /** Reservations lapse after the configured time; zero means never. */
  function SweepReservations(s: State, cfg: BrokerConfig, now: int): State {
    if cfg.reservationTtlMs <= 0 then s
    else
      s.(tables := s.tables.(peers :=
        map a | a in s.tables.peers :: Lapsed(s.tables.peers[a], cfg.reservationTtlMs, now)))
  }

  function Purge(s: State, cfg: BrokerConfig, order: seq<Alias>, now: int): (State, seq<Out>) {
    (s.(box := MB.ExpireAll(s.box, cfg.mailbox, order, now)),
        DropNotices(s, MB.ExpiredOver(s.box, cfg.mailbox, order, now)))
  }

  datatype Step =
    | Accept(sock: Sock, tokenRequired: bool)
    | Deliver(sock: Sock, frame: Frame, now: int)
    | WriteDone(token: nat, ok: bool, now: int)
    | FanWriteDone(token: nat, alias: Alias, ok: bool, now: int)
    | CtlWriteDone(n: nat, ok: bool)
    | MailWriteDone(n: nat, ok: bool)
    | SendFailed(ref: Ref)
    | Destroy(sock: Sock)
    | SocketClosed(sock: Sock, order: seq<Alias>)
    | PruneStep(now: int)
    | SweepStep(now: int)
    | PurgeStep(order: seq<Alias>, now: int)

  /** Which steps can happen: completions need an outstanding write, a socket close
      concerns exactly the records on that socket, a purge visits every queue. */
  ghost predicate Enabled(s: State, step: Step) {
    match step
    case WriteDone(t, _, _) => t in s.writes && s.writes[t].DirectWrite?
    case FanWriteDone(t, a, _, _) => t in s.writes && s.writes[t].FanWrite? && a in s.writes[t].waiting
    case CtlWriteDone(n, _) => n in s.ctlWrites
    case MailWriteDone(n, _) => n in s.mailWrites
    case SocketClosed(sock, order) =>
      NoDup(order) && forall a :: a in order <==> a in s.tables.peers && s.tables.peers[a].sock == sock
    case PurgeStep(order, _) => NoDup(order) && forall a :: a in order <==> a in s.box.queues
    case _ => true
  }

  function Apply(s: State, cfg: BrokerConfig, step: Step): (State, seq<Out>)
    requires Enabled(s, step)
  {
    match step
    case Accept(sock, tokenRequired) => (if tokenRequired then s.(tokenSocks := s.tokenSocks + {sock}) else s, [])
    case Deliver(sock, f, now) => Dispatch(s, cfg, sock, f, now)
    case WriteDone(t, ok, now) => DirectDone(s, cfg, t, ok, now)
    case FanWriteDone(t, a, ok, now) => FanDone(s, cfg, t, a, ok, now)
    case CtlWriteDone(n, ok) => CtlDone(s, n, ok)
    case MailWriteDone(n, ok) => (MailDone(s, n, ok), [])
    case SendFailed(r) => (CloseRef(s, r), [])
    case Destroy(sock) => (s.(destroyed := s.destroyed + {sock}), [])
    case SocketClosed(sock, order) => (CloseAll(s.(destroyed := s.destroyed + {sock}), order), [])
    case PruneStep(now) => (PruneKnown(s, now), [])
    case SweepStep(now) => (SweepReservations(s, cfg, now), [])
    case PurgeStep(order, now) => Purge(s, cfg, order, now)
  }

  /** A step that is not enabled does not happen. */
  ghost function Next(s: State, cfg: BrokerConfig, step: Step): (State, seq<Out>) {
    if Enabled(s, step) then Apply(s, cfg, step) else (s, [])
  }

  ghost function Run(cfg: BrokerConfig, steps: seq<Step>): State {
    if steps == [] then INITIAL else Next(Run(cfg, steps[..|steps| - 1]), cfg, steps[|steps| - 1]).0
  }

  ghost function OutsAt(cfg: BrokerConfig, steps: seq<Step>, k: nat): seq<Out>
    requires k < |steps|
  {
    Next(Run(cfg, steps[..k]), cfg, steps[k]).1
  }

  ghost function Trace(cfg: BrokerConfig, steps: seq<Step>): seq<Out> {
    if steps == [] then []
    else Trace(cfg, steps[..|steps| - 1]) + Next(Run(cfg, steps[..|steps| - 1]), cfg, steps[|steps| - 1]).1
  }
}
