/**
 The client's own rooms, roles and reservations, and how each hello rebuilds
 them in a broker that has lost or never had them.
 */
module Client {
  import opened Common
  import opened StateTables
  import opened Rooms
  import opened Broker
  import opened Membership
  import MB = Mailbox

  /** Joined rooms in joining order, remembered roles (also of rooms left behind
      by a resync), own reservations. */
  datatype Own = Own(joined: seq<Room>, roles: map<Room, Role>, reservations: seq<Reservation>)

  /** What the client declares about itself besides its rooms. */
  datatype Identity = Identity(alias: Alias, token: Option<string>, caps: seq<string>)

  function RoleIn(c: Own, room: Room): Role {
    if room in c.roles && c.roles[room] == Observer then Observer else Member
  }

  /** The room -> role map the client believes in. */
  function RoleMap(c: Own): map<Room, Role> { map r | r in c.joined :: RoleIn(c, r) }

  function ObserverRoles(c: Own, rooms: seq<Room>): map<Room, Role> {
    map r | r in rooms && RoleIn(c, r) == Observer :: Observer
  }

  /** The hello: rooms always present, roles for observer rooms only, reservations
      only if there are any. */
  function HelloOf(me: Identity, c: Own, id: MsgId): Hello {
    Hello(id, Some(me.alias), me.token, Some(c.joined), ObserverRoles(c, c.joined), None,
          if c.reservations == [] then None else Some(c.reservations), Some(me.caps), Some(PROTO_VERSION))
  }

  function AddRoom(s: seq<Room>, room: Room): seq<Room> { if room in s then s else s + [room] }

  function AfterJoin(c: Own, room: Room, role: Role): Own {
    c.(joined := AddRoom(c.joined, room), roles := c.roles[room := role])
  }

  function AfterLeave(c: Own, room: Room): Own { c.(joined := Without(c.joined, room), roles := c.roles - {room}) }

  /** The broker did not know us there: do not ask for the room again. */
  function AfterNotMember(c: Own, room: Room): Own { c.(joined := Without(c.joined, room)) }

  /** The broker's answer to a request, or no answer in time. */
  datatype Answer = Ok | Failed(code: Option<ErrorCode>)

  class MeshClient {
    const me: Identity
    var joinedRooms: seq<Room>
    var roomRoles: map<Room, Role>
    var ownReservations: seq<Reservation>

    ghost function View(): Own
      reads this
    {
      Own(joinedRooms, roomRoles, ownReservations)
    }

    constructor (me: Identity, initialRooms: seq<Room>, initialReservations: seq<Reservation>)
      ensures this.me == me && ownReservations == initialReservations && NoDup(joinedRooms)
      ensures forall r :: r in joinedRooms <==> r in initialRooms
      ensures RoleMap(View()) == map r | r in initialRooms :: Member
    {
      this.me := me;
      ownReservations := initialReservations;
      joinedRooms, roomRoles := [], map[];
      new;
      for i := 0 to |initialRooms|
        invariant ownReservations == initialReservations
        invariant NoDup(joinedRooms) && (forall r :: r in joinedRooms <==> r in initialRooms[..i])
        invariant forall r :: r in roomRoles <==> r in initialRooms[..i]
        invariant forall r :: r in roomRoles ==> roomRoles[r] == Member
      {
        assert initialRooms[..i + 1] == initialRooms[..i] + [initialRooms[i]];
        if initialRooms[i] !in joinedRooms { joinedRooms := joinedRooms + [initialRooms[i]]; }
        roomRoles := roomRoles[initialRooms[i] := Member];
      }
      assert initialRooms[..|initialRooms|] == initialRooms;
    }

    method BuildHello(id: MsgId) returns (h: Hello)
      ensures h == HelloOf(me, View(), id)
    {
      var roles: map<Room, Role> := map[];
      for i := 0 to |joinedRooms|
        invariant roles == ObserverRoles(View(), joinedRooms[..i])
      {
        var room := joinedRooms[i];
        assert joinedRooms[..i + 1] == joinedRooms[..i] + [room];
        if room in roomRoles && roomRoles[room] == Observer { roles := roles[room := Observer]; }
      }
      assert joinedRooms[..|joinedRooms|] == joinedRooms;
      var reservations := if |ownReservations| > 0 then Some(ownReservations) else None;
      h := Hello(id, Some(me.alias), me.token, Some(joinedRooms), roles, None, reservations, Some(me.caps),
          Some(PROTO_VERSION));
    }

    method Join(room: Room, role: Role, ack: Answer)
      modifies this`joinedRooms, this`roomRoles
      ensures View() == if ack.Ok? then AfterJoin(old(View()), room, role) else old(View())
    {
      if ack.Failed? { return; }
      if room !in joinedRooms { joinedRooms := joinedRooms + [room]; }
      roomRoles := roomRoles[room := role];
    }

    method Leave(room: Room, ack: Answer)
      modifies this`joinedRooms, this`roomRoles
      ensures View() ==
        if ack.Ok? then AfterLeave(old(View()), room)
        else if ack == Failed(Some(NotMember)) then AfterNotMember(old(View()), room)
        else old(View())
    {
      if ack.Failed? {
        if ack.code == Some(NotMember) { joinedRooms := Without(joinedRooms, room); }
        return;
      }
      joinedRooms := Without(joinedRooms, room);
      roomRoles := roomRoles - {room};
    }

    /** Local drop of a room while offline. */
    method ForgetRoom(room: Room)
      modifies this`joinedRooms, this`roomRoles
      ensures View() == AfterLeave(old(View()), room)
    {
      joinedRooms := Without(joinedRooms, room);
      roomRoles := roomRoles - {room};
    }

    /** The reservations sent in an acknowledged reserve or release. */
    method Reserved(merged: seq<Reservation>, ack: Answer)
      modifies this`ownReservations
      ensures View() == if ack.Ok? then old(View()).(reservations := merged) else old(View())
    {
      if ack.Ok? { ownReservations := merged; }
    }
  }

  // ---- a hello rebuilds the broker ----

  lemma HelloDeclaresOwnRooms(me: Identity, c: Own, id: MsgId)
    ensures AskedRoles(HelloOf(me, c, id)) == RoleMap(c) && WantedRooms(HelloOf(me, c, id)) == c.joined
  {}

  /** The broker holds no reservation the client does not; without a lifetime on reservations, it holds all of them. */
  predicate Reserves(cfg: BrokerConfig, held: seq<Reservation>, own: seq<Reservation>) {
    (forall r :: r in held ==> r in own) && (cfg.reservationTtlMs <= 0 ==> held == own)
  }

  /** The broker's record of `alias` says what the client believes. */
  predicate InSync(s: State, cfg: BrokerConfig, alias: Alias, c: Own) {
    && alias in s.tables.peers && s.tables.peers[alias].rooms == RoleMap(c)
    && Reserves(cfg, s.tables.peers[alias].reservations, c.reservations)
  }

  predicate HasWelcome(outs: seq<Out>) { exists i :: 0 <= i < |outs| && outs[i].Welcome? }

  /**
   From any broker state at all, a hello that is welcomed leaves the broker with
   exactly the client's rooms, each with its remembered role, and exactly its
   reservations; and it is welcomed exactly when it is acceptable.
   */
  lemma ReHelloRebuilds(s: State, cfg: BrokerConfig, sock: Sock, me: Identity, c: Own, id: MsgId, now: int)
    ensures
      var (s', outs) := HandleHello(s, cfg, sock, HelloOf(me, c, id), now);
      && (HasWelcome(outs) <==> Acceptable(s, cfg, sock, HelloOf(me, c, id)))
      && (HasWelcome(outs) ==>
            && InSync(s', cfg, me.alias, c) && s'.tables.peers[me.alias].reservations == c.reservations
            && s'.tables.peers[me.alias].sock == sock && s'.tables.peers[me.alias].caps == me.caps)
      && (!HasWelcome(outs) ==> sock in s'.destroyed)
  {
    hide AllJoinable, Enroll, HandleHello, DropNotices, MailboxOuts, MB.FreshPart, MB.ExpiredPart;
    HelloFrameRule(s, cfg, sock, HelloOf(me, c, id), now);
    var h := HelloOf(me, c, id);
    HelloMailbox(s, cfg, sock, h, now);
    HelloDeclaresOwnRooms(me, c, id);
    var (s', outs) := HandleHello(s, cfg, sock, h, now);
    if Acceptable(s, cfg, sock, h) {
      HelloRooms(s, cfg, sock, h);
      var n := |DropNotices(s', MB.ExpiredPart(MB.Queue(s.box, me.alias), cfg.mailbox.mailboxTtlMs, now))|;
      assert outs[n].Welcome?;
    }
  }

  /** A restarted broker welcomes the client if and only if its rooms are well
      named and within the cap, and the token fits where one is needed. */
  lemma RestartedBrokerWelcomes(cfg: BrokerConfig, sock: Sock, me: Identity, c: Own, id: MsgId, now: int,
      tokenSocks: set<Sock>)
    ensures HasWelcome(HandleHello(INITIAL.(tokenSocks := tokenSocks), cfg, sock, HelloOf(me, c, id), now).1)
       <==> && (sock in tokenSocks ==> cfg.brokerToken.Some? && me.token == cfg.brokerToken)
            && (forall r :: r in c.joined ==> IsValidRoom(r)) && (c.joined == [] || |RoomSet(c.joined)| <= cfg.maxRooms)
  {
    var s := INITIAL.(tokenSocks := tokenSocks);
    ReHelloRebuilds(s, cfg, sock, me, c, id, now);
    hide HandleHello, HasWelcome;
    assert forall r :: HasPlace(s.tables, me.alias, r);
    assert forall r :: r in c.joined ==> (Joinable(s.tables, me.alias, r) <==> IsValidRoom(r));
  }

  // ---- the client's requests ----

  datatype Request =
    | JoinRequest(room: Room, role: Role)
    | LeaveRequest(room: Room)
    | ReserveRequest(reservations: seq<Reservation>)

  function FrameOf(me: Identity, q: Request, id: MsgId): Frame {
    match q
    case JoinRequest(room, role) => JoinFrame(id, me.alias, Some(room), Some(role))
    case LeaveRequest(room) => LeaveFrame(id, me.alias, Some(room))
    case ReserveRequest(rs) => ReserveFrame(id, me.alias, rs)
  }

  /** The client's reaction to the answer. */
  function React(c: Own, q: Request, ack: Answer): Own {
    match q
    case JoinRequest(room, role) => if ack.Ok? then AfterJoin(c, room, role) else c
    case LeaveRequest(room) =>
      if ack.Ok? then AfterLeave(c, room) else if ack == Failed(Some(NotMember)) then AfterNotMember(c, room) else c
    case ReserveRequest(rs) => if ack.Ok? then c.(reservations := rs) else c
  }

  function AnswerIn(outs: seq<Out>): Answer {
    if outs != [] && outs[0].OkAck? then Ok
    else Failed(if outs != [] && outs[0].Error? then Some(outs[0].code) else None)
  }

  lemma AfterJoinRoles(c: Own, room: Room, role: Role)
    ensures RoleMap(AfterJoin(c, room, role)) == RoleMap(c)[room := role]
  {
    var c' := AfterJoin(c, room, role);
    assert forall r :: r in c'.joined <==> r in c.joined || r == room;
    assert RoleMap(c').Keys == RoleMap(c).Keys + {room};
  }

  lemma AfterLeaveRoles(c: Own, room: Room)
    ensures RoleMap(AfterLeave(c, room)) == RoleMap(c) - {room}
  {
    var c' := AfterLeave(c, room);
    assert RoleMap(c').Keys == RoleMap(c).Keys - {room};
  }

  /** The record of `alias` is on `sock` and says what the client believes. */
  predicate OnAndInSync(s: State, cfg: BrokerConfig, sock: Sock, alias: Alias, c: Own) {
    InSync(s, cfg, alias, c) && s.tables.peers[alias].sock == sock && s.tables.peers[alias].alias == alias
  }

  lemma JoinStaysInSync(s: State, cfg: BrokerConfig, sock: Sock, alias: Alias, c: Own, room: Room, role: Role,
      id: MsgId)
    requires OnAndInSync(s, cfg, sock, alias, c)
    ensures
      var (s', outs) := HandleJoin(s, cfg, sock, alias, id, Some(room), Some(role));
      OnAndInSync(s', cfg, sock, alias, React(c, JoinRequest(room, role), AnswerIn(outs)))
  {
    hide Extends, HasPlace, RoleMap, Rooms.Join, IsValidRoom;
    JoinExtends(s.tables, alias, cfg.maxRooms, room, role);
    ExtendsKeepsRecord(s.tables, Rooms.Join(s.tables, alias, cfg.maxRooms, room, role).0, alias);
    AfterJoinRoles(c, room, role);
  }

  lemma LeaveStaysInSync(s: State, cfg: BrokerConfig, sock: Sock, alias: Alias, c: Own, room: Room, id: MsgId)
    requires OnAndInSync(s, cfg, sock, alias, c)
    ensures
      var (s', outs) := HandleLeave(s, sock, alias, id, Some(room));
      OnAndInSync(s', cfg, sock, alias, React(c, LeaveRequest(room), AnswerIn(outs)))
  {
    hide RoleMap, RemoveMember;
    AfterLeaveRoles(c, room);
    NotJoinedStays(c, room);
  }

  /** An answered request leaves client and broker in agreement, whether it
      succeeded or not. */
  lemma RequestStaysInSync(s: State, cfg: BrokerConfig, sock: Sock, me: Identity, c: Own, q: Request, id: MsgId,
      now: int)
    requires OnAndInSync(s, cfg, sock, me.alias, c)
    ensures
      var (s', outs) := Dispatch(s, cfg, sock, FrameOf(me, q, id), now);
      OnAndInSync(s', cfg, sock, me.alias, React(c, q, AnswerIn(outs)))
  {
    hide HandleJoin, HandleLeave;
    match q {
      case JoinRequest(room, role) => JoinStaysInSync(s, cfg, sock, me.alias, c, room, role, id);
      case LeaveRequest(room) => LeaveStaysInSync(s, cfg, sock, me.alias, c, room, id);
      case ReserveRequest(rs) => SameRoles(c, rs);
    }
  }

  lemma SameRoles(c: Own, rs: seq<Reservation>)
    ensures RoleMap(c.(reservations := rs)) == RoleMap(c)
  {}

  /** Dropping a room that is not in the role map changes nothing. */
  lemma NotJoinedStays(c: Own, room: Room)
    ensures room in RoleMap(c) <==> room in c.joined
    ensures room !in RoleMap(c) ==> RoleMap(AfterNotMember(c, room)) == RoleMap(c)
  {
    var c' := AfterNotMember(c, room);
    assert forall r :: r in c'.joined <==> r in c.joined && r != room;
  }

  // ---- client and broker together ----

  /** A hello on its way: what it declares, and whether the broker has welcomed it. */
  datatype Handshake = Handshake(sock: Sock, id: MsgId, sent: Own, welcomed: Option<bool>)

  /** `conn` is the connection the client uses; `stale` says that an answer got lost, a
      room was forgotten while online, or the rooms changed during the last handshake. */
  datatype Joint = Joint(broker: State, own: Own, conn: Option<Sock>, handshake: Option<Handshake>, stale: bool)

  datatype Move =
    | SendHello(sock: Sock, id: MsgId)
    | HelloArrives(now: int)
    | WelcomeArrives
    | Ask(request: Request, id: MsgId, now: int)
    | AskLost(request: Request, id: MsgId, now: int)
    | Forget(room: Room)
    | Disconnect
    | Restart
    | Other(step: Step)

  /** On its own connection the client sends other frames as well, but says hello,
      joins, leaves and reserves only through the moves above. */
  predicate Foreign(line: Option<Sock>, step: Step) {
    step.Deliver? && line == Some(step.sock) ==>
      || step.frame.MsgFrame? || step.frame.ReplyFrame? || step.frame.CtlFrame? || step.frame.CtlAckFrame?
      || step.frame.ActivityFrame?
  }

  /** The connection the client uses or is about to use. */
  function Line(x: Joint): Option<Sock> {
    if x.conn.Some? then x.conn else if x.handshake.Some? then Some(x.handshake.value.sock) else None
  }

  ghost function MoveOn(x: Joint, cfg: BrokerConfig, me: Identity, move: Move): Joint {
    match move
    case SendHello(sock, id) => x.(conn := None, handshake := Some(Handshake(sock, id, x.own, None)))
    case HelloArrives(now) =>
      if x.handshake.None? || x.handshake.value.welcomed.Some? then x
      else
        var hs := x.handshake.value;
        var (s, outs) := Next(x.broker, cfg, Deliver(hs.sock, HelloFrame(HelloOf(me, hs.sent, hs.id)), now));
        x.(broker := s, handshake := Some(hs.(welcomed := Some(HasWelcome(outs)))))
    case WelcomeArrives =>
      if x.handshake.None? || x.handshake.value.welcomed != Some(true) then x
      else x.(conn := Some(x.handshake.value.sock), handshake := None, stale := x.own != x.handshake.value.sent)
    case Ask(q, id, now) =>
      if x.conn.None? then x
      else
        var (s, outs) := Next(x.broker, cfg, Deliver(x.conn.value, FrameOf(me, q, id), now));
        x.(broker := s, own := React(x.own, q, AnswerIn(outs)))
    case AskLost(q, id, now) =>
      if x.conn.None? then x
      else x.(broker := Next(x.broker, cfg, Deliver(x.conn.value, FrameOf(me, q, id), now)).0, stale := true)
    case Forget(room) => x.(own := AfterLeave(x.own, room), stale := x.stale || x.conn.Some?)
    case Disconnect => x.(conn := None, handshake := None)
    case Restart => x.(broker := INITIAL)
    case Other(step) => if Foreign(Line(x), step) then x.(broker := Next(x.broker, cfg, step).0) else x
  }

  ghost function Play(cfg: BrokerConfig, me: Identity, own: Own, moves: seq<Move>): Joint {
    if moves == [] then Joint(INITIAL, own, None, None, false)
    else MoveOn(Play(cfg, me, own, moves[..|moves| - 1]), cfg, me, moves[|moves| - 1])
  }

  /** The broker's record of the alias is on `sock`. */
  predicate Holds(s: State, alias: Alias, sock: Sock) { alias in s.tables.peers && s.tables.peers[alias].sock == sock }

  /** The broker's record of the alias belongs to the connection the client uses. */
  predicate Connected(x: Joint, alias: Alias) { x.conn.Some? && Holds(x.broker, alias, x.conn.value) }

  /** The broker has welcomed the hello on its way, and its record is still there. */
  predicate Greeted(x: Joint, alias: Alias) {
    && x.conn.None? && x.handshake.Some? && x.handshake.value.welcomed == Some(true)
    && Holds(x.broker, alias, x.handshake.value.sock)
  }

  /** `b`'s record, if it is on connection `k` after the step, was so before with the same rooms;
      its reservations may only have lapsed. */
  predicate RecordKept(cfg: BrokerConfig, t: Tables, t': Tables, b: Alias, k: Sock) {
    b in t'.peers && t'.peers[b].sock == k ==>
      && b in t.peers && t.peers[b].sock == k
      && t'.peers[b].rooms == t.peers[b].rooms && Reserves(cfg, t'.peers[b].reservations, t.peers[b].reservations)
  }

  lemma SameTablesKeepRecord(cfg: BrokerConfig, t: Tables, b: Alias, k: Sock)
    ensures RecordKept(cfg, t, t, b, k)
  {}

  lemma HelloKeepsRecord(s: State, cfg: BrokerConfig, sock: Sock, h: Hello, now: int, b: Alias, k: Sock)
    requires sock != k
    ensures RecordKept(cfg, s.tables, HandleHello(s, cfg, sock, h, now).0.tables, b, k)
  {
    hide HandleHello, Enroll, JoinedBy, SaidHello;
    HelloFrameRule(s, cfg, sock, h, now);
    if h.from.Some? {
      var peer := PeerFor(s, sock, h);
      var (t, ok) := EnrollFor(s, cfg, sock, h);
      EnrollMembers(s.tables, peer, cfg.maxRooms, WantedRooms(h), h.roles, GetOr(h.role, Member));
      OthersKept(s.tables, t, peer.alias, JoinedBy(s.tables, peer.alias, cfg.maxRooms, WantedRooms(h)), ok, b);
      EnrollKeepsSock(s.tables, peer, cfg.maxRooms, WantedRooms(h), h.roles, GetOr(h.role, Member));
    }
  }

  lemma OthersKept(t: Tables, t': Tables, a: Alias, joined: set<Room>, ok: bool, b: Alias)
    requires SaidHello(t, t', a, joined, ok)
    ensures b != a ==> (b in t'.peers <==> b in t.peers) && (b in t.peers ==> t'.peers[b] == t.peers[b])
  {}

  lemma EnrollKeepsSock(t: Tables, peer: Peer, maxRooms: int, wanted: seq<Room>, roles: map<Room, Role>, fallback: Role)
    ensures
      var t' := Enroll(t, peer, maxRooms, wanted, roles, fallback).0;
      peer.alias in t'.peers ==> t'.peers[peer.alias].sock == peer.sock
  {
    hide Extends;
    var t0 := t.(peers := t.peers[peer.alias := peer]);
    JoinAllResult(t0, peer.alias, maxRooms, wanted, roles, fallback);
    ExtendsKeepsRecord(t0, JoinAll(t0, peer.alias, maxRooms, wanted, roles, fallback).0, peer.alias);
  }

  lemma JoinKeepsRecord(cfg: BrokerConfig, t: Tables, alias: Alias, room: Room, role: Role, b: Alias, k: Sock)
    requires alias in t.peers && t.peers[alias].sock != k
    ensures RecordKept(cfg, t, Join(t, alias, cfg.maxRooms, room, role).0, b, k)
    ensures RecordKept(cfg, t, Leave(t, alias, room).0, b, k)
  {
    hide RemoveMember, IsValidRoom;
  }

  lemma DispatchKeepsRecord(s: State, cfg: BrokerConfig, sock: Sock, f: Frame, now: int, b: Alias, k: Sock)
    requires Agree(s.tables, cfg.maxRooms) && Foreign(Some(k), Deliver(sock, f, now))
    ensures RecordKept(cfg, s.tables, Dispatch(s, cfg, sock, f, now).0.tables, b, k)
  {
    hide Agree, HandleHello, RouteMsg, HandleCtl, Join, Leave;
    if f.HelloFrame? {
      HelloKeepsRecord(s, cfg, sock, f.hello, now, b, k);
    } else if Authed(s, sock, f) {
      var a := f.From().value;
      AliasIsKey(s.tables, cfg.maxRooms, a);
      match f {
        case MsgFrame(m) => MsgKeepsTables(s, cfg, s.tables.peers[a], m, now);
        case CtlFrame(c) => CtlKeepsTables(s, cfg, s.tables.peers[a], c, now);
        case JoinFrame(_, _, room, role) =>
          if room.Some? { JoinKeepsRecord(cfg, s.tables, a, room.value, GetOr(role, Member), b, k); }
        case LeaveFrame(_, _, room) =>
          if room.Some? { JoinKeepsRecord(cfg, s.tables, a, room.value, Member, b, k); }
        case _ =>
      }
    }
  }

  lemma {:induction false} CloseAllKeepsRecord(s: State, cfg: BrokerConfig, order: seq<Alias>, b: Alias, k: Sock)
    ensures RecordKept(cfg, s.tables, CloseAll(s, order).tables, b, k)
  {
    hide Detached;
    if order != [] { CloseAllKeepsRecord(s, cfg, order[..|order| - 1], b, k); }
  }

  lemma CloseKeepsRecord(s: State, cfg: BrokerConfig, r: Ref, b: Alias, k: Sock)
    ensures RecordKept(cfg, s.tables, CloseRef(s, r).tables, b, k)
  {
    hide Detached;
  }

  lemma SweepKeepsRecord(s: State, cfg: BrokerConfig, now: int, b: Alias, k: Sock)
    ensures RecordKept(cfg, s.tables, SweepReservations(s, cfg, now).tables, b, k)
  {}

  lemma OtherKeepsRecord(s: State, cfg: BrokerConfig, step: Step, b: Alias, k: Sock)
    requires Agree(s.tables, cfg.maxRooms) && Foreign(Some(k), step)
    ensures RecordKept(cfg, s.tables, Next(s, cfg, step).0.tables, b, k)
  {
    hide Agree, Dispatch, MB.Enqueue, DropNotices, CloseRef, SweepReservations, RecordKept;
    SameTablesKeepRecord(cfg, s.tables, b, k);
    if Enabled(s, step) {
      match step {
        case Deliver(sock, f, now) => DispatchKeepsRecord(s, cfg, sock, f, now, b, k);
        case SocketClosed(sock, order) => CloseAllKeepsRecord(s.(destroyed := s.destroyed + {sock}), cfg, order, b, k);
        case SweepStep(now) => SweepKeepsRecord(s, cfg, now, b, k);
        case WriteDone(t, ok, now) => CloseKeepsRecord(s.(writes := s.writes - {t}), cfg, s.writes[t].target, b, k);
        case FanWriteDone(t, a, ok, now) => CloseKeepsRecord(s, cfg, s.writes[t].waiting[a], b, k);
        case CtlWriteDone(n, ok) =>
          var w := s.ctlWrites[n];
          CloseKeepsRecord(s.(ctlWrites := s.ctlWrites - {n}, pendingCtl := s.pendingCtl - {w.ctl.id}), cfg, w.target,
              b, k);
        case MailWriteDone(n, ok) => CloseKeepsRecord(s.(mailWrites := s.mailWrites - {n}), cfg,
            s.mailWrites[n].target, b, k);
        case SendFailed(r) => CloseKeepsRecord(s, cfg, r, b, k);
        case _ =>
      }
    }
  }

  ghost predicate JointInv(x: Joint, cfg: BrokerConfig, alias: Alias) {
    && Agree(x.broker.tables, cfg.maxRooms)
    && (x.conn.Some? ==> x.handshake.None?)
    && (Connected(x, alias) && !x.stale ==> InSync(x.broker, cfg, alias, x.own))
    && (Greeted(x, alias) ==> InSync(x.broker, cfg, alias, x.handshake.value.sent))
  }

  lemma HelloKeepsInv(x: Joint, cfg: BrokerConfig, me: Identity, now: int)
    requires JointInv(x, cfg, me.alias)
    ensures JointInv(MoveOn(x, cfg, me, HelloArrives(now)), cfg, me.alias)
  {
    if x.handshake.Some? && x.handshake.value.welcomed.None? {
      hide Agree, HandleHello, HasWelcome, Acceptable;
      var hs := x.handshake.value;
      StepKeepsAgree(x.broker, cfg, Deliver(hs.sock, HelloFrame(HelloOf(me, hs.sent, hs.id)), now));
      ReHelloRebuilds(x.broker, cfg, hs.sock, me, hs.sent, hs.id, now);
      NoWelcome(hs.sock, hs.id);
    }
  }

  lemma NoWelcome(sock: Sock, id: MsgId)
    ensures !HasWelcome([Error(sock, id, InvalidFrame)])
  {}

  lemma AskKeepsInv(x: Joint, cfg: BrokerConfig, me: Identity, move: Move)
    requires JointInv(x, cfg, me.alias) && move.Ask?
    ensures JointInv(MoveOn(x, cfg, me, move), cfg, me.alias)
  {
    if x.conn.Some? {
      hide Agree, InSync, Dispatch;
      StepKeepsAgree(x.broker, cfg, Deliver(x.conn.value, FrameOf(me, move.request, move.id), move.now));
      if Connected(x, me.alias) {
        AliasIsKey(x.broker.tables, cfg.maxRooms, me.alias);
        if !x.stale { RequestStaysInSync(x.broker, cfg, x.conn.value, me, x.own, move.request, move.id, move.now); }
      } else {
        UnconnectedIsIgnored(x.broker, cfg, x.conn.value, me, move.request, move.id, move.now);
      }
    }
  }

  /** A request on a connection that does not hold the alias changes nothing at the broker. */
  lemma UnconnectedIsIgnored(s: State, cfg: BrokerConfig, sock: Sock, me: Identity, q: Request, id: MsgId, now: int)
    requires !Holds(s, me.alias, sock)
    ensures Dispatch(s, cfg, sock, FrameOf(me, q, id), now).0 == s
  {}

  /** Steps of others keep the record of the client's connection in step with what it declared. */
  lemma OtherKeepsSync(s: State, cfg: BrokerConfig, step: Step, alias: Alias, k: Sock, c: Own)
    requires Agree(s.tables, cfg.maxRooms) && Foreign(Some(k), step) && Holds(Next(s, cfg, step).0, alias, k)
    ensures Holds(s, alias, k) && (InSync(s, cfg, alias, c) ==> InSync(Next(s, cfg, step).0, cfg, alias, c))
  {
    hide Agree, Next, RoleMap;
    OtherKeepsRecord(s, cfg, step, alias, k);
  }

  lemma OtherKeepsInv(x: Joint, cfg: BrokerConfig, me: Identity, step: Step)
    requires JointInv(x, cfg, me.alias)
    ensures JointInv(MoveOn(x, cfg, me, Other(step)), cfg, me.alias)
  {
    hide Agree, Next, InSync;
    if Foreign(Line(x), step) {
      StepKeepsAgree(x.broker, cfg, step);
      var y := MoveOn(x, cfg, me, Other(step));
      if Connected(y, me.alias) {
        OtherKeepsSync(x.broker, cfg, step, me.alias, x.conn.value, x.own);
      } else if Greeted(y, me.alias) {
        OtherKeepsSync(x.broker, cfg, step, me.alias, x.handshake.value.sock, x.handshake.value.sent);
      }
    }
  }

  lemma MoveKeepsInv(x: Joint, cfg: BrokerConfig, me: Identity, move: Move)
    requires JointInv(x, cfg, me.alias)
    ensures JointInv(MoveOn(x, cfg, me, move), cfg, me.alias)
  {
    match move {
      case HelloArrives(now) => HelloKeepsInv(x, cfg, me, now);
      case Ask(_, _, _) => AskKeepsInv(x, cfg, me, move);
      case AskLost(q, id, now) =>
        hide Agree, Next;
        if x.conn.Some? { StepKeepsAgree(x.broker, cfg, Deliver(x.conn.value, FrameOf(me, q, id), now)); }
      case Other(step) => OtherKeepsInv(x, cfg, me, step);
      case _ => RunAgrees(cfg, []);
    }
  }

  /**
   However handshakes, restarts, requests and everybody else's steps interleave:
   while the broker's record belongs to the client's connection, and since its hello
   no answer was lost and the rooms did not change behind the broker's back, both
   sides hold the same rooms with the same roles, and the broker holds no reservation
   the client does not (and all of them, when reservations do not lapse).
   */
  lemma {:induction false} ClientAndBrokerAgree(cfg: BrokerConfig, me: Identity, own: Own, moves: seq<Move>)
    ensures
      var x := Play(cfg, me, own, moves);
      JointInv(x, cfg, me.alias) && (Connected(x, me.alias) && !x.stale ==> InSync(x.broker, cfg, me.alias, x.own))
  {
    if moves != [] {
      hide MoveOn;
      ClientAndBrokerAgree(cfg, me, own, moves[..|moves| - 1]);
      MoveKeepsInv(Play(cfg, me, own, moves[..|moves| - 1]), cfg, me, moves[|moves| - 1]);
    } else {
      RunAgrees(cfg, []);
    }
  }

  /** So a room joined as observer is never one the broker lets the client write to. */
  lemma ObserverStaysObserver(cfg: BrokerConfig, me: Identity, own: Own, moves: seq<Move>, room: Room)
    requires
      var x := Play(cfg, me, own, moves);
      Connected(x, me.alias) && !x.stale && room in x.own.joined && RoleIn(x.own, room) == Observer
    ensures
      var peer := Play(cfg, me, own, moves).broker.tables.peers[me.alias];
      room in peer.rooms && peer.rooms[room] == Observer && SenderGate(peer, room) == Some(ObserverReadonly)
  {
    hide Agree;
    ClientAndBrokerAgree(cfg, me, own, moves);
  }

  /**
   A room forgotten between hello and welcome: once online, the broker's room map is
   the client's if and only if the room was not among those the hello declared;
   otherwise the broker keeps the client in a room it has forgotten.
   */
  lemma ForgottenMidHandshake(x: Joint, cfg: BrokerConfig, me: Identity, room: Room)
    requires JointInv(x, cfg, me.alias) && Greeted(x, me.alias) && x.own == x.handshake.value.sent
    ensures
      var y := MoveOn(MoveOn(x, cfg, me, Forget(room)), cfg, me, WelcomeArrives);
      && Connected(y, me.alias)
      && (y.broker.tables.peers[me.alias].rooms == RoleMap(y.own) <==> room !in x.own.joined)
      && (room in x.own.joined ==>
            y.stale && room in y.broker.tables.peers[me.alias].rooms && room !in y.own.joined)
  {
    hide Agree;
    AfterLeaveRoles(x.own, room);
    assert room in RoleMap(x.own) <==> room in x.own.joined;
    if room !in x.own.joined { assert RoleMap(x.own) - {room} == RoleMap(x.own); }
  }

  lemma FreshHandshake(cfg: BrokerConfig, me: Identity, own: Own, sock: Sock, id: MsgId, now: int)
    requires HasWelcome(HandleHello(INITIAL, cfg, sock, HelloOf(me, own, id), now).1)
    ensures
      var x := Play(cfg, me, own, [SendHello(sock, id), HelloArrives(now)]);
      Greeted(x, me.alias) && x.own == own && x.handshake.value.sent == own
  {
    ReHelloRebuilds(INITIAL, cfg, sock, me, own, id, now);
    hide HandleHello, HasWelcome, Acceptable, RoleMap;
    var moves := [SendHello(sock, id), HelloArrives(now)];
    assert moves[..1] == [moves[0]] && [moves[0]][..0] == [];
    var first := Play(cfg, me, own, moves[..1]);
    assert Play(cfg, me, own, []) == Joint(INITIAL, own, None, None, false);
    assert first == MoveOn(Play(cfg, me, own, []), cfg, me, moves[0]);
    assert first == Joint(INITIAL, own, None, Some(Handshake(sock, id, own, None)), false);
    assert Play(cfg, me, own, moves) == MoveOn(first, cfg, me, moves[1]);
  }

  /** Leaving a room in that moment, from a fresh start. */
  lemma HandshakeRace(cfg: BrokerConfig, me: Identity)
    requires cfg.maxRooms >= 1
    ensures
      var own := Own(["x"], map["x" := Member], []);
      var y := Play(cfg, me, own, [SendHello(1, "h"), HelloArrives(0), Forget("x"), WelcomeArrives]);
      Connected(y, me.alias) && y.own.joined == [] && "x" in y.broker.tables.peers[me.alias].rooms
  {
    hide Agree, HandleHello, HasWelcome, InSync, MoveOn;
    var own := Own(["x"], map["x" := Member], []);
    var two := [SendHello(1, "h"), HelloArrives(0)];
    OneRoomIsWelcome(cfg, me, own);
    FreshHandshake(cfg, me, own, 1, "h", 0);
    ClientAndBrokerAgree(cfg, me, own, two);
    ForgottenMidHandshake(Play(cfg, me, own, two), cfg, me, "x");
    PlayTwoMore(cfg, me, own, two, Forget("x"), WelcomeArrives);
    assert two + [Forget("x"), WelcomeArrives] == [SendHello(1, "h"), HelloArrives(0), Forget("x"), WelcomeArrives];
    ForgetThenWelcome(Play(cfg, me, own, two), cfg, me);
  }

  lemma OneRoomIsWelcome(cfg: BrokerConfig, me: Identity, own: Own)
    requires cfg.maxRooms >= 1 && own.joined == ["x"]
    ensures HasWelcome(HandleHello(INITIAL, cfg, 1, HelloOf(me, own, "h"), 0).1)
  {
    hide HandleHello, HasWelcome;
    assert RoomSet(own.joined) == {"x"} && INITIAL.(tokenSocks := {}) == INITIAL;
    RestartedBrokerWelcomes(cfg, 1, me, own, "h", 0, {});
  }

  lemma PlayTwoMore(cfg: BrokerConfig, me: Identity, own: Own, moves: seq<Move>, a: Move, b: Move)
    ensures Play(cfg, me, own, moves + [a, b]) == MoveOn(MoveOn(Play(cfg, me, own, moves), cfg, me, a), cfg, me, b)
  {
    hide MoveOn;
    var one, both := moves + [a], moves + [a, b];
    assert both[..|both| - 1] == one && one[..|one| - 1] == moves;
  }

  lemma ForgetThenWelcome(x: Joint, cfg: BrokerConfig, me: Identity)
    requires x.own.joined == ["x"]
    ensures MoveOn(MoveOn(x, cfg, me, Forget("x")), cfg, me, WelcomeArrives).own.joined == []
  {
    assert ["x"][1..] == [];
  }
}
