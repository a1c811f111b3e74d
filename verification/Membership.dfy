/**
 The two sides of room membership over whole runs of the broker, and what a
 hello does.
 */
module Membership {
  import opened Common
  import opened StateTables
  import opened RateLimit
  import opened Rooms
  import opened Broker
  import opened Routing
  import MB = Mailbox

  // ---- hello ----

  function PeerFor(s: State, sock: Sock, h: Hello): Peer
    requires h.from.Some?
  {
    NewPeer(s, sock, h.from.value, h)
  }

  /** No other live connection holds the alias. */
  predicate AliasFree(s: State, sock: Sock, alias: Alias) {
    alias in s.tables.peers ==> s.tables.peers[alias].sock == sock || s.tables.peers[alias].sock in s.destroyed
  }

  /** The hello gets as far as replacing the record of its alias. */
  predicate Admitted(s: State, cfg: BrokerConfig, sock: Sock, h: Hello) {
    h.from.Some? && TokenOk(s, cfg, sock, h) && AliasFree(s, sock, h.from.value)
  }

  /** A hello is accepted exactly when it is admitted and all its rooms are well
      named, have a place and are within the cap. */
  predicate Acceptable(s: State, cfg: BrokerConfig, sock: Sock, h: Hello) {
    Admitted(s, cfg, sock, h) && AllJoinable(s.tables, h.from.value, cfg.maxRooms, WantedRooms(h))
  }

  function EnrollFor(s: State, cfg: BrokerConfig, sock: Sock, h: Hello): (Tables, bool)
    requires h.from.Some?
  {
    Enroll(s.tables, PeerFor(s, sock, h), cfg.maxRooms, WantedRooms(h), h.roles, GetOr(h.role, Member))
  }

  /** The state once the new record of an admitted hello has joined its rooms, or was undone. */
  function Enrolled(s: State, cfg: BrokerConfig, sock: Sock, h: Hello, now: int): State
    requires h.from.Some?
  {
    s.(tables := EnrollFor(s, cfg, sock, h).0, known := s.known[h.from.value := now], nextGen := s.nextGen + 1)
  }

  /** A hello is turned away, undone, or greeted. */
  lemma HelloCases(s: State, cfg: BrokerConfig, sock: Sock, h: Hello, now: int)
    ensures
      var (s', outs) := HandleHello(s, cfg, sock, h, now);
      if !Admitted(s, cfg, sock, h) then
        s' == s.(destroyed := s.destroyed + {sock}) && |outs| == 1 && outs[0].Error? && outs[0].sock == sock
      else if EnrollFor(s, cfg, sock, h).1 then
        (s', outs) == Greet(Enrolled(s, cfg, sock, h, now), cfg, PeerFor(s, sock, h), h.id, now)
      else (s', outs) == RefuseHello(Enrolled(s, cfg, sock, h, now), sock, h.id, BadRoom)
  {
    hide Enroll, Greet;
  }

  lemma GreetFrame(s: State, cfg: BrokerConfig, peer: Peer, id: MsgId, now: int)
    ensures
      var s' := Greet(s, cfg, peer, id, now).0;
      s' == s.(box := s'.box, mailWrites := s'.mailWrites, nextMail := s'.nextMail)
  {
    hide MB.Flush, DropNotices, MailboxOuts, IssueMail;
  }

  /** What a hello leaves alone. */
  lemma HelloFrameRule(s: State, cfg: BrokerConfig, sock: Sock, h: Hello, now: int)
    ensures
      var s' := HandleHello(s, cfg, sock, h, now).0;
      && s' == s.(tables := s'.tables, box := s'.box, known := s'.known, destroyed := s'.destroyed,
                  mailWrites := s'.mailWrites, nextMail := s'.nextMail, nextGen := s'.nextGen)
      && s'.tables == (if Admitted(s, cfg, sock, h) then EnrollFor(s, cfg, sock, h).0 else s.tables)
      && s'.known == (if Admitted(s, cfg, sock, h) then s.known[h.from.value := now] else s.known)
  {
    hide Enroll, Greet, HandleHello;
    HelloCases(s, cfg, sock, h, now);
    if h.from.Some? { GreetFrame(Enrolled(s, cfg, sock, h, now), cfg, PeerFor(s, sock, h), h.id, now); }
  }

  lemma EnrollSucceedsIff(s: State, cfg: BrokerConfig, sock: Sock, h: Hello)
    requires h.from.Some?
    ensures EnrollFor(s, cfg, sock, h).1 <==> AllJoinable(s.tables, h.from.value, cfg.maxRooms, WantedRooms(h))
  {
    var a, peer := h.from.value, PeerFor(s, sock, h);
    var t0 := s.tables.(peers := s.tables.peers[a := peer]);
    JoinAllSucceedsIff(t0, a, cfg.maxRooms, WantedRooms(h), h.roles, GetOr(h.role, Member));
    assert forall r :: Joinable(t0, a, r) == Joinable(s.tables, a, r);
  }

  /** Every mailbox frame handed to the new connection, in order. */
  predicate IsWelcome(outs: seq<Out>, notices: seq<Out>, sock: Sock, id: MsgId, rooms: set<Room>, frames: seq<Stored>) {
    outs == notices + [Welcome(sock, id, rooms, |frames|)] + MailboxOuts(sock, frames)
  }

  lemma {:induction false} MailboxOutsAre(sock: Sock, frames: seq<Stored>)
    ensures |MailboxOuts(sock, frames)| == |frames|
    ensures forall i :: 0 <= i < |frames| ==> MailboxOuts(sock, frames)[i] == MailboxOut(sock, frames[i])
  {
    if frames != [] { MailboxOutsAre(sock, frames[..|frames| - 1]); }
  }

  /**
   A refused hello leaves every mailbox untouched, closes its own socket and
   answers with one error; an accepted one hands over exactly the unexpired part
   of its mailbox, in order, and empties it.
   */
  lemma HelloMailbox(s: State, cfg: BrokerConfig, sock: Sock, h: Hello, now: int)
    ensures
      var (s', outs) := HandleHello(s, cfg, sock, h, now);
      if Acceptable(s, cfg, sock, h) then
        var alias := h.from.value;
        var live := MB.FreshPart(MB.Queue(s.box, alias), cfg.mailbox.mailboxTtlMs, now);
        var gone := MB.ExpiredPart(MB.Queue(s.box, alias), cfg.mailbox.mailboxTtlMs, now);
        && s'.box == MB.Box(s.box.queues - {alias}, s.box.delivered + |live|, s.box.dropped + |gone|)
        && IsWelcome(outs, DropNotices(s', gone), sock, h.id, RoomSet(WantedRooms(h)), live)
        && s'.mailWrites == IssueMail(s.mailWrites, s.nextMail, RefOf(PeerFor(s, sock, h)), live)
        && s'.nextMail == s.nextMail + |live| && s'.destroyed == s.destroyed
      else
        && s'.mailWrites == s.mailWrites && s'.nextMail == s.nextMail
        && s'.box == s.box && |outs| == 1 && outs[0].Error? && outs[0].sock == sock
        && s'.destroyed == s.destroyed + {sock}
        && (!Admitted(s, cfg, sock, h) ==> s'.tables == s.tables)
  {
    hide Enroll, AllJoinable, DropNotices, HandleHello, MailboxOuts, MB.FreshPart, MB.ExpiredPart;
    HelloCases(s, cfg, sock, h, now);
    if Admitted(s, cfg, sock, h) {
      EnrollSucceedsIff(s, cfg, sock, h);
      if AllJoinable(s.tables, h.from.value, cfg.maxRooms, WantedRooms(h)) {
        HelloRooms(s, cfg, sock, h);
        var s1, s' := Enrolled(s, cfg, sock, h, now), HandleHello(s, cfg, sock, h, now).0;
        NoticesFrame(s1, s', MB.ExpiredPart(MB.Queue(s.box, h.from.value), cfg.mailbox.mailboxTtlMs, now));
      }
    }
  }

  lemma {:induction false} NoticesFrame(s: State, s': State, dropped: seq<Stored>)
    requires s'.tables == s.tables && s'.destroyed == s.destroyed
    ensures DropNotices(s', dropped) == DropNotices(s, dropped)
  {
    if dropped != [] { NoticesFrame(s, s', dropped[..|dropped| - 1]); }
  }

  /** The room -> role map a hello asks for. */
  function AskedRoles(h: Hello): map<Room, Role> {
    map r | r in WantedRooms(h) :: RoleFor(h.roles, GetOr(h.role, Member), r)
  }

  /** An accepted hello leaves the record with exactly the rooms and roles it asked
      for, whatever the tables held before. */
  lemma HelloRooms(s: State, cfg: BrokerConfig, sock: Sock, h: Hello)
    requires h.from.Some? && AllJoinable(s.tables, h.from.value, cfg.maxRooms, WantedRooms(h))
    ensures
      var t := EnrollFor(s, cfg, sock, h).0;
      && h.from.value in t.peers
      && t.peers[h.from.value] == PeerFor(s, sock, h).(rooms := AskedRoles(h))
      && t.peers[h.from.value].rooms.Keys == RoomSet(WantedRooms(h))
      && EnrollFor(s, cfg, sock, h).1
  {
    hide AllJoinable, Extends;
    EnrollSucceedsIff(s, cfg, sock, h);
    var a, peer := h.from.value, PeerFor(s, sock, h);
    var t0 := s.tables.(peers := s.tables.peers[a := peer]);
    JoinAllResult(t0, a, cfg.maxRooms, WantedRooms(h), h.roles, GetOr(h.role, Member));
    var t := JoinAll(t0, a, cfg.maxRooms, WantedRooms(h), h.roles, GetOr(h.role, Member)).0;
    ExtendsKeepsRecord(t0, t, a);
    assert t.peers[a].rooms == AskedRoles(h);
  }

  lemma ExtendsKeepsRecord(t: Tables, t': Tables, a: Alias)
    requires a in t.peers && Extends(t, t', a)
    ensures t'.peers[a] == t.peers[a].(rooms := t'.peers[a].rooms)
  {}

  /** One more step at the end of a run. */
  lemma RunSnoc(cfg: BrokerConfig, before: seq<Step>, step: Step)
    ensures Run(cfg, before + [step]) == Next(Run(cfg, before), cfg, step).0
    ensures OutsAt(cfg, before + [step], |before|) == Next(Run(cfg, before), cfg, step).1
  {
    assert (before + [step])[..|before + [step]| - 1] == before;
    assert (before + [step])[..|before|] == before;
  }

  // ---- agreement over runs ----

  lemma HelloKeepsAgree(s: State, cfg: BrokerConfig, sock: Sock, h: Hello, now: int)
    requires Agree(s.tables, cfg.maxRooms)
    ensures Agree(HandleHello(s, cfg, sock, h, now).0.tables, cfg.maxRooms)
  {
    hide Agree, Enroll, HandleHello;
    HelloFrameRule(s, cfg, sock, h, now);
    if h.from.Some? {
      EnrollKeepsAgree(s.tables, PeerFor(s, sock, h), cfg.maxRooms, WantedRooms(h), h.roles, GetOr(h.role, Member));
    }
  }

  /** `t'` differs from `t` in nothing that concerns rooms. */
  ghost predicate SameRooms(t: Tables, t': Tables) {
    && t'.rooms == t.rooms && t'.peers.Keys == t.peers.Keys
    && forall a :: a in t.peers ==> t'.peers[a].alias == t.peers[a].alias && t'.peers[a].rooms == t.peers[a].rooms
  }

  lemma SameRoomsAgree(t: Tables, t': Tables, maxRooms: int)
    requires Agree(t, maxRooms) && SameRooms(t, t')
    ensures Agree(t', maxRooms)
  {
    forall a | a in t'.peers ensures PeerOk(t', maxRooms, a) { assert PeerOk(t, maxRooms, a); }
    forall r | r in t'.rooms ensures RoomOk(t', r) { assert RoomOk(t, r); }
  }

  lemma SweepSameRooms(s: State, cfg: BrokerConfig, now: int)
    ensures SameRooms(s.tables, SweepReservations(s, cfg, now).tables)
  {
    hide Unexpired;
    var t := SweepReservations(s, cfg, now).tables;
    assert t.peers.Keys == s.tables.peers.Keys;
  }

  /** Changing a record without touching its alias and rooms. */
  lemma WithPeerKeepsAgree(s: State, maxRooms: int, p: Peer)
    requires Agree(s.tables, maxRooms) && p.alias in s.tables.peers && p.rooms == s.tables.peers[p.alias].rooms
    ensures Agree(WithPeer(s, p).tables, maxRooms)
  {
    hide Agree;
    AliasIsKey(s.tables, maxRooms, p.alias);
    SameRoomsAgree(s.tables, WithPeer(s, p).tables, maxRooms);
  }

  lemma {:induction false} CloseAllKeepsAgree(s: State, maxRooms: int, order: seq<Alias>)
    requires Agree(s.tables, maxRooms)
    ensures Agree(CloseAll(s, order).tables, maxRooms)
  {
    hide Agree, Close;
    if order != [] {
      CloseAllKeepsAgree(s, maxRooms, order[..|order| - 1]);
      CloseKeepsAgree(CloseAll(s, order[..|order| - 1]).tables, order[|order| - 1], maxRooms);
    }
  }

  lemma MsgKeepsTables(s: State, cfg: BrokerConfig, from: Peer, m: Msg, now: int)
    requires Agree(s.tables, cfg.maxRooms)
    ensures RouteMsg(s, cfg, from, m, now).0.tables == s.tables && RouteMsg(s, cfg, from, m, now).0.known == s.known
  {
    hide RouteMsg, Agree;
    MsgFrameRule(s, cfg, from, m, now);
  }

  lemma CtlKeepsTables(s: State, cfg: BrokerConfig, from: Peer, c: Ctl, now: int)
    ensures HandleCtl(s, cfg, from, c, now).0.tables == s.tables && HandleCtl(s, cfg, from, c, now).0.known == s.known
  {
    hide Check, LivePending;
  }

  lemma AliasIsKey(t: Tables, maxRooms: int, a: Alias)
    requires Agree(t, maxRooms) && a in t.peers
    ensures t.peers[a].alias == a
  {
    assert PeerOk(t, maxRooms, a);
  }

  lemma DispatchKeepsAgree(s: State, cfg: BrokerConfig, sock: Sock, f: Frame, now: int)
    requires Agree(s.tables, cfg.maxRooms)
    ensures Agree(Dispatch(s, cfg, sock, f, now).0.tables, cfg.maxRooms)
  {
    hide Agree, HandleHello, RouteMsg, HandleCtl, Join, Leave;
    if f.HelloFrame? {
      HelloKeepsAgree(s, cfg, sock, f.hello, now);
    } else if Authed(s, sock, f) {
      var a := f.From().value;
      AliasIsKey(s.tables, cfg.maxRooms, a);
      var peer := s.tables.peers[a];
      match f {
        case MsgFrame(m) => MsgKeepsTables(s, cfg, peer, m, now);
        case CtlFrame(c) => CtlKeepsTables(s, cfg, peer, c, now);
        case JoinFrame(_, _, room, role) => if room.Some? { JoinKeepsAgree(s.tables, a, cfg.maxRooms, room.value,
            GetOr(role, Member)); }
        case LeaveFrame(_, _, room) => if room.Some? { LeaveKeepsAgree(s.tables, a, cfg.maxRooms, room.value); }
        case ReserveFrame(_, _, rs) => WithPeerKeepsAgree(s, cfg.maxRooms, peer.(reservations := rs));
        case ActivityFrame(_, _, act) => WithPeerKeepsAgree(s, cfg.maxRooms, peer.(activity := act));
        case _ =>
      }
    }
  }

  lemma CloseRefKeepsAgree(s: State, r: Ref, maxRooms: int)
    requires Agree(s.tables, maxRooms)
    ensures Agree(CloseRef(s, r).tables, maxRooms)
  {
    hide Agree, Close;
    CloseKeepsAgree(s.tables, r.alias, maxRooms);
  }

  lemma StepKeepsAgree(s: State, cfg: BrokerConfig, step: Step)
    requires Agree(s.tables, cfg.maxRooms)
    ensures Agree(Next(s, cfg, step).0.tables, cfg.maxRooms)
  {
    hide Agree, Dispatch, MB.Enqueue, DropNotices, CloseRef, CloseAll, SweepReservations;
    if Enabled(s, step) {
      match step {
        case Deliver(sock, f, now) => DispatchKeepsAgree(s, cfg, sock, f, now);
        case WriteDone(t, ok, now) =>
          CloseRefKeepsAgree(s.(writes := s.writes - {t}), s.writes[t].target, cfg.maxRooms);
        case FanWriteDone(t, a, ok, now) => CloseRefKeepsAgree(s, s.writes[t].waiting[a], cfg.maxRooms);
        case CtlWriteDone(n, ok) =>
          var w := s.ctlWrites[n];
          CloseRefKeepsAgree(s.(ctlWrites := s.ctlWrites - {n}, pendingCtl := s.pendingCtl - {w.ctl.id}), w.target,
              cfg.maxRooms);
        case MailWriteDone(n, ok) =>
          CloseRefKeepsAgree(s.(mailWrites := s.mailWrites - {n}), s.mailWrites[n].target, cfg.maxRooms);
        case SendFailed(r) => CloseRefKeepsAgree(s, r, cfg.maxRooms);
        case SocketClosed(sock, order) => CloseAllKeepsAgree(s.(destroyed := s.destroyed + {sock}), cfg.maxRooms,
            order);
        case SweepStep(now) =>
          SweepSameRooms(s, cfg, now);
          SameRoomsAgree(s.tables, SweepReservations(s, cfg, now).tables, cfg.maxRooms);
        case _ =>
      }
    }
  }

  /**
   Index agreement after every run: each live record's rooms list it, no stored
   room is empty or holds more than 64 members, no record exceeds its room cap.
   */
  lemma {:induction false} RunAgrees(cfg: BrokerConfig, steps: seq<Step>)
    ensures Agree(Run(cfg, steps).tables, cfg.maxRooms)
  {
    if steps != [] {
      hide Agree, Next;
      RunAgrees(cfg, steps[..|steps| - 1]);
      StepKeepsAgree(Run(cfg, steps[..|steps| - 1]), cfg, steps[|steps| - 1]);
    }
  }

  // ---- exactness ----

  /** `a` is a record that is in `r`. */
  predicate IsIn(t: Tables, r: Room, a: Alias) { a in t.peers && r in t.peers[a].rooms }

  lemma ExactMeans(t: Tables)
    ensures Exact(t) <==> forall r, a :: a in Members(t, r) ==> IsIn(t, r, a)
  {
    if Exact(t) {
      forall r, a | a in Members(t, r) ensures IsIn(t, r, a) {}
    } else {
      var r, a :| r in t.rooms && a in t.rooms[r] && !(a in t.peers && r in t.peers[a].rooms);
      assert a in Members(t, r) && !IsIn(t, r, a);
    }
  }

  lemma ExtendsKeepsExact(t: Tables, t': Tables, alias: Alias)
    requires alias in t.peers && Exact(t) && Extends(t, t', alias)
    ensures Exact(t')
  {
    hide Exact;
    ExactMeans(t);
    ExactMeans(t');
    forall r, a | a in Members(t', r) ensures IsIn(t', r, a) {
      if a in Members(t, r) { assert IsIn(t, r, a); }
    }
  }

  lemma JoinKeepsExact(t: Tables, alias: Alias, maxRooms: int, room: Room, role: Role)
    requires alias in t.peers && Exact(t)
    ensures Exact(Join(t, alias, maxRooms, room, role).0)
  {
    hide Exact, Extends, Join;
    JoinExtends(t, alias, maxRooms, room, role);
    ExtendsKeepsExact(t, Join(t, alias, maxRooms, room, role).0, alias);
  }

  /** Taking `alias` out of the rooms `gone` on both sides. */
  lemma RemoveKeepsExact(t: Tables, t': Tables, alias: Alias, gone: set<Room>)
    requires Exact(t) && t'.rooms == Detached(t.rooms, gone, alias)
    requires forall a :: a in t.peers && a != alias ==> a in t'.peers && t'.peers[a] == t.peers[a]
    requires alias in t.peers ==>
      if alias in t'.peers then t'.peers[alias].rooms == t.peers[alias].rooms - gone
      else t.peers[alias].rooms.Keys <= gone
    ensures Exact(t')
  {
    forall r, a | r in t'.rooms && a in t'.rooms[r] ensures a in t'.peers && r in t'.peers[a].rooms {
      assert r in t.rooms && a in t.rooms[r] && !(a == alias && r in gone);
    }
  }

  lemma LeaveKeepsExact(t: Tables, alias: Alias, room: Room)
    requires alias in t.peers && Exact(t)
    ensures Exact(Leave(t, alias, room).0)
  {
    hide Exact, Detached;
    if room in t.peers[alias].rooms {
      LeaveIsDetach(t, alias, room);
      RemoveKeepsExact(t, Leave(t, alias, room).0, alias, {room});
    }
  }

  lemma CloseKeepsExact(t: Tables, alias: Alias)
    requires Exact(t)
    ensures Exact(Close(t, alias))
  {
    hide Exact, Detached;
    if alias in t.peers { RemoveKeepsExact(t, Close(t, alias), alias, t.peers[alias].rooms.Keys); }
  }

  lemma {:induction false} CloseAllKeepsExact(s: State, order: seq<Alias>)
    requires Exact(s.tables)
    ensures Exact(CloseAll(s, order).tables)
  {
    hide Exact, Close;
    if order != [] {
      CloseAllKeepsExact(s, order[..|order| - 1]);
      CloseKeepsExact(CloseAll(s, order[..|order| - 1]).tables, order[|order| - 1]);
    }
  }

  lemma WithPeerKeepsExact(s: State, p: Peer)
    requires Exact(s.tables) && p.alias in s.tables.peers && p.rooms == s.tables.peers[p.alias].rooms
    ensures Exact(WithPeer(s, p).tables)
  {}

  lemma SweepKeepsExact(s: State, cfg: BrokerConfig, now: int)
    requires Exact(s.tables)
    ensures Exact(SweepReservations(s, cfg, now).tables)
  {
    hide Unexpired;
  }

  /** The rooms the new record of a hello comes to join: the longest prefix of those it
      asks for that are well named, have a place and are within the cap. */
  function Rejoined(s: State, cfg: BrokerConfig, h: Hello): set<Room>
    requires h.from.Some?
  {
    JoinedBy(s.tables, h.from.value, cfg.maxRooms, WantedRooms(h))
  }

  /** The step is a hello that replaces the record of a destroyed connection
      without joining all the rooms that record was in. */
  predicate Forgets(s: State, cfg: BrokerConfig, step: Step) {
    && step.Deliver? && step.frame.HelloFrame? && !Authed(s, step.sock, step.frame)
    && var h := step.frame.hello;
    Admitted(s, cfg, step.sock, h) && !(RoomsOf(s.tables, h.from.value).Keys <= Rejoined(s, cfg, h))
  }

  /** An acceptable hello forgets exactly the rooms it does not ask for. */
  lemma AcceptableForgets(s: State, cfg: BrokerConfig, sock: Sock, h: Hello)
    requires Acceptable(s, cfg, sock, h)
    ensures Rejoined(s, cfg, h) == RoomSet(WantedRooms(h))
  {
    hide AllJoinable;
    PrefixIsAll(s.tables, h.from.value, cfg.maxRooms, WantedRooms(h));
  }

  /** Only a destroyed connection can be forgotten. */
  lemma ForgetsDestroyed(s: State, cfg: BrokerConfig, step: Step)
    requires Forgets(s, cfg, step)
    ensures var a := step.frame.hello.from.value; a in s.tables.peers && s.tables.peers[a].sock in s.destroyed
  {
    hide Rejoined;
  }

  lemma HelloExactIff(s: State, cfg: BrokerConfig, sock: Sock, h: Hello, now: int)
    requires Agree(s.tables, cfg.maxRooms) && Exact(s.tables)
    ensures Exact(HandleHello(s, cfg, sock, h, now).0.tables)
       <==> (Admitted(s, cfg, sock, h) ==> RoomsOf(s.tables, h.from.value).Keys <= Rejoined(s, cfg, h))
  {
    hide Agree, Exact, Enroll, JoinedBy, HandleHello;
    HelloFrameRule(s, cfg, sock, h, now);
    if Admitted(s, cfg, sock, h) {
      EnrollExactIff(s.tables, PeerFor(s, sock, h), cfg.maxRooms, WantedRooms(h), h.roles, GetOr(h.role, Member));
    }
  }

  lemma DispatchExactIff(s: State, cfg: BrokerConfig, sock: Sock, f: Frame, now: int)
    requires Agree(s.tables, cfg.maxRooms) && Exact(s.tables)
    ensures Exact(Dispatch(s, cfg, sock, f, now).0.tables) <==> !Forgets(s, cfg, Deliver(sock, f, now))
  {
    hide Agree, Exact, HandleHello, RouteMsg, HandleCtl, Join, Leave, Rejoined, Admitted;
    if f.HelloFrame? {
      HelloExactIff(s, cfg, sock, f.hello, now);
    } else if Authed(s, sock, f) {
      var a := f.From().value;
      AliasIsKey(s.tables, cfg.maxRooms, a);
      var peer := s.tables.peers[a];
      match f {
        case MsgFrame(m) => MsgKeepsTables(s, cfg, peer, m, now);
        case CtlFrame(c) => CtlKeepsTables(s, cfg, peer, c, now);
        case JoinFrame(_, _, room, role) => if room.Some? { JoinKeepsExact(s.tables, a, cfg.maxRooms, room.value,
            GetOr(role, Member)); }
        case LeaveFrame(_, _, room) => if room.Some? { LeaveKeepsExact(s.tables, a, room.value); }
        case ReserveFrame(_, _, rs) => WithPeerKeepsExact(s, peer.(reservations := rs));
        case ActivityFrame(_, _, act) => WithPeerKeepsExact(s, peer.(activity := act));
        case _ =>
      }
    }
  }

  /**
   From an exact index every step leads to an exact index, except precisely a
   hello that forgets rooms of the record it replaces.
   */
  lemma StepExactIff(s: State, cfg: BrokerConfig, step: Step)
    requires Agree(s.tables, cfg.maxRooms) && Exact(s.tables)
    ensures Exact(Next(s, cfg, step).0.tables) <==> !Forgets(s, cfg, step)
  {
    hide Agree, Exact, Dispatch, MB.Enqueue, DropNotices, Close, Admitted, Rejoined;
    if Enabled(s, step) {
      match step {
        case Deliver(sock, f, now) => DispatchExactIff(s, cfg, sock, f, now);
        case WriteDone(t, ok, now) => CloseKeepsExact(s.tables, s.writes[t].target.alias);
        case FanWriteDone(t, a, ok, now) => CloseKeepsExact(s.tables, s.writes[t].waiting[a].alias);
        case CtlWriteDone(n, ok) => CloseKeepsExact(s.tables, s.ctlWrites[n].target.alias);
        case MailWriteDone(n, ok) => CloseKeepsExact(s.tables, s.mailWrites[n].target.alias);
        case SendFailed(r) => CloseKeepsExact(s.tables, r.alias);
        case SocketClosed(sock, order) => CloseAllKeepsExact(s.(destroyed := s.destroyed + {sock}), order);
        case SweepStep(now) => SweepKeepsExact(s, cfg, now);
        case _ =>
      }
    }
  }

  ghost predicate NothingForgotten(cfg: BrokerConfig, steps: seq<Step>) {
    forall k :: 0 <= k < |steps| ==> !Forgets(Run(cfg, steps[..k]), cfg, steps[k])
  }

  /** In a run whose hellos forget no room the two sides are exact inverses throughout. */
  lemma {:induction false} RunExact(cfg: BrokerConfig, steps: seq<Step>)
    requires NothingForgotten(cfg, steps)
    ensures var t := Run(cfg, steps).tables; forall r, a :: a in Members(t, r) <==> IsIn(t, r, a)
    ensures Exact(Run(cfg, steps).tables)
  {
    if steps != [] {
      hide Agree, Exact, Next, Forgets;
      var n := |steps| - 1;
      var front := steps[..n];
      forall k | 0 <= k < n ensures !Forgets(Run(cfg, front[..k]), cfg, front[k]) { assert front[..k] == steps[..k]; }
      RunExact(cfg, front);
      RunAgrees(cfg, front);
      StepExactIff(Run(cfg, front), cfg, steps[n]);
    }
    RunAgrees(cfg, steps);
    ExactAndAgree(Run(cfg, steps).tables, cfg.maxRooms);
  }

  lemma ExactAndAgree(t: Tables, maxRooms: int)
    requires Agree(t, maxRooms) && Exact(t)
    ensures forall r, a :: a in Members(t, r) <==> IsIn(t, r, a)
  {
    hide Exact;
    ExactMeans(t);
    forall r, a | IsIn(t, r, a) ensures a in Members(t, r) { InMeansListed(t, maxRooms, r, a); }
  }

  /** A room that an accepted hello does not ask for keeps listing the alias if the
      record it replaced was in it. */
  lemma ForgottenRoomKeepsMember(s: State, cfg: BrokerConfig, sock: Sock, h: Hello, r: Room)
    requires Agree(s.tables, cfg.maxRooms) && Acceptable(s, cfg, sock, h)
    requires r in RoomsOf(s.tables, h.from.value) && r !in WantedRooms(h)
    ensures
      var t := EnrollFor(s, cfg, sock, h).0;
      h.from.value in Members(t, r) && !IsIn(t, r, h.from.value)
  {
    var a := h.from.value;
    assert PeerOk(s.tables, cfg.maxRooms, a);
    hide Agree, AllJoinable, Enroll;
    HelloRooms(s, cfg, sock, h);
    EnrollMembers(s.tables, PeerFor(s, sock, h), cfg.maxRooms, WantedRooms(h), h.roles, GetOr(h.role, Member));
    assert r !in EnrollFor(s, cfg, sock, h).0.peers[a].rooms;
  }

  function PlainHello(alias: Alias, rooms: seq<Room>): Hello {
    Hello("h", Some(alias), None, Some(rooms), map[], None, None, None, None)
  }

  /** Reconnecting after a lost connection with one room fewer. */
  function GhostRun(): seq<Step> {
    [Deliver(1, HelloFrame(PlainHello("a", ["x", "y"])), 0), Destroy(1),
        Deliver(2, HelloFrame(PlainHello("a", ["x"])), 1)]
  }

  /** The no-replacement hypothesis of `RunExact` is needed: this run ends with a
      room that lists a member which is not in it. */
  lemma ReplacementLeavesGhost(cfg: BrokerConfig)
    requires cfg.maxRooms >= 2
    ensures
      var t := Run(cfg, GhostRun()).tables;
      "a" in t.peers && "a" in Members(t, "y") && !IsIn(t, "y", "a")
  {
    hide AllJoinable, Enroll, Agree, Run, Next;
    var h1, h2 := PlainHello("a", ["x", "y"]), PlainHello("a", ["x"]);
    var first, second, third := Deliver(1, HelloFrame(h1), 0), Destroy(1), Deliver(2, HelloFrame(h2), 1);
    RunAgrees(cfg, [first, second]);
    RunSnoc(cfg, [], first);
    RunSnoc(cfg, [first], second);
    RunSnoc(cfg, [first, second], third);
    assert [] + [first] == [first] && [first] + [second] == [first, second] && [first, second] + [third] == GhostRun();
    EmptyRun(cfg);
    TwoRoomsJoinable(INITIAL.tables, cfg.maxRooms, ["x", "y"]);
    HelloRooms(INITIAL, cfg, 1, h1);
    HelloEnrolls(INITIAL, cfg, 1, h1, 0);
    var s1 := Run(cfg, [first]);
    var s2 := Run(cfg, [first, second]);
    assert s2 == s1.(destroyed := s1.destroyed + {1}) by { DestroyStep(s1, cfg, 1); }
    InMeansListed(s2.tables, cfg.maxRooms, "x", "a");
    TwoRoomsJoinable(s2.tables, cfg.maxRooms, ["x"]);
    ForgottenRoomKeepsMember(s2, cfg, 2, h2, "y");
    HelloRooms(s2, cfg, 2, h2);
    HelloEnrolls(s2, cfg, 2, h2, 1);
  }

  lemma EmptyRun(cfg: BrokerConfig)
    ensures Run(cfg, []) == INITIAL
  {}

  lemma DestroyStep(s: State, cfg: BrokerConfig, sock: Sock)
    ensures Next(s, cfg, Destroy(sock)).0 == s.(destroyed := s.destroyed + {sock})
  {}

  /** An acceptable hello on a connection that does not hold the alias enrolls it. */
  lemma HelloEnrolls(s: State, cfg: BrokerConfig, sock: Sock, h: Hello, now: int)
    requires Acceptable(s, cfg, sock, h) && !Authed(s, sock, HelloFrame(h))
    ensures
      var s' := Next(s, cfg, Deliver(sock, HelloFrame(h), now)).0;
      s'.tables == EnrollFor(s, cfg, sock, h).0 && s'.tokenSocks == s.tokenSocks && s'.destroyed == s.destroyed
  {
    hide HandleHello, Enroll, AllJoinable, MB.FreshPart, MB.ExpiredPart, DropNotices, MailboxOuts;
    HelloFrameRule(s, cfg, sock, h, now);
    HelloMailbox(s, cfg, sock, h, now);
  }

  lemma InMeansListed(t: Tables, maxRooms: int, r: Room, a: Alias)
    requires Agree(t, maxRooms) && IsIn(t, r, a)
    ensures a in Members(t, r)
  {
    assert PeerOk(t, maxRooms, a);
  }

  lemma TwoRoomsJoinable(t: Tables, maxRooms: int, rooms: seq<Room>)
    requires maxRooms >= 2 && (rooms == ["x", "y"] || rooms == ["x"])
    requires if rooms == ["x"] then "a" in Members(t, "x") else t.rooms == map[]
    ensures AllJoinable(t, "a", maxRooms, rooms)
  {
    if rooms == ["x", "y"] { assert RoomSet(rooms) == {"x", "y"}; } else { assert RoomSet(rooms) == {"x"}; }
  }

  // ---- known aliases ----

  predicate AllKnown(s: State) { s.tables.peers.Keys <= s.known.Keys }

  lemma HelloKeepsKnown(s: State, cfg: BrokerConfig, sock: Sock, h: Hello, now: int)
    requires AllKnown(s)
    ensures AllKnown(HandleHello(s, cfg, sock, h, now).0)
  {
    hide Enroll, JoinedBy, HandleHello;
    HelloFrameRule(s, cfg, sock, h, now);
    if h.from.Some? {
      EnrollMembers(s.tables, PeerFor(s, sock, h), cfg.maxRooms, WantedRooms(h), h.roles, GetOr(h.role, Member));
    }
  }

  lemma DispatchKeepsKnown(s: State, cfg: BrokerConfig, sock: Sock, f: Frame, now: int)
    requires AllKnown(s) && Agree(s.tables, cfg.maxRooms)
    ensures AllKnown(Dispatch(s, cfg, sock, f, now).0)
  {
    hide Agree, HandleHello, RouteMsg, HandleCtl;
    if f.HelloFrame? {
      HelloKeepsKnown(s, cfg, sock, f.hello, now);
    } else if Authed(s, sock, f) {
      var peer := s.tables.peers[f.From().value];
      AliasIsKey(s.tables, cfg.maxRooms, f.From().value);
      match f {
        case MsgFrame(m) => MsgKeepsTables(s, cfg, peer, m, now);
        case CtlFrame(c) => CtlKeepsTables(s, cfg, peer, c, now);
        case _ =>
      }
    }
  }

  lemma {:induction false} CloseAllKeepsKnown(s: State, order: seq<Alias>)
    requires AllKnown(s)
    ensures AllKnown(CloseAll(s, order)) && CloseAll(s, order).known == s.known
  {
    hide Detached;
    if order != [] { CloseAllKeepsKnown(s, order[..|order| - 1]); }
  }

  lemma CloseRefKeepsKnown(s: State, r: Ref)
    requires AllKnown(s)
    ensures AllKnown(CloseRef(s, r))
  {
    hide Detached;
  }

  lemma StepKeepsKnown(s: State, cfg: BrokerConfig, step: Step)
    requires AllKnown(s) && Agree(s.tables, cfg.maxRooms)
    ensures AllKnown(Next(s, cfg, step).0)
  {
    hide Agree, Dispatch, MB.Enqueue, DropNotices, CloseRef, Unexpired;
    if Enabled(s, step) {
      match step {
        case Deliver(sock, f, now) => DispatchKeepsKnown(s, cfg, sock, f, now);
        case WriteDone(t, ok, now) => CloseRefKeepsKnown(s.(writes := s.writes - {t}), s.writes[t].target);
        case FanWriteDone(t, a, ok, now) => CloseRefKeepsKnown(s, s.writes[t].waiting[a]);
        case CtlWriteDone(n, ok) =>
          var w := s.ctlWrites[n];
          CloseRefKeepsKnown(s.(ctlWrites := s.ctlWrites - {n}, pendingCtl := s.pendingCtl - {w.ctl.id}), w.target);
        case MailWriteDone(n, ok) => CloseRefKeepsKnown(s.(mailWrites := s.mailWrites - {n}), s.mailWrites[n].target);
        case SendFailed(r) => CloseRefKeepsKnown(s, r);
        case SocketClosed(sock, order) => CloseAllKeepsKnown(s.(destroyed := s.destroyed + {sock}), order);
        case _ =>
      }
    }
  }

  /** In every run a connected alias is known, so pruning never makes it unreachable. */
  lemma {:induction false} ConnectedIsKnown(cfg: BrokerConfig, steps: seq<Step>)
    ensures AllKnown(Run(cfg, steps))
  {
    if steps != [] {
      hide Agree, Next, AllKnown;
      ConnectedIsKnown(cfg, steps[..|steps| - 1]);
      RunAgrees(cfg, steps[..|steps| - 1]);
      StepKeepsKnown(Run(cfg, steps[..|steps| - 1]), cfg, steps[|steps| - 1]);
    } else {
      assert Run(cfg, steps) == INITIAL;
    }
  }
}
