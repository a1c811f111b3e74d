/**
 Connections and the records behind them: who may speak for an alias, what a failed write
 closes, and what the broker remembers of a peer and for how long.
 */
module Connections {
  import opened Common
  import opened StateTables
  import opened Rooms
  import opened Broker
  import opened Routing
  import opened Membership
  import opened Outcomes
  import opened Honesty
  import opened Governance
  import MB = Mailbox

  // ---- speaking for an alias ----

  /** A frame, other than a hello, that does not arrive on the connection of the alias it
      names changes nothing: the answer is an error. */
  lemma ImpostorChangesNothing(s: State, cfg: BrokerConfig, sock: Sock, f: Frame, now: int)
    requires !f.HelloFrame?
    requires forall a :: f.From() == Some(a) && a in s.tables.peers ==> s.tables.peers[a].sock != sock
    ensures Next(s, cfg, Deliver(sock, f, now)) == (s, [Error(sock, f.Id(), HelloRequired)])
  {}

  predicate IsWelcomed(outs: seq<Out>, sock: Sock) {
    exists i :: 0 <= i < |outs| && outs[i].Welcome? && outs[i].sock == sock
  }

  lemma FrameKeepsTokenSocks(s: State, cfg: BrokerConfig, sock: Sock, f: Frame, now: int)
    requires Agree(s.tables, cfg.maxRooms)
    ensures Dispatch(s, cfg, sock, f, now).0.tokenSocks == s.tokenSocks
  {
    hide Agree, HandleHello, RouteMsg, HandleCtl, Join, Leave;
    if f.HelloFrame? {
      HelloFrameRule(s, cfg, sock, f.hello, now);
    } else if Authed(s, sock, f) {
      match f {
        case MsgFrame(m) => MsgFrameRule(s, cfg, s.tables.peers[m.from], m, now);
        case CtlFrame(c) => CtlKeepsTokenSocks(s, cfg, s.tables.peers[c.from], c, now);
        case _ =>
      }
    }
  }

  lemma CtlKeepsTokenSocks(s: State, cfg: BrokerConfig, from: Peer, c: Ctl, now: int)
    ensures HandleCtl(s, cfg, from, c, now).0.tokenSocks == s.tokenSocks
  {}

  lemma StepKeepsTokenSocks(s: State, cfg: BrokerConfig, step: Step)
    requires Agree(s.tables, cfg.maxRooms)
    ensures Next(s, cfg, step).0.tokenSocks
         == if step.Accept? && step.tokenRequired then s.tokenSocks + {step.sock} else s.tokenSocks
  {
    hide Agree, Dispatch, MB.Enqueue, DropNotices, CloseRef, CloseAll, Unexpired;
    if Enabled(s, step) {
      match step {
        case Deliver(sock, f, now) => FrameKeepsTokenSocks(s, cfg, sock, f, now);
        case WriteDone(t, ok, now) => CloseRefFrame(s.(writes := s.writes - {t}), s.writes[t].target);
        case FanWriteDone(t, a, ok, now) => CloseRefFrame(s, s.writes[t].waiting[a]);
        case CtlWriteDone(n, ok) =>
          var w := s.ctlWrites[n];
          CloseRefFrame(s.(ctlWrites := s.ctlWrites - {n}, pendingCtl := s.pendingCtl - {w.ctl.id}), w.target);
        case MailWriteDone(n, ok) => CloseRefFrame(s.(mailWrites := s.mailWrites - {n}), s.mailWrites[n].target);
        case SendFailed(r) => CloseRefFrame(s, r);
        case SocketClosed(sock, order) => CloseAllFrame(s.(destroyed := s.destroyed + {sock}), order);
        case _ =>
      }
    }
  }

  lemma {:induction false} TokenSocksGrow(cfg: BrokerConfig, steps: seq<Step>, j: nat)
    requires j < |steps| && steps[j].Accept? && steps[j].tokenRequired
    ensures steps[j].sock in Run(cfg, steps).tokenSocks
  {
    hide Next, Agree, Run;
    var n := |steps| - 1;
    RunAgrees(cfg, steps[..n]);
    RunUnfolds(cfg, steps);
    StepKeepsTokenSocks(Run(cfg, steps[..n]), cfg, steps[n]);
    if j < n { TokenSocksGrow(cfg, steps[..n], j); }
  }

  /** In every run: on a connection that was accepted as needing the token, no hello is
      welcomed that does not carry the broker's token, and none at all without one. */
  lemma WelcomeNeedsToken(cfg: BrokerConfig, steps: seq<Step>, j: nat, k: nat, h: Hello, now: int)
    requires j < k < |steps| && steps[j].Accept? && steps[j].tokenRequired
    requires steps[k] == Deliver(steps[j].sock, HelloFrame(h), now)
    requires IsWelcomed(OutsAt(cfg, steps, k), steps[j].sock)
    ensures cfg.brokerToken.Some? && h.token == cfg.brokerToken
  {
    TokenSocksGrow(cfg, steps[..k], j);
    hide Run, HandleHello;
    HelloCases(Run(cfg, steps[..k]), cfg, steps[j].sock, h, now);
  }

  // ---- what a record remembers ----

  /** The record of a welcomed peer: its rooms with their roles, its reservations, no known activity yet, and
      the capabilities it advertises, if its protocol version is at least 2. */
  lemma WelcomedRecord(s: State, cfg: BrokerConfig, sock: Sock, h: Hello, now: int)
    requires Acceptable(s, cfg, sock, h) && !Authed(s, sock, HelloFrame(h))
    ensures
      var t := Next(s, cfg, Deliver(sock, HelloFrame(h), now)).0.tables;
      && h.from.value in t.peers
      && t.peers[h.from.value] == Peer(h.from.value, sock, s.nextGen, AskedRoles(h), GetOr(h.reservations, []), Unknown,
           if h.proto.Some? && h.proto.value >= 2 && h.caps.Some? then h.caps.value else [])
  {
    hide AllJoinable, HandleHello, Enroll;
    HelloEnrolls(s, cfg, sock, h, now);
    HelloRooms(s, cfg, sock, h);
  }

  /** The rooms and roles of that record: exactly the requested rooms, or "default" if the hello names none; the
      role is the one named for the room, else the one named for all, else member. */
  lemma WelcomedRoles(s: State, cfg: BrokerConfig, sock: Sock, h: Hello, now: int, room: Room)
    requires Acceptable(s, cfg, sock, h) && !Authed(s, sock, HelloFrame(h))
    ensures
      var t := Next(s, cfg, Deliver(sock, HelloFrame(h), now)).0.tables;
      && h.from.value in t.peers
      && var rooms := t.peers[h.from.value].rooms;
      && var role := if room in h.roles then h.roles[room] else if h.role.Some? then h.role.value else Member;
      && (room in rooms <==> if h.rooms.Some? then room in h.rooms.value else room == "default")
      && (room in rooms ==> rooms[room] == role)
  {
    hide Acceptable, Next;
    WelcomedRecord(s, cfg, sock, h, now);
  }

  /** A join request is granted exactly if the name is well formed and the sender is in the room already or there is
      a place for it and for the room; it then has the requested role there, member by default. */
  lemma JoinRequestIsAnswered(s: State, cfg: BrokerConfig, sock: Sock, id: MsgId, a: Alias, room: Room,
      role: Option<Role>, now: int)
    requires a in s.tables.peers && s.tables.peers[a].sock == sock
    ensures
      var (s', outs) := Next(s, cfg, Deliver(sock, JoinFrame(id, a, Some(room), role), now));
      var mine := s.tables.peers[a].rooms;
      if IsValidRoom(room) && (room in mine || (|mine| < cfg.maxRooms
          && (a in Members(s.tables, room) || |Members(s.tables, room)| < 64)))
      then
        && outs == [OkAck(sock, id)] && a in s'.tables.peers
        && s'.tables.peers[a].rooms == mine[room := if role.Some? then role.value else Member]
      else outs == [Error(sock, id, BadRoom)] && s' == s
  {
    hide Join, Extends, IsValidRoom;
    JoinExtends(s.tables, a, cfg.maxRooms, room, GetOr(role, Member));
  }

  /** An activity report or a reservation request replaces just that in the sender's record. */
  lemma ReportIsRemembered(s: State, cfg: BrokerConfig, sock: Sock, f: Frame, now: int)
    requires Agree(s.tables, cfg.maxRooms) && Authed(s, sock, f) && (f.ActivityFrame? || f.ReserveFrame?)
    ensures
      var (s', outs) := Next(s, cfg, Deliver(sock, f, now));
      var before := s.tables.peers[f.sender];
      && s' == s.(tables := s'.tables) && s'.tables.rooms == s.tables.rooms
      && s'.tables.peers == s.tables.peers[f.sender := Peer(before.alias, before.sock, before.gen, before.rooms,
           if f.ReserveFrame? then f.reservations else before.reservations,
           if f.ActivityFrame? then f.activity else before.activity, before.caps)]
      && outs == if f.ReserveFrame? then [OkAck(sock, f.id)] else []
  {
    AliasIsKey(s.tables, cfg.maxRooms, f.sender);
    hide Agree;
  }

  // ---- what a failed write closes ----

  /** The record a write was addressed to, if the step reports that it failed. */
  function FailedTarget(s: State, step: Step): Option<Ref> {
    match step
    case WriteDone(t, ok, _) =>
      if t in s.writes && s.writes[t].DirectWrite? && !ok then Some(s.writes[t].target) else None
    case FanWriteDone(t, a, ok, _) =>
      if t in s.writes && s.writes[t].FanWrite? && a in s.writes[t].waiting && !ok then Some(s.writes[t].waiting[a])
      else None
    case CtlWriteDone(n, ok) => if n in s.ctlWrites && !ok then Some(s.ctlWrites[n].target) else None
    case MailWriteDone(n, ok) => if n in s.mailWrites && !ok then Some(s.mailWrites[n].target) else None
    case SendFailed(r) => Some(r)
    case _ => None
  }

  predicate ReportsOutcome(step: Step) {
    step.WriteDone? || step.FanWriteDone? || step.CtlWriteDone? || step.MailWriteDone? || step.SendFailed?
  }

  /** The record `r` was taken from is still the one of its alias. */
  predicate StillThere(s: State, r: Ref) { r.alias in s.tables.peers && s.tables.peers[r.alias].gen == r.gen }

  /** `alias` is off: no record, in none of its rooms, its connection destroyed; everybody else is as before. */
  ghost predicate Closed(s: State, s': State, alias: Alias)
    requires alias in s.tables.peers
  {
    var gone := s.tables.peers[alias];
    && s'.tables.peers == s.tables.peers - {alias}
    && s'.destroyed == s.destroyed + {gone.sock}
    && (forall r :: r in gone.rooms ==> alias !in Members(s'.tables, r))
    && (forall r, b :: b != alias ==> (b in Members(s'.tables, r) <==> b in Members(s.tables, r)))
  }

  lemma DetachRemoves(idx: Index, rooms: set<Room>, alias: Alias)
    ensures
      var t, t' := Tables(map[], idx), Tables(map[], Detached(idx, rooms, alias));
      && (forall r :: r in rooms ==> alias !in Members(t', r))
      && (forall r, b :: b != alias ==> (b in Members(t', r) <==> b in Members(t, r)))
  {}

  lemma ClosePeerCloses(s: State, alias: Alias)
    requires alias in s.tables.peers
    ensures Closed(s, ClosePeer(s, alias), alias)
  {
    DetachRemoves(s.tables.rooms, s.tables.peers[alias].rooms.Keys, alias);
    hide Detached;
    var t := ClosePeer(s, alias).tables;
    assert forall r :: Members(t, r) == Members(Tables(map[], t.rooms), r);
    assert forall r :: Members(s.tables, r) == Members(Tables(map[], s.tables.rooms), r);
  }

  /**
   What the outcome of a write does to the records: a failed one closes the record it was
   addressed to if that is still the one of its alias, and no record at all if the alias has
   said hello again since; a successful one closes none.
   */
  lemma FailureClosesItsRecordOnly(s: State, cfg: BrokerConfig, step: Step)
    requires ReportsOutcome(step)
    ensures
      var s', target := Next(s, cfg, step).0, FailedTarget(s, step);
      if target.Some? && StillThere(s, target.value) then Closed(s, s', target.value.alias)
      else s'.tables == s.tables && s'.destroyed == s.destroyed
  {
    var target := FailedTarget(s, step);
    if target.Some? && StillThere(s, target.value) { ClosePeerCloses(s, target.value.alias); }
    OutcomeCloses(s, cfg, step);
    hide Next, ClosePeer, Closed;
    if target.Some? { SameClose(s, Next(s, cfg, step).0, target.value); }
  }

  lemma OutcomeCloses(s: State, cfg: BrokerConfig, step: Step)
    requires ReportsOutcome(step)
    ensures
      var s', target := Next(s, cfg, step).0, FailedTarget(s, step);
      var closed := if target.Some? then CloseRef(s, target.value) else s;
      s'.tables == closed.tables && s'.destroyed == closed.destroyed
  {
    hide DirectDone, FanDone, CtlDone, MailDone, CloseRef;
    if Enabled(s, step) {
      match step {
        case WriteDone(t, ok, now) => DirectCloses(s, cfg, t, ok, now);
        case FanWriteDone(t, a, ok, now) => FanCloses(s, cfg, t, a, ok, now);
        case CtlWriteDone(n, ok) => CtlCloses(s, n, ok);
        case MailWriteDone(n, ok) => MailCloses(s, n, ok);
        case _ =>
      }
    }
  }

  /** What a close does depends on the records and their connections alone. */
  lemma CloseLooksAtTables(s: State, s': State, r: Ref)
    requires s'.tables == s.tables && s'.destroyed == s.destroyed
    ensures CloseRef(s', r).tables == CloseRef(s, r).tables && CloseRef(s', r).destroyed == CloseRef(s, r).destroyed
  {
    hide Close;
  }

  lemma DirectCloses(s: State, cfg: BrokerConfig, t: nat, ok: bool, now: int)
    requires t in s.writes && s.writes[t].DirectWrite?
    ensures
      var s', closed := DirectDone(s, cfg, t, ok, now).0, if ok then s else CloseRef(s, s.writes[t].target);
      s'.tables == closed.tables && s'.destroyed == closed.destroyed
  {
    hide MB.Enqueue, DropNotices, CloseRef;
    CloseLooksAtTables(s, s.(writes := s.writes - {t}), s.writes[t].target);
  }

  lemma FanCloses(s: State, cfg: BrokerConfig, t: nat, a: Alias, ok: bool, now: int)
    requires t in s.writes && s.writes[t].FanWrite? && a in s.writes[t].waiting
    ensures
      var s', closed := FanDone(s, cfg, t, a, ok, now).0, if ok then s else CloseRef(s, s.writes[t].waiting[a]);
      s'.tables == closed.tables && s'.destroyed == closed.destroyed
  {
    hide MB.Enqueue, DropNotices, CloseRef;
  }

  lemma CtlCloses(s: State, n: nat, ok: bool)
    requires n in s.ctlWrites
    ensures
      var s', closed := CtlDone(s, n, ok).0, if ok then s else CloseRef(s, s.ctlWrites[n].target);
      s'.tables == closed.tables && s'.destroyed == closed.destroyed
  {
    hide CloseRef;
    var w := s.ctlWrites[n];
    CloseLooksAtTables(s, s.(ctlWrites := s.ctlWrites - {n}, pendingCtl := s.pendingCtl - {w.ctl.id}), w.target);
  }

  lemma MailCloses(s: State, n: nat, ok: bool)
    requires n in s.mailWrites
    ensures
      var s', closed := MailDone(s, n, ok), if ok then s else CloseRef(s, s.mailWrites[n].target);
      s'.tables == closed.tables && s'.destroyed == closed.destroyed
  {
    hide CloseRef;
    CloseLooksAtTables(s, s.(mailWrites := s.mailWrites - {n}), s.mailWrites[n].target);
  }

  lemma SameClose(s: State, s': State, r: Ref)
    requires s'.tables == CloseRef(s, r).tables && s'.destroyed == CloseRef(s, r).destroyed
    ensures StillThere(s, r) && Closed(s, ClosePeer(s, r.alias), r.alias) ==> Closed(s, s', r.alias)
    ensures !StillThere(s, r) ==> s'.tables == s.tables && s'.destroyed == s.destroyed
  {
    hide Close;
  }

  // ---- reconnecting ----

  /** Every record was made before the next one will be. */
  ghost predicate RecordsAged(s: State) { forall a :: a in s.tables.peers ==> s.tables.peers[a].gen < s.nextGen }

  /** So was every record an outstanding write is addressed to. */
  ghost predicate WritesAged(s: State) {
    && (forall t :: t in s.writes ==> WriteAged(s.writes[t], s.nextGen))
    && (forall n :: n in s.ctlWrites ==> s.ctlWrites[n].target.gen < s.nextGen)
    && MailAged(s.mailWrites, s.nextGen)
  }

  ghost predicate WriteAged(w: Write, nextGen: nat) {
    match w
    case DirectWrite(_, target, _, _, _, _) => target.gen < nextGen
    case FanWrite(_, _, waiting, _, _, _) => forall a :: a in waiting ==> waiting[a].gen < nextGen
  }

  lemma MsgKeepsAged(s: State, cfg: BrokerConfig, from: Peer, m: Msg, now: int)
    requires Agree(s.tables, cfg.maxRooms) && RecordsAged(s) && WritesAged(s)
    ensures var s' := RouteMsg(s, cfg, from, m, now).0; RecordsAged(s') && WritesAged(s')
  {
    hide Agree, RouteMsg, Routed, WriteAged;
    RouteMsgRouted(s, cfg, from, m, now);
    var (s', outs) := RouteMsg(s, cfg, from, m, now);
    RoutedKeepsAged(s.(nextToken := s.nextToken + 1), cfg, s', outs, from, s.nextToken, m, now);
  }

  lemma RoutedKeepsAged(s: State, cfg: BrokerConfig, s': State, outs: seq<Out>, from: Peer, t: nat, m: Msg, now: int)
    requires Routed(s, cfg, s', outs, from, t, m, now) && RecordsAged(s)
    ensures s' == s.(rates := s'.rates, box := s'.box, writes := s'.writes)
    ensures s'.writes == s.writes
        || (t in s'.writes && s'.writes == s.writes[t := s'.writes[t]] && WriteAged(s'.writes[t], s.nextGen))
  {
    RoutedFrameRule(s, cfg, s', outs, from, t, m, now);
    if Sent(s, cfg, s', outs, from, t, m) {
      hide DirectOk, MayWrite;
    } else if Fanned(s, cfg, s', outs, from, t, m, now) {
      FannedIsAged(s, cfg, s', outs, from, t, m, now);
    } else {
      hide Sent, Fanned, DecisionFor, Forwarded, MB.Enqueue, CapTarget;
    }
  }

  lemma FannedIsAged(s: State, cfg: BrokerConfig, s': State, outs: seq<Out>, from: Peer, t: nat, m: Msg, now: int)
    requires Fanned(s, cfg, s', outs, from, t, m, now) && RecordsAged(s)
    ensures s'.writes == s.writes
        || (t in s'.writes && s'.writes == s.writes[t := s'.writes[t]] && WriteAged(s'.writes[t], s.nextGen))
  {
    hide FanBoxes, Reached, Boxed, Others, DecisionFor, Members, EndsWith, NoAnswers, MayWrite;
  }

  lemma CtlKeepsAged(s: State, cfg: BrokerConfig, from: Peer, c: Ctl, now: int)
    requires RecordsAged(s) && WritesAged(s)
    ensures var s' := HandleCtl(s, cfg, from, c, now).0; RecordsAged(s') && WritesAged(s')
  {
    hide WriteAged, LivePending;
  }

  ghost predicate MailAged(writes: map<nat, MailWrite>, nextGen: nat) {
    forall n :: n in writes ==> writes[n].target.gen < nextGen
  }

  lemma {:induction false} IssuedAreAged(writes: map<nat, MailWrite>, next: nat, target: Ref, frames: seq<Stored>,
      nextGen: nat)
    requires target.gen < nextGen && MailAged(writes, nextGen)
    ensures MailAged(IssueMail(writes, next, target, frames), nextGen)
  {
    if frames != [] { IssuedAreAged(writes, next, target, frames[..|frames| - 1], nextGen); }
  }

  lemma HelloKeepsAged(s: State, cfg: BrokerConfig, sock: Sock, h: Hello, now: int)
    requires RecordsAged(s) && WritesAged(s)
    ensures var s' := HandleHello(s, cfg, sock, h, now).0; RecordsAged(s') && WritesAged(s')
  {
    hide HandleHello, Enroll, Greet, WriteAged, AllJoinable, JoinedBy;
    HelloCases(s, cfg, sock, h, now);
    if Admitted(s, cfg, sock, h) {
      var peer := PeerFor(s, sock, h);
      EnrollMembers(s.tables, peer, cfg.maxRooms, WantedRooms(h), h.roles, GetOr(h.role, Member));
      EnrollSucceedsIff(s, cfg, sock, h);
      if EnrollFor(s, cfg, sock, h).1 { HelloRooms(s, cfg, sock, h); }
      EnrolledIsAged(s, cfg, sock, h, now);
      GreetKeepsAged(Enrolled(s, cfg, sock, h, now), cfg, peer, h.id, now);
    }
  }

  lemma EnrolledIsAged(s: State, cfg: BrokerConfig, sock: Sock, h: Hello, now: int)
    requires h.from.Some? && RecordsAged(s) && WritesAged(s)
    requires SaidHello(s.tables, EnrollFor(s, cfg, sock, h).0, h.from.value,
        JoinedBy(s.tables, h.from.value, cfg.maxRooms, WantedRooms(h)), EnrollFor(s, cfg, sock, h).1)
    requires EnrollFor(s, cfg, sock, h).1 ==> EnrollFor(s, cfg, sock, h).0.peers[h.from.value].gen == s.nextGen
    ensures var s' := Enrolled(s, cfg, sock, h, now); RecordsAged(s') && WritesAged(s')
  {
    hide EnrollFor, JoinedBy;
  }

  lemma GreetKeepsAged(s: State, cfg: BrokerConfig, peer: Peer, id: MsgId, now: int)
    requires RecordsAged(s) && WritesAged(s) && peer.gen < s.nextGen
    ensures var s' := Greet(s, cfg, peer, id, now).0; RecordsAged(s') && WritesAged(s')
  {
    hide MB.Flush, DropNotices, MailboxOuts, IssueMail, WriteAged;
    var frames, s' := MB.Flush(s.box, cfg.mailbox, peer.alias, now).1, Greet(s, cfg, peer, id, now).0;
    IssuedAreAged(s.mailWrites, s.nextMail, RefOf(peer), frames, s.nextGen);
    assert s'.mailWrites == IssueMail(s.mailWrites, s.nextMail, RefOf(peer), frames);
    assert s'.writes == s.writes && s'.ctlWrites == s.ctlWrites && s'.nextGen == s.nextGen;
  }

  lemma FrameKeepsAged(s: State, cfg: BrokerConfig, sock: Sock, f: Frame, now: int)
    requires Agree(s.tables, cfg.maxRooms) && RecordsAged(s) && WritesAged(s)
    ensures var s' := Dispatch(s, cfg, sock, f, now).0; RecordsAged(s') && WritesAged(s')
  {
    hide Agree, HandleHello, RouteMsg, HandleCtl, RemoveMember, WritesAged, IsValidRoom;
    if f.HelloFrame? {
      HelloKeepsAged(s, cfg, sock, f.hello, now);
    } else if Authed(s, sock, f) {
      match f {
        case MsgFrame(m) => MsgKeepsAged(s, cfg, s.tables.peers[m.from], m, now);
        case CtlFrame(c) => CtlKeepsAged(s, cfg, s.tables.peers[c.from], c, now);
        case _ => RequestKeepsAged(s, cfg, sock, f, now);
      }
    }
  }

  lemma RequestKeepsAged(s: State, cfg: BrokerConfig, sock: Sock, f: Frame, now: int)
    requires Agree(s.tables, cfg.maxRooms) && RecordsAged(s) && WritesAged(s)
    requires Authed(s, sock, f) && !f.HelloFrame? && !f.MsgFrame? && !f.CtlFrame?
    ensures var s' := Dispatch(s, cfg, sock, f, now).0; RecordsAged(s') && WritesAged(s')
  {
    AliasIsKey(s.tables, cfg.maxRooms, f.From().value);
    hide Agree, Dispatch, WritesAged;
    RequestFrame(s, cfg, sock, f, now);
    AgedAlike(s, Dispatch(s, cfg, sock, f, now).0);
  }

  lemma AgedAlike(s: State, s': State)
    requires WritesAged(s)
    requires s'.writes == s.writes && s'.ctlWrites == s.ctlWrites && s'.mailWrites == s.mailWrites
      && s'.nextGen == s.nextGen
    ensures WritesAged(s')
  {}

  /** The other frames make no record and touch no write. */
  ghost predicate MakesNothing(s: State, s': State) {
    && s'.writes == s.writes && s'.ctlWrites == s.ctlWrites && s'.mailWrites == s.mailWrites && s'.nextGen == s.nextGen
    && s'.tables.peers.Keys == s.tables.peers.Keys
    && forall a :: a in s.tables.peers ==> s'.tables.peers[a].gen == s.tables.peers[a].gen
  }

  lemma RequestFrame(s: State, cfg: BrokerConfig, sock: Sock, f: Frame, now: int)
    requires Authed(s, sock, f) && !f.HelloFrame? && !f.MsgFrame? && !f.CtlFrame?
    requires s.tables.peers[f.From().value].alias == f.From().value
    ensures MakesNothing(s, Dispatch(s, cfg, sock, f, now).0)
  {
    hide HandleJoin, HandleLeave, HandleReply, HandleCtlAck, MakesNothing;
    var a := f.From().value;
    match f {
      case JoinFrame(id, _, room, role) => JoinFrameMakes(s, cfg, sock, a, id, room, role);
      case LeaveFrame(id, _, room) => LeaveFrameMakes(s, sock, a, id, room);
      case ReplyFrame(id, _) => ReplyFrameMakes(s, cfg, s.tables.peers[a], id, now);
      case CtlAckFrame(ack) => AckFrameMakes(s, s.tables.peers[a], ack);
      case _ =>
    }
    if f.ReserveFrame? || f.ActivityFrame? { RecordChangeMakes(s, s.tables.peers[a], f); }
  }

  lemma JoinFrameMakes(s: State, cfg: BrokerConfig, sock: Sock, a: Alias, id: MsgId, room: Option<Room>,
      role: Option<Role>)
    requires a in s.tables.peers
    ensures MakesNothing(s, HandleJoin(s, cfg, sock, a, id, room, role).0)
  {
    hide Join, Leave;
    if room.Some? { RoomsKeepGens(s.tables, a, cfg.maxRooms, room.value, GetOr(role, Member)); }
  }

  lemma LeaveFrameMakes(s: State, sock: Sock, a: Alias, id: MsgId, room: Option<Room>)
    requires a in s.tables.peers
    ensures MakesNothing(s, HandleLeave(s, sock, a, id, room).0)
  {
    hide Join, Leave;
    if room.Some? { RoomsKeepGens(s.tables, a, 0, room.value, Member); }
  }

  lemma ReplyFrameMakes(s: State, cfg: BrokerConfig, from: Peer, id: MsgId, now: int)
    ensures MakesNothing(s, HandleReply(s, cfg, from, id, now).0)
  {}

  lemma AckFrameMakes(s: State, from: Peer, ack: CtlAck)
    ensures MakesNothing(s, HandleCtlAck(s, from, ack).0)
  {}

  lemma RecordChangeMakes(s: State, from: Peer, f: Frame)
    requires from.alias in s.tables.peers && s.tables.peers[from.alias] == from
    ensures f.ReserveFrame? ==> MakesNothing(s, WithPeer(s, from.(reservations := f.reservations)))
    ensures f.ActivityFrame? ==> MakesNothing(s, WithPeer(s, from.(activity := f.activity)))
  {}

  /** Joining and leaving makes no new record. */
  lemma RoomsKeepGens(t: Tables, alias: Alias, maxRooms: int, room: Room, role: Role)
    requires alias in t.peers
    ensures
      var joined, left := Join(t, alias, maxRooms, room, role).0.peers, Leave(t, alias, room).0.peers;
      && joined.Keys == t.peers.Keys && (forall a :: a in joined ==> joined[a].gen == t.peers[a].gen)
      && left.Keys == t.peers.Keys && (forall a :: a in left ==> left[a].gen == t.peers[a].gen)
  {
    hide IsValidRoom, HasPlace, RemoveMember;
  }

  lemma CloseKeepsAged(s: State, r: Ref)
    requires RecordsAged(s)
    ensures RecordsAged(CloseRef(s, r)) && CloseRef(s, r).nextGen == s.nextGen
  {
    hide Detached;
  }

  lemma {:induction false} CloseAllKeepsAged(s: State, order: seq<Alias>)
    requires RecordsAged(s)
    ensures RecordsAged(CloseAll(s, order))
  {
    hide Detached;
    if order != [] { CloseAllKeepsAged(s, order[..|order| - 1]); }
  }

  lemma OutcomeKeepsAged(s: State, cfg: BrokerConfig, step: Step)
    requires ReportsOutcome(step) && RecordsAged(s) && WritesAged(s)
    ensures var s' := Next(s, cfg, step).0; RecordsAged(s') && WritesAged(s')
  {
    OutcomeCloses(s, cfg, step);
    if FailedTarget(s, step).Some? { CloseKeepsAged(s, FailedTarget(s, step).value); }
    OutcomeWrites(s, cfg, step);
    hide Next, CloseRef;
  }

  lemma OutcomeWrites(s: State, cfg: BrokerConfig, step: Step)
    requires ReportsOutcome(step) && WritesAged(s)
    ensures var s' := Next(s, cfg, step).0; s'.nextGen == s.nextGen && WritesAged(s')
  {
    hide DirectDone, FanDone, CtlDone, MailDone, CloseRef, WriteAged;
    if Enabled(s, step) {
      match step {
        case WriteDone(t, ok, now) => DirectWrites(s, cfg, t, ok, now);
        case FanWriteDone(t, a, ok, now) => FanWrites(s, cfg, t, a, ok, now);
        case CtlWriteDone(n, ok) => CtlWrites(s, n, ok);
        case MailWriteDone(n, ok) => MailWrites(s, n, ok);
        case SendFailed(r) => CloseRefFrame(s, r);
      }
    }
  }

  lemma DirectWrites(s: State, cfg: BrokerConfig, t: nat, ok: bool, now: int)
    requires t in s.writes && s.writes[t].DirectWrite? && WritesAged(s)
    ensures var s' := DirectDone(s, cfg, t, ok, now).0; s'.nextGen == s.nextGen && WritesAged(s')
  {
    hide MB.Enqueue, DropNotices, CloseRef, WriteAged;
    CloseRefFrame(s.(writes := s.writes - {t}), s.writes[t].target);
  }

  lemma FanWrites(s: State, cfg: BrokerConfig, t: nat, a: Alias, ok: bool, now: int)
    requires t in s.writes && s.writes[t].FanWrite? && a in s.writes[t].waiting && WritesAged(s)
    ensures var s' := FanDone(s, cfg, t, a, ok, now).0; s'.nextGen == s.nextGen && WritesAged(s')
  {
    hide MB.Enqueue, DropNotices, CloseRef;
    CloseRefFrame(s, s.writes[t].waiting[a]);
    ProgressIsAged(s.writes[t], a, ok, s.nextGen);
    FanWriteLeft(s, cfg, t, a, ok, now);
    hide FanDone, WriteAged;
  }

  lemma ProgressIsAged(w: Write, a: Alias, ok: bool, nextGen: nat)
    requires w.FanWrite? && a in w.waiting && WriteAged(w, nextGen)
    ensures WriteAged(Progress(w, a, ok), nextGen)
  {}

  lemma FanWriteLeft(s: State, cfg: BrokerConfig, t: nat, a: Alias, ok: bool, now: int)
    requires t in s.writes && s.writes[t].FanWrite? && a in s.writes[t].waiting
    ensures
      var s' := FanDone(s, cfg, t, a, ok, now).0;
      && s'.ctlWrites == s.ctlWrites && s'.mailWrites == s.mailWrites && s'.nextGen == s.nextGen
      && (s'.writes == s.writes - {t} || s'.writes == s.writes[t := Progress(s.writes[t], a, ok)])
  {
    hide MB.Enqueue, DropNotices, CloseRef;
    CloseRefFrame(s, s.writes[t].waiting[a]);
  }

  lemma CtlWrites(s: State, n: nat, ok: bool)
    requires n in s.ctlWrites && WritesAged(s)
    ensures var s' := CtlDone(s, n, ok).0; s'.nextGen == s.nextGen && WritesAged(s')
  {
    hide CloseRef, WriteAged;
    var w := s.ctlWrites[n];
    CloseRefFrame(s.(ctlWrites := s.ctlWrites - {n}, pendingCtl := s.pendingCtl - {w.ctl.id}), w.target);
  }

  lemma MailWrites(s: State, n: nat, ok: bool)
    requires n in s.mailWrites && WritesAged(s)
    ensures var s' := MailDone(s, n, ok); s'.nextGen == s.nextGen && WritesAged(s')
  {
    hide CloseRef, WriteAged;
    CloseRefFrame(s.(mailWrites := s.mailWrites - {n}), s.mailWrites[n].target);
  }

  lemma StepKeepsAged(s: State, cfg: BrokerConfig, step: Step)
    requires Agree(s.tables, cfg.maxRooms) && RecordsAged(s) && WritesAged(s)
    ensures var s' := Next(s, cfg, step).0; RecordsAged(s') && WritesAged(s')
  {
    if ReportsOutcome(step) {
      OutcomeKeepsAged(s, cfg, step);
    } else if step.Deliver? {
      DeliveryIsDispatch(s, cfg, step);
      hide Next, Agree, Dispatch, RecordsAged, WritesAged;
      FrameKeepsAged(s, cfg, step.sock, step.frame, step.now);
    } else {
      EventKeepsAged(s, cfg, step);
      hide Next, WritesAged;
      AgedAlike(s, Next(s, cfg, step).0);
    }
  }

  lemma EventKeepsAged(s: State, cfg: BrokerConfig, step: Step)
    requires !ReportsOutcome(step) && !step.Deliver? && RecordsAged(s)
    ensures
      var s' := Next(s, cfg, step).0;
      && RecordsAged(s') && s'.writes == s.writes && s'.ctlWrites == s.ctlWrites && s'.mailWrites == s.mailWrites
      && s'.nextGen == s.nextGen
  {
    hide CloseAll, SweepReservations, PruneKnown, Purge;
    if Enabled(s, step) {
      match step {
        case SocketClosed(sock, order) =>
          CloseAllFrame(s.(destroyed := s.destroyed + {sock}), order);
          CloseAllKeepsAged(s.(destroyed := s.destroyed + {sock}), order);
        case PurgeStep(order, now) => PurgeFrame(s, cfg, order, now);
        case SweepStep(now) => TidyKeepsAged(s, cfg, now);
        case PruneStep(now) => TidyKeepsAged(s, cfg, now);
        case _ =>
      }
    }
  }

  lemma TidyKeepsAged(s: State, cfg: BrokerConfig, now: int)
    requires RecordsAged(s)
    ensures
      var swept, pruned := SweepReservations(s, cfg, now), PruneKnown(s, now);
      && swept == s.(tables := swept.tables) && RecordsAged(swept)
      && pruned == s.(known := pruned.known) && RecordsAged(pruned)
  {
    hide Unexpired, StaysKnown;
  }

  lemma PurgeFrame(s: State, cfg: BrokerConfig, order: seq<Alias>, now: int)
    ensures Purge(s, cfg, order, now).0 == s.(box := Purge(s, cfg, order, now).0.box)
  {}

  lemma {:induction false} RunIsAged(cfg: BrokerConfig, steps: seq<Step>)
    ensures RecordsAged(Run(cfg, steps)) && WritesAged(Run(cfg, steps))
  {
    if steps != [] {
      hide Agree, Next, RecordsAged, WritesAged;
      RunIsAged(cfg, steps[..|steps| - 1]);
      RunAgrees(cfg, steps[..|steps| - 1]);
      StepKeepsAged(Run(cfg, steps[..|steps| - 1]), cfg, steps[|steps| - 1]);
    }
  }

  /** `r` is what an outstanding write is addressed to. */
  ghost predicate IsAddressed(s: State, r: Ref) {
    || (exists t :: t in s.writes && s.writes[t].DirectWrite? && s.writes[t].target == r)
    || (exists t, a ::
          t in s.writes && s.writes[t].FanWrite? && a in s.writes[t].waiting && s.writes[t].waiting[a] == r)
    || (exists n :: n in s.ctlWrites && s.ctlWrites[n].target == r)
    || (exists n :: n in s.mailWrites && s.mailWrites[n].target == r)
  }

  lemma AddressedIsAged(s: State, r: Ref)
    requires WritesAged(s) && IsAddressed(s, r)
    ensures r.gen < s.nextGen
  {
    assert forall t :: t in s.writes ==> WriteAged(s.writes[t], s.nextGen);
  }

  /**
   In every run: once an alias has said hello again, no write that was outstanding before, whatever
   becomes of it, can close its new record.
   */
  lemma NewRecordOutlivesOldWrites(cfg: BrokerConfig, steps: seq<Step>, sock: Sock, h: Hello, now: int, r: Ref)
    requires Acceptable(Run(cfg, steps), cfg, sock, h) && !Authed(Run(cfg, steps), sock, HelloFrame(h))
    requires IsAddressed(Run(cfg, steps), r) && r.alias == h.from.value
    ensures
      var s' := Run(cfg, steps + [Deliver(sock, HelloFrame(h), now)]);
      r.alias in s'.tables.peers && s'.tables.peers[r.alias].sock == sock && !StillThere(s', r)
  {
    var s := Run(cfg, steps);
    RunIsAged(cfg, steps);
    AddressedIsAged(s, r);
    RunSnoc(cfg, steps, Deliver(sock, HelloFrame(h), now));
    hide Run, Next, Acceptable, IsAddressed, WritesAged, AskedRoles;
    WelcomedRecord(s, cfg, sock, h, now);
  }

  // ---- what is remembered of an alias ----

  /** Pruning forgets exactly the aliases without a record, without mail and whose last hello is over a day old. */
  lemma PruneForgetsIff(s: State, cfg: BrokerConfig, now: int, a: Alias)
    requires a in s.known
    ensures
      var s' := Next(s, cfg, PruneStep(now)).0;
      && (a in s'.known <==> a in s.tables.peers || a in s.box.queues || now - s.known[a] <= 86400000)
      && (a in s'.known ==> s'.known[a] == s.known[a])
  {}

  lemma {:induction false} UnexpiredIff(rs: seq<Reservation>, ttlMs: int, now: int, r: Reservation)
    ensures r in Unexpired(rs, ttlMs, now) <==> r in rs && (r.since.Some? ==> now - r.since.value <= ttlMs)
  {
    if rs != [] {
      var front, last := rs[..|rs| - 1], rs[|rs| - 1];
      assert rs == front + [last];
      UnexpiredIff(front, ttlMs, now, r);
    }
  }

  /** A sweep takes from each record exactly the reservations older than the configured age, if one is configured. */
  lemma SweepTakesIff(s: State, cfg: BrokerConfig, now: int, a: Alias, r: Reservation)
    requires a in s.tables.peers
    ensures
      var t := Next(s, cfg, SweepStep(now)).0.tables;
      && a in t.peers && t.peers[a] == s.tables.peers[a].(reservations := t.peers[a].reservations)
      && (r in t.peers[a].reservations <==>
            && r in s.tables.peers[a].reservations
            && (cfg.reservationTtlMs > 0 && r.since.Some? ==> now - r.since.value <= cfg.reservationTtlMs))
  {
    UnexpiredIff(s.tables.peers[a].reservations, cfg.reservationTtlMs, now, r);
    SweepIs(s, cfg, now, a);
    hide Unexpired, SweepReservations;
  }

  lemma SweepIs(s: State, cfg: BrokerConfig, now: int, a: Alias)
    requires a in s.tables.peers
    ensures
      var t, p := SweepReservations(s, cfg, now).tables, s.tables.peers[a];
      a in t.peers && t.peers[a] == if cfg.reservationTtlMs <= 0 then p
        else p.(reservations := Unexpired(p.reservations, cfg.reservationTtlMs, now))
  {
    hide Unexpired;
  }
}
