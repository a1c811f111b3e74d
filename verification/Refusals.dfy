/**
 Why a message is refused: each error code under exactly its condition, on every route.
 */
module Refusals {
  import opened Common
  import opened StateTables
  import opened RateLimit
  import opened Policy
  import opened Rooms
  import opened CapRouting
  import opened Broker
  import opened Routing
  import opened Membership
  import opened Control
  import opened Governance
  import MB = Mailbox

  // ---- where a message is headed ----

  predicate IsDirect(m: Msg) { !m.broadcast && m.to.Some? && CapTarget(m.to.value).None? }

  predicate IsForCap(m: Msg) { !m.broadcast && m.to.Some? && CapTarget(m.to.value).Some? }

  predicate IsHeaded(m: Msg) { m.broadcast || m.to.Some? }

  /** The addressee is online but not in the room. */
  predicate Elsewhere(s: State, m: Msg)
    requires m.to.Some?
  {
    IsOnline(s, m.to.value) && MsgRoom(m) !in s.tables.peers[m.to.value].rooms
  }

  predicate Unheard(s: State, m: Msg)
    requires m.to.Some?
  {
    !IsOnline(s, m.to.value) && m.to.value !in s.known
  }

  /** `a` is an online member of the room, other than the sender. */
  predicate IsPresent(s: State, from: Peer, m: Msg, a: Alias) {
    a in Members(s.tables, MsgRoom(m)) && a != from.alias && IsOnline(s, a)
  }

  /** Somebody present is in the room as a member and advertises the capability. */
  ghost predicate SomeCapable(s: State, from: Peer, m: Msg)
    requires IsForCap(m)
  {
    var cap, room := CapTarget(m.to.value).value, MsgRoom(m);
    exists a :: IsPresent(s, from, m, a) && room in s.tables.peers[a].rooms && s.tables.peers[a].rooms[room] == Member
      && cap in s.tables.peers[a].caps
  }

  ghost predicate SomeAdvertises(s: State, from: Peer, m: Msg) {
    exists a :: IsPresent(s, from, m, a) && s.tables.peers[a].caps != []
  }

  ghost predicate SomeOnline(s: State, from: Peer, m: Msg) { exists a :: IsPresent(s, from, m, a) }

  // ---- the reasons ----

  /** The reason that applies, in the order in which the broker looks for one. */
  ghost predicate Applies(s: State, cfg: BrokerConfig, from: Peer, m: Msg, now: int, code: ErrorCode) {
    var room := MsgRoom(m);
    var granted := RateGranted(s, cfg, from, m, now);
    match code
    case InvalidFrame => !IsHeaded(m)
    case ObserverReadonly => IsHeaded(m) && room in from.rooms && from.rooms[room] == Observer
    case NotMember => IsHeaded(m) && (room !in from.rooms || (MayWrite(from, m) && IsDirect(m) && Elsewhere(s, m)))
    case PeerNotFound =>
      && MayWrite(from, m)
      && ((m.broadcast && |Members(s.tables, room)| <= 1) || (IsDirect(m) && Unheard(s, m)))
    case Limited => ReachesCheck(s, from, m) && !granted
    case Denied =>
      && ReachesCheck(s, from, m) && granted
      && if m.broadcast then DecisionFor(cfg, from.alias, m, "*") == Deny
         else if IsDirect(m) then DecisionFor(cfg, from.alias, m, m.to.value) == Deny
         else IsForCap(m) && SomeCapable(s, from, m) && !HasRecipient(s, cfg, from, m, now)
    case CapsMissing =>
      IsForCap(m) && MayWrite(from, m) && granted && SomeOnline(s, from, m) && !SomeAdvertises(s, from, m)
    case NoCapable =>
      && IsForCap(m) && MayWrite(from, m) && granted && !SomeCapable(s, from, m)
      && (!SomeOnline(s, from, m) || SomeAdvertises(s, from, m))
    case _ => false
  }

  lemma WhyBroadcast(s: State, cfg: BrokerConfig, from: Peer, token: nat, m: Msg, now: int, code: ErrorCode)
    requires m.broadcast && NoDup(Members(s.tables, MsgRoom(m)))
    ensures
      var outs := RouteBroadcast(s, cfg, from, token, m, now).1;
      IsRefusal(outs) ==> (outs[0].code == code <==> Applies(s, cfg, from, m, now, code))
  {
    hide Check, EvaluatePolicy, FanOut, Members, FanInv, FanBoxes, MsgRoom, HasRecipient;
    var s1 := Charge(s, cfg, from.alias, KindOf(MsgPriority(m)), now).0;
    var members := Members(s.tables, MsgRoom(m));
    FanOutSummary(s1, cfg, from.alias, m, members, now);
    FanFrame(s1, cfg, from.alias, m, members, now, FanOut(s1, cfg, from.alias, m, members, now));
  }

  lemma WhyDirect(s: State, cfg: BrokerConfig, from: Peer, token: nat, m: Msg, now: int, code: ErrorCode)
    requires IsDirect(m) && MayWrite(from, m)
    ensures
      var outs := RouteDirect(s, cfg, from, token, m, m.to.value, now).1;
      IsRefusal(outs) ==> (outs[0].code == code <==> Applies(s, cfg, from, m, now, code))
  {
    hide MB.Enqueue, Check, EvaluatePolicy, DropNotices, CapTarget, HasRecipient, Members;
  }

  lemma CapViews(s: State, cfg: BrokerConfig, from: Peer, m: Msg, now: int)
    requires IsForCap(m)
    ensures
      var q, n := CapRequest(cfg, from, m, CapTarget(m.to.value).value, now), NetOf(s);
      var members := Members(s.tables, MsgRoom(m));
      && (SomeCapable(s, from, m) <==> exists a :: a in members && Capable(n, q, a))
      && (SomeOnline(s, from, m) <==> exists a :: a in members && OnlineOther(n, q, a))
      && (SomeAdvertises(s, from, m) <==>
            exists a :: a in members && OnlineOther(n, q, a) && |n.tables.peers[a].caps| > 0)
      && (HasRecipient(s, cfg, from, m, now) <==> exists a :: a in members && Eligible(n, cfg.policy, q, a))
  {
    hide CapTarget, EvaluatePolicy, MsgRoom, Members;
    var q, n := CapRequest(cfg, from, m, CapTarget(m.to.value).value, now), NetOf(s);
    var members := Members(s.tables, MsgRoom(m));
    assert forall a :: IsPresent(s, from, m, a) <==> a in members && OnlineOther(n, q, a);
    hide IsPresent;
    if SomeCapable(s, from, m) {
      var a :| IsPresent(s, from, m, a) && Capable(n, q, a);
    }
  }

  lemma WhyCap(s: State, cfg: BrokerConfig, from: Peer, token: nat, m: Msg, now: int, code: ErrorCode)
    requires IsForCap(m) && MayWrite(from, m) && MsgRoom(m) in s.tables.rooms
    requires forall k :: k in s.tables.peers ==> s.tables.peers[k].alias == k
    ensures
      var outs := RouteCap(s, cfg, from, token, m, CapTarget(m.to.value).value, now).1;
      IsRefusal(outs) ==> (outs[0].code == code <==> Applies(s, cfg, from, m, now, code))
  {
    var cap := CapTarget(m.to.value).value;
    var q, members := CapRequest(cfg, from, m, cap, now), Members(s.tables, MsgRoom(m));
    hide RouteCap, RateGranted, Choose, SomeCapable, SomeOnline, SomeAdvertises, HasRecipient, Eligible, Capable,
        OnlineOther, Applies, Members, MayWrite, CapTarget, DecisionFor;
    CapViews(s, cfg, from, m, now);
    ChoiceIsEligible(NetOf(s), cfg.policy, q, members);
    CapOutcome(s, cfg, from, token, m, cap, now);
    CapReasons(s, cfg, from, m, now, code);
  }

  /** The reasons that can apply to a message for a capability. */
  lemma CapReasons(s: State, cfg: BrokerConfig, from: Peer, m: Msg, now: int, code: ErrorCode)
    requires IsForCap(m) && MayWrite(from, m)
    ensures
      var granted, capable := RateGranted(s, cfg, from, m, now), SomeCapable(s, from, m);
      Applies(s, cfg, from, m, now, code) <==>
        match code
        case Limited => !granted
        case Denied => granted && capable && !HasRecipient(s, cfg, from, m, now)
        case CapsMissing => granted && SomeOnline(s, from, m) && !SomeAdvertises(s, from, m)
        case NoCapable => granted && !capable && (!SomeOnline(s, from, m) || SomeAdvertises(s, from, m))
        case _ => false
  {
    hide RateGranted, SomeCapable, SomeOnline, SomeAdvertises, HasRecipient, CapTarget, DecisionFor, Members;
  }

  lemma CapOutcome(s: State, cfg: BrokerConfig, from: Peer, token: nat, m: Msg, cap: string, now: int)
    requires MsgRoom(m) in s.tables.rooms
    requires forall k :: k in s.tables.peers ==> s.tables.peers[k].alias == k
    ensures
      var outs := RouteCap(s, cfg, from, token, m, cap, now).1;
      var c := Choose(NetOf(s), cfg.policy, CapRequest(cfg, from, m, cap, now), Members(s.tables, MsgRoom(m)));
      if !RateGranted(s, cfg, from, m, now) then IsRefusal(outs) && outs[0].code == Limited
      else if c.Refused? then IsRefusal(outs) && outs[0].code == CapCode(c.code)
      else outs == []
  {
    hide Check, EvaluatePolicy, Choose;
    ChoiceIsEligible(NetOf(s), cfg.policy, CapRequest(cfg, from, m, cap, now), Members(s.tables, MsgRoom(m)));
  }

  /** Exactly why a message is refused: the code of the error is the one whose reason applies, and no other does. */
  lemma WhyRefused(s: State, cfg: BrokerConfig, from: Peer, m: Msg, now: int, code: ErrorCode)
    requires Agree(s.tables, cfg.maxRooms) && from.alias in s.tables.peers && s.tables.peers[from.alias] == from
    ensures
      var outs := RouteMsg(s, cfg, from, m, now).1;
      IsRefusal(outs) ==> (outs[0].code == code <==> Applies(s, cfg, from, m, now, code))
  {
    var token, s0 := s.nextToken, s.(nextToken := s.nextToken + 1);
    TablesAreSound(s, cfg, from, m);
    SameReasons(s, cfg, from, m, now, code);
    RouteIs(s, cfg, from, m, now);
    if !(m.broadcast || (m.to.Some? && MayWrite(from, m))) { WhyAtTheGate(s, cfg, from, m, now, code); }
    hide Agree, RouteMsg, RouteBroadcast, RouteDirect, RouteCap, CapTarget, MsgRoom, Applies, Members, MayWrite;
    if m.broadcast {
      WhyBroadcast(s0, cfg, from, token, m, now, code);
    } else if m.to.Some? && MayWrite(from, m) {
      if CapTarget(m.to.value).Some? {
        WhyCap(s0, cfg, from, token, m, now, code);
      } else {
        WhyDirect(s0, cfg, from, token, m, now, code);
      }
    }
  }

  lemma TablesAreSound(s: State, cfg: BrokerConfig, from: Peer, m: Msg)
    requires Agree(s.tables, cfg.maxRooms) && from.alias in s.tables.peers && s.tables.peers[from.alias] == from
    ensures forall k :: k in s.tables.peers ==> s.tables.peers[k].alias == k
    ensures NoDup(Members(s.tables, MsgRoom(m))) && (MayWrite(from, m) ==> MsgRoom(m) in s.tables.rooms)
  {
    forall k | k in s.tables.peers ensures s.tables.peers[k].alias == k { assert PeerOk(s.tables, cfg.maxRooms, k); }
    if MsgRoom(m) in s.tables.rooms { assert RoomOk(s.tables, MsgRoom(m)); }
    if MsgRoom(m) in from.rooms {
      assert PeerOk(s.tables, cfg.maxRooms, from.alias);
      assert from.alias in Members(s.tables, MsgRoom(m));
    }
  }

  /** The three routes. */
  lemma RouteIs(s: State, cfg: BrokerConfig, from: Peer, m: Msg, now: int)
    ensures
      var routed, token, s0 := RouteMsg(s, cfg, from, m, now), s.nextToken, s.(nextToken := s.nextToken + 1);
      && (m.broadcast ==> routed == RouteBroadcast(s0, cfg, from, token, m, now))
      && (MayWrite(from, m) && IsForCap(m) ==>
            routed == RouteCap(s0, cfg, from, token, m, CapTarget(m.to.value).value, now))
      && (MayWrite(from, m) && IsDirect(m) ==> routed == RouteDirect(s0, cfg, from, token, m, m.to.value, now))
  {
    hide RouteBroadcast, RouteDirect, RouteCap, CapTarget;
  }

  lemma WhyAtTheGate(s: State, cfg: BrokerConfig, from: Peer, m: Msg, now: int, code: ErrorCode)
    requires !m.broadcast && !(m.to.Some? && MayWrite(from, m))
    ensures
      var outs := RouteMsg(s, cfg, from, m, now).1;
      IsRefusal(outs) ==> (outs[0].code == code <==> Applies(s, cfg, from, m, now, code))
  {
    hide RouteDirect, RouteCap, Check, CapTarget, HasRecipient, DecisionFor;
  }

  lemma SameReasons(s: State, cfg: BrokerConfig, from: Peer, m: Msg, now: int, code: ErrorCode)
    ensures Applies(s.(nextToken := s.nextToken + 1), cfg, from, m, now, code) == Applies(s, cfg, from, m, now, code)
  {
    hide Check, EvaluatePolicy, CapTarget, Members;
    var s0 := s.(nextToken := s.nextToken + 1);
    assert ReachesCheck(s0, from, m) == ReachesCheck(s, from, m);
    assert HasRecipient(s0, cfg, from, m, now) == HasRecipient(s, cfg, from, m, now);
    hide ReachesCheck, HasRecipient;
    assert forall a :: IsPresent(s0, from, m, a) == IsPresent(s, from, m, a);
    hide IsPresent;
  }

  // ---- control frames and hellos ----

  /** The reason for which a control frame is refused. */
  ghost predicate ControlReason(s: State, cfg: BrokerConfig, from: Peer, c: Ctl, now: int, code: ErrorCode) {
    var room := CtlRoom(c);
    var forceful := c.action == Some("abort") || c.action == Some("redirect");
    var writes := c.to.Some? && room in from.rooms && from.rooms[room] == Member;
    match code
    case InvalidFrame => c.to.None?
    case ObserverReadonly => c.to.Some? && room in from.rooms && from.rooms[room] == Observer
    case Unreachable => writes && !IsOnline(s, c.to.value)
    case NotMember =>
      c.to.Some? && (room !in from.rooms
        || (writes && IsOnline(s, c.to.value) && room !in s.tables.peers[c.to.value].rooms))
    case Denied => ControlReaches(s, c) && !(RulesAdmit(cfg.policy, c.from, c.to.value, room)
        && (forceful ==> c.from in cfg.policy.forceAllowedFrom))
    case Limited => ControlReaches(s, c) && RulesAdmit(cfg.policy, c.from, c.to.value, room)
        && (forceful ==> c.from in cfg.policy.forceAllowedFrom)
    case _ => false
  }

  /** Exactly why a control frame is refused. */
  lemma WhyControlRefused(s: State, cfg: BrokerConfig, c: Ctl, now: int, code: ErrorCode)
    requires c.from in s.tables.peers && s.tables.peers[c.from].alias == c.from
    ensures
      var outs := HandleCtl(s, cfg, s.tables.peers[c.from], c, now).1;
      && (outs != [] ==> |outs| == 1 && outs[0].Error?)
      && (outs != [] ==> (outs[0].code == code <==> ControlReason(s, cfg, s.tables.peers[c.from], c, now, code)))
  {
    hide EvaluatePolicy, LivePending, Check, CtlPriority, SomeConcerns;
    if c.to.Some? { ControlAllowedIff(cfg, c); }
    hide RulesAdmit;
  }

  /** The reason for which a hello is refused. */
  predicate HelloReason(s: State, cfg: BrokerConfig, sock: Sock, h: Hello, code: ErrorCode) {
    var trusted := sock in s.tokenSocks ==> h.token.Some? && h.token == cfg.brokerToken;
    match code
    case InvalidAlias => h.from.None?
    case InvalidToken => h.from.Some? && !trusted
    case AliasTaken => h.from.Some? && trusted && !AliasFree(s, sock, h.from.value)
    case BadRoom =>
      h.from.Some? && trusted && AliasFree(s, sock, h.from.value)
      && !AllJoinable(s.tables, h.from.value, cfg.maxRooms, WantedRooms(h))
    case _ => false
  }

  /** Exactly why a hello is refused. */
  lemma WhyHelloRefused(s: State, cfg: BrokerConfig, sock: Sock, h: Hello, now: int, code: ErrorCode)
    requires !Acceptable(s, cfg, sock, h)
    ensures
      var outs := HandleHello(s, cfg, sock, h, now).1;
      |outs| == 1 && outs[0].Error? && outs[0].sock == sock && outs[0].id == h.id
      && (outs[0].code == code <==> HelloReason(s, cfg, sock, h, code))
  {
    hide Enroll, AllJoinable, Greet;
    if h.from.Some? { EnrollSucceedsIff(s, cfg, sock, h); }
  }
}
