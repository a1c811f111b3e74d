/**
 What happens to one message when it reaches the broker: it is refused, put into
 an offline mailbox, or written to its recipients, and nothing else changes.
 */
module Routing {
  import opened Common
  import opened StateTables
  import opened RateLimit
  import opened Policy
  import opened Rooms
  import opened CapRouting
  import opened Broker
  import MB = Mailbox

  // ---- the frame that travels ----

  function DecisionFor(cfg: BrokerConfig, from: Alias, m: Msg, to: Alias): Decision {
    EvaluatePolicy(cfg.policy, Context(from, to, MsgRoom(m), MsgPriority(m)))
  }

  function Addressed(m: Msg, to: Alias, cap: Option<string>): Msg {
    if cap.None? then m else m.(to := Some(to), routedCap := cap, routedTo := Some(to))
  }

  /** The frame the recipient gets on the directed and the capability route. */
  function Forwarded(cfg: BrokerConfig, from: Alias, m: Msg, to: Alias, cap: Option<string>): Msg {
    RoutedFrame(Addressed(m, to, cap), DecisionFor(cfg, from, m, to))
  }

  /**
   On the directed and capability routes force reaches the recipient only from
   an authorized sender; otherwise it arrives as urgent without the interrupt
   flag, and the receipt says which of the two happened. Identity and content
   of the message are untouched.
   */
  lemma ForceIsAuthorized(cfg: BrokerConfig, from: Alias, m: Msg, to: Alias, cap: Option<string>)
    requires DecisionFor(cfg, from, m, to) != Deny && (cap.None? ==> m.to == Some(to))
    ensures
      var f, status := Forwarded(cfg, from, m, to, cap), InterruptOf(DecisionFor(cfg, from, m, to), MsgPriority(m));
      && f.id == m.id && f.from == m.from && f.body == m.body && f.room == m.room && f.to == Some(to)
      && (MsgPriority(f) == Force <==> MsgPriority(m) == Force && from in cfg.policy.forceAllowedFrom)
      && (status == Some(ForceAccepted) <==> MsgPriority(f) == Force)
      && (status == Some(ForceDowngraded) <==> MsgPriority(m) == Force && from !in cfg.policy.forceAllowedFrom)
      && (status == Some(ForceDowngraded) ==> f.priority == Some(Urgent) && !f.interrupt)
      && (status != Some(ForceDowngraded) ==> f.priority == m.priority && f.interrupt == m.interrupt)
  {
    hide AnyMatches;
  }

  // ---- answers ----

  /** `o` answers the message with number `token`. */
  predicate Answers(o: Out, token: nat) { (o.MsgError? || o.MsgAck?) && o.token == token }

  predicate NoAnswers(outs: seq<Out>) { forall i :: 0 <= i < |outs| ==> !outs[i].MsgError? && !outs[i].MsgAck? }

  /** `outs` ends with `o`; what precedes it is drop notices, not answers. */
  predicate EndsWith(outs: seq<Out>, o: Out) { outs != [] && outs[|outs| - 1] == o && NoAnswers(outs[..|outs| - 1]) }

  lemma {:induction false} NoticesAreNoAnswers(s: State, dropped: seq<Stored>)
    ensures NoAnswers(DropNotices(s, dropped))
  {
    if dropped != [] { NoticesAreNoAnswers(s, dropped[..|dropped| - 1]); }
  }

  lemma EndsWithIntro(notices: seq<Out>, o: Out)
    requires NoAnswers(notices)
    ensures EndsWith(notices + [o], o)
  {
    assert (notices + [o])[..|notices + [o]| - 1] == notices;
  }

  // ---- the fates of a message ----

  /** Only the rate table may have changed; the sender gets one error. */
  ghost predicate Refusal(s: State, s': State, outs: seq<Out>, from: Peer, token: nat, m: Msg) {
    s' == s.(rates := s'.rates) && |outs| == 1 && outs[0].MsgError?
    && outs == [MsgError(token, from.sock, m.id, outs[0].code)]
  }

  /** The sender is in the room of the message, and not as an observer. */
  predicate MayWrite(from: Peer, m: Msg) { MsgRoom(m) in from.rooms && from.rooms[MsgRoom(m)] == Member }

  /** The message went into the mailbox of its addressee. */
  ghost predicate Mailed(s: State, cfg: BrokerConfig, s': State, outs: seq<Out>, from: Peer, token: nat, m: Msg,
      now: int) {
    && MayWrite(from, m) && !m.broadcast && m.to.Some? && CapTarget(m.to.value).None?
    && DecisionFor(cfg, from.alias, m, m.to.value) != Deny
    && s' == s.(rates := s'.rates, box := MB.Enqueue(s.box, cfg.mailbox, m.to.value,
        Forwarded(cfg, from.alias, m, m.to.value, None), now).0)
    && EndsWith(outs, MsgAck(token, from.sock, m.id, QueuedOffline,
        InterruptOf(DecisionFor(cfg, from.alias, m, m.to.value), MsgPriority(m)), None, None))
  }

  /** An outstanding directed write: from whom, to whom, and what. */
  ghost predicate DirectOk(cfg: BrokerConfig, w: Write) {
    && w.DirectWrite? && !w.original.broadcast && w.original.to.Some?
    && var cap, to := CapTarget(w.original.to.value), w.target.alias;
    && (cap.None? ==> w.original.to == Some(to))
    && DecisionFor(cfg, w.from.alias, w.original, to) != Deny
    && w.routed == Forwarded(cfg, w.from.alias, w.original, to, cap)
    && w.interrupt == InterruptOf(DecisionFor(cfg, w.from.alias, w.original, to), MsgPriority(w.original))
    && w.routedTo == if cap.Some? then Some(to) else None
  }

  /** `target` is the record of an online peer that shares the room of the message. */
  predicate TargetOk(s: State, m: Msg, target: Ref) {
    IsOnline(s, target.alias) && target == RefOf(s.tables.peers[target.alias])
    && MsgRoom(m) in s.tables.peers[target.alias].rooms
  }

  /** The message is being written to one online peer, which is in its room. */
  ghost predicate Sent(s: State, cfg: BrokerConfig, s': State, outs: seq<Out>, from: Peer, token: nat, m: Msg) {
    && MayWrite(from, m) && outs == [] && token in s'.writes
    && s' == s.(rates := s'.rates, writes := s.writes[token := s'.writes[token]])
    && var w := s'.writes[token];
    && DirectOk(cfg, w) && w.from == RefOf(from) && w.original == m && TargetOk(s, m, w.target)
  }

  // ---- broadcasts ----

  function Others(members: seq<Alias>, from: Alias): set<Alias> { set a | a in members && a != from }

  /** The addressees of a broadcast: those online, those offline but known, and those nobody can reach. */
  function Reached(s: State, members: seq<Alias>, from: Alias): set<Alias> {
    set a | a in members && a != from && IsOnline(s, a)
  }

  function Boxed(s: State, members: seq<Alias>, from: Alias): set<Alias> {
    set a | a in members && a != from && !IsOnline(s, a) && a in s.known
  }

  function Lost(s: State, members: seq<Alias>, from: Alias): set<Alias> {
    set a | a in members && a != from && !IsOnline(s, a) && a !in s.known
  }

  ghost predicate InBox(b: MB.Box, cfg: BrokerConfig, a: Alias, m: Msg, now: int) {
    var q := MB.Queue(b, a);
    if cfg.mailbox.mailboxCap >= 1 then q != [] && q[|q| - 1] == Stored(m, now) else q == []
  }

  ghost predicate RefsCurrent(s: State, waiting: map<Alias, Ref>) {
    forall a :: a in waiting ==> a in s.tables.peers && waiting[a] == RefOf(s.tables.peers[a])
  }

  /** What the fan-out over `members` has done so far. */
  ghost predicate FanInv(s: State, cfg: BrokerConfig, from: Alias, m: Msg, members: seq<Alias>, now: int, f: Fan) {
    && f.state == s.(box := f.state.box)
    && f.waiting.Keys == Reached(s, members, from)
    && RefsCurrent(s, f.waiting)
    && f.queued == |Boxed(s, members, from)|
    && f.total == |Others(members, from)|
    && NoAnswers(f.outs)
  }

  ghost predicate FanBoxes(s: State, cfg: BrokerConfig, from: Alias, m: Msg, members: seq<Alias>, now: int, b: MB.Box) {
    forall a :: if a in Boxed(s, members, from) then InBox(b, cfg, a, m, now) else MB.Queue(b, a) == MB.Queue(s.box, a)
  }

  lemma SetsGrow(s: State, members: seq<Alias>, a: Alias, from: Alias)
    requires a !in members
    ensures a !in Others(members, from) && a !in Reached(s, members, from) && a !in Boxed(s, members, from)
      && a !in Lost(s, members, from)
    ensures
      var more := members + [a];
      if a == from then
        && Others(more, from) == Others(members, from) && Reached(s, more, from) == Reached(s, members, from)
        && Boxed(s, more, from) == Boxed(s, members, from) && Lost(s, more, from) == Lost(s, members, from)
      else
        && Others(more, from) == Others(members, from) + {a}
        && Reached(s, more, from) == Reached(s, members, from) + (if IsOnline(s, a) then {a} else {})
        && Boxed(s, more, from) == Boxed(s, members, from) + (if !IsOnline(s, a) && a in s.known then {a} else {})
        && Lost(s, more, from) == Lost(s, members, from) + (if !IsOnline(s, a) && a !in s.known then {a} else {})
  {
    hide Online;
  }

  lemma FanReaches(s: State, cfg: BrokerConfig, from: Alias, m: Msg, members: seq<Alias>, a: Alias, now: int, f: Fan,
      f': Fan)
    requires FanInv(s, cfg, from, m, members, now, f) && a !in members && a != from && IsOnline(s, a)
    requires f'.waiting.Keys == f.waiting.Keys + {a} && RefsCurrent(s, f'.waiting)
    requires f' == f.(waiting := f'.waiting, total := f.total + 1)
    ensures FanInv(s, cfg, from, m, members + [a], now, f')
  {
    hide Reached, Boxed, Lost, Others, RefsCurrent, IsOnline;
    SetsGrow(s, members, a, from);
  }

  lemma FanBoxesOne(s: State, cfg: BrokerConfig, from: Alias, m: Msg, members: seq<Alias>, a: Alias, now: int, f: Fan,
      f': Fan)
    requires FanInv(s, cfg, from, m, members, now, f) && a !in members && a != from && !IsOnline(s, a) && a in s.known
    requires f'.state == f.state.(box := f'.state.box) && f'.waiting == f.waiting && NoAnswers(f'.outs)
    requires f'.queued == f.queued + 1 && f'.total == f.total + 1
    ensures FanInv(s, cfg, from, m, members + [a], now, f')
  {
    hide Others, Reached, Boxed, Lost, IsOnline, RefsCurrent, NoAnswers;
    SetsGrow(s, members, a, from);
  }

  lemma FanSkips(s: State, cfg: BrokerConfig, from: Alias, m: Msg, members: seq<Alias>, a: Alias, now: int, f: Fan)
    requires FanInv(s, cfg, from, m, members, now, f) && a !in members
    requires a == from || (!IsOnline(s, a) && a !in s.known)
    ensures FanInv(s, cfg, from, m, members + [a], now, if a == from then f else f.(total := f.total + 1))
  {
    hide Others, Reached, Boxed, Lost, IsOnline, RefsCurrent, NoAnswers;
    SetsGrow(s, members, a, from);
  }

  lemma FanFrame(s: State, cfg: BrokerConfig, from: Alias, m: Msg, members: seq<Alias>, now: int, f: Fan)
    requires FanInv(s, cfg, from, m, members, now, f)
    ensures f.state == s.(box := f.state.box) && NoAnswers(f.outs) && RefsCurrent(s, f.waiting)
  {
    hide Others, Reached, Boxed, Lost;
  }

  lemma OneMoreRef(s: State, waiting: map<Alias, Ref>, a: Alias)
    requires RefsCurrent(s, waiting) && IsOnline(s, a)
    ensures
      var more := waiting[a := RefOf(s.tables.peers[a])];
      RefsCurrent(s, more) && more.Keys == waiting.Keys + {a}
  {}

  lemma FanOneInv(s: State, cfg: BrokerConfig, from: Alias, m: Msg, members: seq<Alias>, a: Alias, now: int, f: Fan)
    requires FanInv(s, cfg, from, m, members, now, f) && a !in members
    ensures FanInv(s, cfg, from, m, members + [a], now, FanOne(f, cfg, from, m, a, now))
  {
    hide FanInv, MB.Enqueue, DropNotices, RefsCurrent;
    FanFrame(s, cfg, from, m, members, now, f);
    if a == from || (!IsOnline(s, a) && a !in s.known) {
      FanSkips(s, cfg, from, m, members, a, now, f);
    } else if IsOnline(s, a) {
      OneMoreRef(s, f.waiting, a);
      FanReaches(s, cfg, from, m, members, a, now, f, FanOne(f, cfg, from, m, a, now));
    } else {
      NoticesAreNoAnswers(f.state, MB.Enqueue(f.state.box, cfg.mailbox, a, m, now).1);
      FanBoxesOne(s, cfg, from, m, members, a, now, f, FanOne(f, cfg, from, m, a, now));
    }
  }

  lemma FanOneBoxes(s: State, cfg: BrokerConfig, from: Alias, m: Msg, members: seq<Alias>, a: Alias, now: int, f: Fan)
    requires f.state == s.(box := f.state.box) && a !in members
    requires FanBoxes(s, cfg, from, m, members, now, f.state.box)
    ensures FanBoxes(s, cfg, from, m, members + [a], now, FanOne(f, cfg, from, m, a, now).state.box)
  {
    hide MB.Enqueue, DropNotices;
    SetsGrow(s, members, a, from);
    hide Others, Reached, Boxed, Lost;
    var b := FanOne(f, cfg, from, m, a, now).state.box;
    MB.NewestSurvives(f.state.box, cfg.mailbox, a, m, now);
    if a != from && !IsOnline(s, a) && a in s.known {
      assert b == MB.Enqueue(f.state.box, cfg.mailbox, a, m, now).0;
    } else {
      assert b == f.state.box;
    }
  }

  /** Every member but the sender is counted once, and is either written to, or
      offline with the broadcast last in its mailbox, or beyond reach. */
  lemma {:induction false} FanOutSummary(s: State, cfg: BrokerConfig, from: Alias, m: Msg, members: seq<Alias>,
      now: int)
    requires NoDup(members)
    ensures
      var f := FanOut(s, cfg, from, m, members, now);
      FanInv(s, cfg, from, m, members, now, f) && FanBoxes(s, cfg, from, m, members, now, f.state.box)
  {
    hide FanOne, FanBoxes;
    if members != [] {
      hide FanInv;
      var front, a := members[..|members| - 1], members[|members| - 1];
      assert members == front + [a] && a !in front;
      FanOutSummary(s, cfg, from, m, front, now);
      var f := FanOut(s, cfg, from, m, front, now);
      FanFrame(s, cfg, from, m, front, now, f);
      FanOneInv(s, cfg, from, m, front, a, now, f);
      FanOneBoxes(s, cfg, from, m, front, a, now, f);
    } else {
      FanOutNobody(s, cfg, from, m, now);
    }
  }

  lemma FanOutNobody(s: State, cfg: BrokerConfig, from: Alias, m: Msg, now: int)
    ensures FanInv(s, cfg, from, m, [], now, Fan(s, map[], 0, 0, [])) && FanBoxes(s, cfg, from, m, [], now, s.box)
  {
    assert Reached(s, [], from) == {} && Boxed(s, [], from) == {} && Lost(s, [], from) == {} && Others([], from) == {};
  }

  /** A broadcast: mailboxes are filled at once, writes to the online members are
      outstanding; without any, the receipt goes out immediately. */
  ghost predicate Fanned(s: State, cfg: BrokerConfig, s': State, outs: seq<Out>, from: Peer, token: nat, m: Msg,
      now: int) {
    var members := Members(s.tables, MsgRoom(m));
    && m.broadcast && MayWrite(from, m) && DecisionFor(cfg, from.alias, m, "*") != Deny
    && FanBoxes(s, cfg, from.alias, m, members, now, s'.box)
    && if Reached(s, members, from.alias) == {} then
         && s' == s.(rates := s'.rates, box := s'.box)
         && EndsWith(outs, FanAck(token, RefOf(from), m, 0, |Others(members, from.alias)|))
       else
         && NoAnswers(outs) && token in s'.writes && s' == s.(rates := s'.rates, box := s'.box,
             writes := s.writes[token := s'.writes[token]])
         && var w := s'.writes[token];
         && w.FanWrite? && w.from == RefOf(from) && w.original == m && w.delivered == 0
         && w.waiting.Keys == Reached(s, members, from.alias) && RefsCurrent(s, w.waiting)
         && w.queued == |Boxed(s, members, from.alias)| && w.total == |Others(members, from.alias)|
  }

  /** The fates of a message that an authenticated peer submits. */
  ghost predicate Routed(s: State, cfg: BrokerConfig, s': State, outs: seq<Out>, from: Peer, token: nat, m: Msg,
      now: int) {
    || Refusal(s, s', outs, from, token, m)
    || Mailed(s, cfg, s', outs, from, token, m, now)
    || Sent(s, cfg, s', outs, from, token, m)
    || Fanned(s, cfg, s', outs, from, token, m, now)
  }

  lemma RouteDirectRouted(s: State, cfg: BrokerConfig, from: Peer, token: nat, m: Msg, now: int)
    requires MayWrite(from, m) && !m.broadcast && m.to.Some? && CapTarget(m.to.value).None?
    requires m.to.value in s.tables.peers ==> s.tables.peers[m.to.value].alias == m.to.value
    ensures
      var (s', outs) := RouteDirect(s, cfg, from, token, m, m.to.value, now);
      Refusal(s, s', outs, from, token, m) || Mailed(s, cfg, s', outs, from, token, m, now)
      || Sent(s, cfg, s', outs, from, token, m)
  {
    hide MB.Enqueue, Check, EvaluatePolicy, DropNotices, CapTarget, NoAnswers;
    var to := m.to.value;
    var s1 := Charge(s, cfg, from.alias, KindOf(MsgPriority(m)), now).0;
    var d := DecisionFor(cfg, from.alias, m, to);
    var (s', outs) := RouteDirect(s, cfg, from, token, m, to, now);
    if outs != [] && outs[0].MsgError? && |outs| == 1 {
    } else if IsOnline(s, to) {
      assert Sent(s, cfg, s', outs, from, token, m);
    } else {
      var routed := RoutedFrame(m, d);
      var dropped := MB.Enqueue(s1.box, cfg.mailbox, to, routed, now).1;
      NoticesAreNoAnswers(s1, dropped);
      EndsWithIntro(DropNotices(s1, dropped), MsgAck(token, from.sock, m.id, QueuedOffline,
          InterruptOf(d, MsgPriority(m)), None, None));
    }
  }

  /** The peer a capability message is sent to is an online member of its room. */
  lemma ChosenIsOnlineMember(n: Net, policy: MeshPolicy, q: Request, members: seq<Alias>)
    requires forall k :: k in n.tables.peers ==> n.tables.peers[k].alias == k
    ensures
      var c := Choose(n, policy, q, members);
      c.Chosen? ==> var a := c.peer.alias; Online(n, a) && n.tables.peers[a] == c.peer && q.room in c.peer.rooms
  {
    hide Choose;
    ChoiceIsEligible(n, policy, q, members);
  }

  lemma RouteCapRouted(s: State, cfg: BrokerConfig, from: Peer, token: nat, m: Msg, now: int)
    requires MayWrite(from, m) && !m.broadcast && m.to.Some? && CapTarget(m.to.value).Some?
    requires forall k :: k in s.tables.peers ==> s.tables.peers[k].alias == k
    ensures
      var (s', outs) := RouteCap(s, cfg, from, token, m, CapTarget(m.to.value).value, now);
      Refusal(s, s', outs, from, token, m) || Sent(s, cfg, s', outs, from, token, m)
  {
    hide Check, EvaluatePolicy, Choose, CapTarget;
    var q := CapRequest(cfg, from, m, CapTarget(m.to.value).value, now);
    if MsgRoom(m) in s.tables.rooms {
      ChosenIsOnlineMember(NetOf(s), cfg.policy, q, s.tables.rooms[MsgRoom(m)]);
    }
  }

  /** Who is reached depends on the tables, the live connections and the known aliases only. */
  lemma SameAudience(s: State, s1: State, members: seq<Alias>, from: Alias)
    requires s1.tables == s.tables && s1.destroyed == s.destroyed && s1.known == s.known
    ensures Reached(s1, members, from) == Reached(s, members, from)
      && Boxed(s1, members, from) == Boxed(s, members, from)
    ensures Lost(s1, members, from) == Lost(s, members, from)
  {
    assert forall a :: IsOnline(s1, a) == IsOnline(s, a);
  }

  /** The addressees fall into the three groups. */
  lemma AudienceSplits(s: State, members: seq<Alias>, from: Alias)
    ensures |Others(members, from)|
         == |Reached(s, members, from)| + |Boxed(s, members, from)| + |Lost(s, members, from)|
  {
    var reached, boxed, lost := Reached(s, members, from), Boxed(s, members, from), Lost(s, members, from);
    assert Others(members, from) == reached + boxed + lost;
    assert reached !! boxed && (reached + boxed) !! lost;
  }

  lemma {:induction false} OthersCount(members: seq<Alias>, from: Alias)
    requires NoDup(members)
    ensures |Others(members, from)| == |members| - if from in members then 1 else 0
  {
    if members != [] {
      var front, a := members[..|members| - 1], members[|members| - 1];
      assert members == front + [a] && a !in front;
      OthersCount(front, from);
      assert Others(members, from) == Others(front, from) + if a == from then {} else {a};
    } else {
      assert Others(members, from) == {};
    }
  }

  lemma FanRouted(s: State, cfg: BrokerConfig, s1: State, from: Peer, token: nat, m: Msg, now: int, f: Fan)
    requires s1 == s.(rates := s1.rates) && m.broadcast && MayWrite(from, m)
      && DecisionFor(cfg, from.alias, m, "*") != Deny
    requires FanInv(s1, cfg, from.alias, m, Members(s.tables, MsgRoom(m)), now, f)
    requires FanBoxes(s1, cfg, from.alias, m, Members(s.tables, MsgRoom(m)), now, f.state.box)
    ensures
      if f.waiting == map[] then Fanned(s, cfg, f.state, f.outs + [FanAck(token, RefOf(from), m, 0, f.total)], from,
          token, m, now)
      else Fanned(s, cfg, f.state.(writes := f.state.writes[token := FanWrite(RefOf(from), m, f.waiting, 0, f.queued,
          f.total)]), f.outs, from, token, m, now)
  {
    hide Others, Reached, Boxed, Lost, InBox;
    var members := Members(s.tables, MsgRoom(m));
    SameAudience(s, s1, members, from.alias);
    assert FanBoxes(s, cfg, from.alias, m, members, now, f.state.box);
    hide FanBoxes, Members;
    EndsWithIntro(f.outs, FanAck(token, RefOf(from), m, 0, f.total));
    assert f.waiting.Keys == {} <==> f.waiting == map[];
  }

  lemma RouteBroadcastRouted(s: State, cfg: BrokerConfig, from: Peer, token: nat, m: Msg, now: int)
    requires m.broadcast && NoDup(Members(s.tables, MsgRoom(m)))
    ensures
      var (s', outs) := RouteBroadcast(s, cfg, from, token, m, now);
      Refusal(s, s', outs, from, token, m) || Fanned(s, cfg, s', outs, from, token, m, now)
  {
    hide Check, EvaluatePolicy, FanOut, Fanned, FanInv, FanBoxes, Members, MsgRoom;
    var s1 := Charge(s, cfg, from.alias, KindOf(MsgPriority(m)), now).0;
    if MayWrite(from, m) && DecisionFor(cfg, from.alias, m, "*") != Deny {
      var members := Members(s.tables, MsgRoom(m));
      FanOutSummary(s1, cfg, from.alias, m, members, now);
      FanRouted(s, cfg, s1, from, token, m, now, FanOut(s1, cfg, from.alias, m, members, now));
    }
  }

  /** A submitted message meets exactly one of its fates, and nothing else changes. */
  lemma RouteMsgRouted(s: State, cfg: BrokerConfig, from: Peer, m: Msg, now: int)
    requires Agree(s.tables, cfg.maxRooms)
    ensures
      var (s', outs) := RouteMsg(s, cfg, from, m, now);
      Routed(s.(nextToken := s.nextToken + 1), cfg, s', outs, from, s.nextToken, m, now)
  {
    hide RouteBroadcast, RouteDirect, RouteCap, Mailed, Sent, Fanned;
    var token := s.nextToken;
    var s0 := s.(nextToken := token + 1);
    forall k | k in s.tables.peers ensures s.tables.peers[k].alias == k { assert PeerOk(s.tables, cfg.maxRooms, k); }
    if MsgRoom(m) in s.tables.rooms { assert RoomOk(s.tables, MsgRoom(m)); }
    if m.broadcast {
      RouteBroadcastRouted(s0, cfg, from, token, m, now);
    } else if m.to.Some? && MayWrite(from, m) {
      if CapTarget(m.to.value).Some? {
        RouteCapRouted(s0, cfg, from, token, m, now);
      } else {
        RouteDirectRouted(s0, cfg, from, token, m, now);
      }
    }
  }

  lemma RoutedFrameRule(s: State, cfg: BrokerConfig, s': State, outs: seq<Out>, from: Peer, token: nat, m: Msg,
      now: int)
    requires Routed(s, cfg, s', outs, from, token, m, now)
    ensures s' == s.(rates := s'.rates, box := s'.box, writes := s'.writes)
  {
    hide Mailed, Sent, Fanned;
    if Mailed(s, cfg, s', outs, from, token, m, now) {
      MailedFrame(s, cfg, s', outs, from, token, m, now);
    } else if Sent(s, cfg, s', outs, from, token, m) {
      SentFrame(s, cfg, s', outs, from, token, m);
    } else if Fanned(s, cfg, s', outs, from, token, m, now) {
      FannedFrame(s, cfg, s', outs, from, token, m, now);
    }
  }

  lemma MailedFrame(s: State, cfg: BrokerConfig, s': State, outs: seq<Out>, from: Peer, token: nat, m: Msg, now: int)
    requires Mailed(s, cfg, s', outs, from, token, m, now)
    ensures s' == s.(rates := s'.rates, box := s'.box)
  {
    hide EndsWith, MB.Enqueue, DecisionFor, Forwarded, CapTarget, MayWrite;
  }

  lemma SentFrame(s: State, cfg: BrokerConfig, s': State, outs: seq<Out>, from: Peer, token: nat, m: Msg)
    requires Sent(s, cfg, s', outs, from, token, m)
    ensures s' == s.(rates := s'.rates, writes := s'.writes)
  {
    hide DirectOk, TargetOk, MayWrite;
  }

  lemma FannedFrame(s: State, cfg: BrokerConfig, s': State, outs: seq<Out>, from: Peer, token: nat, m: Msg, now: int)
    requires Fanned(s, cfg, s', outs, from, token, m, now)
    ensures s' == s.(rates := s'.rates, box := s'.box, writes := s'.writes)
  {
    hide EndsWith, FanBoxes, Reached, Boxed, Others, DecisionFor, NoAnswers, RefsCurrent, Members, MayWrite;
  }

  /** What a message can change: rates, mailboxes, outstanding writes and the message counter. */
  lemma MsgFrameRule(s: State, cfg: BrokerConfig, from: Peer, m: Msg, now: int)
    requires Agree(s.tables, cfg.maxRooms)
    ensures
      var s' := RouteMsg(s, cfg, from, m, now).0;
      s' == s.(rates := s'.rates, box := s'.box, writes := s'.writes, nextToken := s.nextToken + 1)
  {
    hide RouteMsg, Agree, Routed;
    RouteMsgRouted(s, cfg, from, m, now);
    var (s', outs) := RouteMsg(s, cfg, from, m, now);
    RoutedFrameRule(s.(nextToken := s.nextToken + 1), cfg, s', outs, from, s.nextToken, m, now);
  }

  // ---- exactly when a message is accepted ----

  /** Somebody can be given the message: an online member of the room or a known offline alias on the
      directed route, an eligible member on the capability route, anybody else in the room for a broadcast. */
  ghost predicate HasRecipient(s: State, cfg: BrokerConfig, from: Peer, m: Msg, now: int) {
    if m.broadcast then |Members(s.tables, MsgRoom(m))| > 1 && DecisionFor(cfg, from.alias, m, "*") != Deny
    else
      && m.to.Some?
      && match CapTarget(m.to.value)
         case Some(cap) => exists a :: a in Members(s.tables, MsgRoom(m)) && Eligible(NetOf(s), cfg.policy,
             CapRequest(cfg, from, m, cap, now), a)
         case None =>
           && var to := m.to.value;
           && (if IsOnline(s, to) then MsgRoom(m) in s.tables.peers[to].rooms else to in s.known)
           && DecisionFor(cfg, from.alias, m, to) != Deny
  }

  predicate RateGranted(s: State, cfg: BrokerConfig, from: Peer, m: Msg, now: int) {
    Check(s.rates, from.alias, KindOf(MsgPriority(m)), cfg.policy.rateLimits, now).1
  }

  predicate IsRefusal(outs: seq<Out>) { |outs| == 1 && outs[0].MsgError? }

  lemma DirectAcceptedIff(s: State, cfg: BrokerConfig, from: Peer, token: nat, m: Msg, now: int)
    requires !m.broadcast && m.to.Some? && CapTarget(m.to.value).None?
    ensures !IsRefusal(RouteDirect(s, cfg, from, token, m, m.to.value, now).1)
       <==> RateGranted(s, cfg, from, m, now) && HasRecipient(s, cfg, from, m, now)
  {
    hide MB.Enqueue, Check, EvaluatePolicy, DropNotices, CapTarget;
  }

  lemma CapAcceptedIff(s: State, cfg: BrokerConfig, from: Peer, token: nat, m: Msg, cap: string, now: int)
    requires !m.broadcast && m.to.Some? && CapTarget(m.to.value) == Some(cap)
    requires forall k :: k in s.tables.peers ==> s.tables.peers[k].alias == k
    ensures !IsRefusal(RouteCap(s, cfg, from, token, m, cap, now).1)
       <==> RateGranted(s, cfg, from, m, now) && HasRecipient(s, cfg, from, m, now)
  {
    hide Check, EvaluatePolicy, Choose, CapTarget;
    var q, members := CapRequest(cfg, from, m, cap, now), Members(s.tables, MsgRoom(m));
    ChoiceIsEligible(NetOf(s), cfg.policy, q, members);
  }

  lemma BroadcastAcceptedIff(s: State, cfg: BrokerConfig, from: Peer, token: nat, m: Msg, now: int)
    requires m.broadcast && NoDup(Members(s.tables, MsgRoom(m)))
    ensures !IsRefusal(RouteBroadcast(s, cfg, from, token, m, now).1)
       <==> MayWrite(from, m) && RateGranted(s, cfg, from, m, now) && HasRecipient(s, cfg, from, m, now)
  {
    hide Check, EvaluatePolicy, FanOut, Members, FanInv, FanBoxes, MsgRoom;
    var s1 := Charge(s, cfg, from.alias, KindOf(MsgPriority(m)), now).0;
    var members := Members(s.tables, MsgRoom(m));
    FanOutSummary(s1, cfg, from.alias, m, members, now);
    FanFrame(s1, cfg, from.alias, m, members, now, FanOut(s1, cfg, from.alias, m, members, now));
  }

  /**
   A message is accepted if and only if its sender may write to the room, the rate
   check grants it, and there is a recipient the policy lets it reach; otherwise it
   is refused, whichever route it asks for.
   */
  lemma MessageAcceptedIff(s: State, cfg: BrokerConfig, from: Peer, m: Msg, now: int)
    requires Agree(s.tables, cfg.maxRooms)
    ensures !IsRefusal(RouteMsg(s, cfg, from, m, now).1)
       <==> MayWrite(from, m) && RateGranted(s, cfg, from, m, now) && HasRecipient(s, cfg, from, m, now)
  {
    hide RouteBroadcast, RouteDirect, RouteCap, Check, EvaluatePolicy, CapTarget, MsgRoom;
    var token := s.nextToken;
    var s0 := s.(nextToken := token + 1);
    forall k | k in s.tables.peers ensures s.tables.peers[k].alias == k { assert PeerOk(s.tables, cfg.maxRooms, k); }
    if MsgRoom(m) in s.tables.rooms { assert RoomOk(s.tables, MsgRoom(m)); }
    hide Agree;
    assert HasRecipient(s0, cfg, from, m, now) == HasRecipient(s, cfg, from, m, now);
    hide HasRecipient;
    if m.broadcast {
      BroadcastAcceptedIff(s0, cfg, from, token, m, now);
    } else if m.to.None? {
      NobodyAddressed(s, cfg, from, m, now);
    } else if MayWrite(from, m) {
      match CapTarget(m.to.value) {
        case Some(cap) => CapAcceptedIff(s0, cfg, from, token, m, cap, now);
        case None => DirectAcceptedIff(s0, cfg, from, token, m, now);
      }
    }
  }

  lemma NobodyAddressed(s: State, cfg: BrokerConfig, from: Peer, m: Msg, now: int)
    requires !m.broadcast && m.to.None?
    ensures !HasRecipient(s, cfg, from, m, now)
  {}

  // ---- force on broadcasts ----

  predicate RulesAllow(cfg: BrokerConfig, from: Alias, m: Msg, to: Alias) {
    var ctx := Context(from, to, MsgRoom(m), MsgPriority(m));
    !AnyMatches(cfg.policy.deny, ctx) && AnyMatches(cfg.policy.allow, ctx)
  }

  /** Force from a sender who is not allowed to use it. */
  predicate UnauthorizedForce(cfg: BrokerConfig, from: Peer, m: Msg) {
    MsgPriority(m) == Force && from.alias !in cfg.policy.forceAllowedFrom
  }

  /**
   The broadcast route does not downgrade: unauthorized force gets through, as force,
   if and only if `forceDowngrade` is set (and nothing else stops the message).
   Every copy of an accepted broadcast, written or queued, is the frame as it came.
   */
  lemma BroadcastForceIff(s: State, cfg: BrokerConfig, from: Peer, m: Msg, now: int)
    requires Agree(s.tables, cfg.maxRooms) && m.broadcast
    ensures
      var (s', outs) := RouteMsg(s, cfg, from, m, now);
      && (UnauthorizedForce(cfg, from, m) ==>
            (!IsRefusal(outs) <==>
               && cfg.policy.forceDowngrade && MayWrite(from, m) && RateGranted(s, cfg, from, m, now)
               && |Members(s.tables, MsgRoom(m))| > 1 && RulesAllow(cfg, from.alias, m, "*")))
      && (!IsRefusal(outs) ==> Fanned(s.(nextToken := s.nextToken + 1), cfg, s', outs, from, s.nextToken, m, now))
  {
    hide RouteMsg, Agree, Fanned, AnyMatches, Check, Members, Mailed, Sent;
    MessageAcceptedIff(s, cfg, from, m, now);
    RouteMsgRouted(s, cfg, from, m, now);
    var (s', outs) := RouteMsg(s, cfg, from, m, now);
    BroadcastFate(s.(nextToken := s.nextToken + 1), cfg, s', outs, from, s.nextToken, m, now);
  }

  lemma BroadcastFate(s: State, cfg: BrokerConfig, s': State, outs: seq<Out>, from: Peer, token: nat, m: Msg, now: int)
    requires m.broadcast && Routed(s, cfg, s', outs, from, token, m, now)
    ensures IsRefusal(outs) || Fanned(s, cfg, s', outs, from, token, m, now)
  {
    hide Fanned;
  }

  /** What an accepted broadcast is written as. */
  lemma BroadcastIsForwardedAsIs(s: State, cfg: BrokerConfig, s': State, outs: seq<Out>, from: Peer, token: nat,
      m: Msg, now: int)
    requires Fanned(s, cfg, s', outs, from, token, m, now)
    ensures
      var members := Members(s.tables, MsgRoom(m));
      && (Reached(s, members, from.alias) != {} ==> token in s'.writes && s'.writes[token].original == m)
      && (cfg.mailbox.mailboxCap >= 1 ==> forall a :: a in Boxed(s, members, from.alias) ==>
            var q := MB.Queue(s'.box, a); q != [] && q[|q| - 1] == Stored(m, now))
  {
    hide Reached, Boxed, Members, EndsWith, NoAnswers, RefsCurrent, DecisionFor;
  }

  // ---- what a refusal costs ----

  /** The message comes as far as the rate check. */
  ghost predicate ReachesCheck(s: State, from: Peer, m: Msg) {
    && MayWrite(from, m)
    && if m.broadcast then |Members(s.tables, MsgRoom(m))| > 1
       else
         && m.to.Some?
         && (CapTarget(m.to.value).None? ==>
               if IsOnline(s, m.to.value) then MsgRoom(m) in s.tables.peers[m.to.value].rooms
               else m.to.value in s.known)
  }

  /** The rate table after one check of the sender's bucket. */
  function CheckedRates(s: State, cfg: BrokerConfig, from: Peer, m: Msg, now: int): map<Alias, PeerRates> {
    Check(s.rates, from.alias, KindOf(MsgPriority(m)), cfg.policy.rateLimits, now).0
  }

  lemma DirectRates(s: State, cfg: BrokerConfig, from: Peer, token: nat, m: Msg, now: int)
    requires MayWrite(from, m) && !m.broadcast && m.to.Some? && CapTarget(m.to.value).None?
    ensures RouteDirect(s, cfg, from, token, m, m.to.value, now).0.rates
         == if ReachesCheck(s, from, m) then CheckedRates(s, cfg, from, m, now) else s.rates
  {
    hide MB.Enqueue, Check, EvaluatePolicy, DropNotices, CapTarget;
  }

  lemma CapRates(s: State, cfg: BrokerConfig, from: Peer, token: nat, m: Msg, cap: string, now: int)
    ensures RouteCap(s, cfg, from, token, m, cap, now).0.rates == CheckedRates(s, cfg, from, m, now)
  {
    hide Check, EvaluatePolicy, Choose;
  }

  lemma BroadcastRates(s: State, cfg: BrokerConfig, from: Peer, token: nat, m: Msg, now: int)
    requires m.broadcast && NoDup(Members(s.tables, MsgRoom(m)))
    ensures RouteBroadcast(s, cfg, from, token, m, now).0.rates
         == if ReachesCheck(s, from, m) then CheckedRates(s, cfg, from, m, now) else s.rates
  {
    hide Check, EvaluatePolicy, FanOut, Members, FanInv, FanBoxes, MsgRoom;
    var s1 := Charge(s, cfg, from.alias, KindOf(MsgPriority(m)), now).0;
    var members := Members(s.tables, MsgRoom(m));
    FanOutSummary(s1, cfg, from.alias, m, members, now);
    FanFrame(s1, cfg, from.alias, m, members, now, FanOut(s1, cfg, from.alias, m, members, now));
  }

  /**
   When a message is charged, accepted or not: exactly one check is made if it comes as
   far as the check, none otherwise. So a refused message has been charged if and only
   if the check granted it and no recipient could be given it, for instance because
   the policy denies.
   */
  lemma RefusedAndChargedIff(s: State, cfg: BrokerConfig, from: Peer, m: Msg, now: int)
    requires Agree(s.tables, cfg.maxRooms)
    ensures
      var (s', outs) := RouteMsg(s, cfg, from, m, now);
      && s'.rates == (if ReachesCheck(s, from, m) then CheckedRates(s, cfg, from, m, now) else s.rates)
      && (ReachesCheck(s, from, m) && RateGranted(s, cfg, from, m, now) ==>
            (IsRefusal(outs) <==> !HasRecipient(s, cfg, from, m, now)))
  {
    hide RouteBroadcast, RouteDirect, RouteCap, Check, EvaluatePolicy, CapTarget, MsgRoom, HasRecipient;
    MessageAcceptedIff(s, cfg, from, m, now);
    var token, s0 := s.nextToken, s.(nextToken := s.nextToken + 1);
    if MsgRoom(m) in s.tables.rooms { assert RoomOk(s.tables, MsgRoom(m)); }
    hide Agree;
    assert ReachesCheck(s0, from, m) == ReachesCheck(s, from, m);
    if m.broadcast {
      BroadcastRates(s0, cfg, from, token, m, now);
    } else if m.to.Some? && MayWrite(from, m) {
      match CapTarget(m.to.value) {
        case Some(cap) => CapRates(s0, cfg, from, token, m, cap, now);
        case None => DirectRates(s0, cfg, from, token, m, now);
      }
    }
  }
}
