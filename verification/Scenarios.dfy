/**
 Concrete runs of the broker: a message that finds a capable peer, and runs in which
 something a reader might expect does not hold, each beside the theorem that says when.
 */
module Scenarios {
  import opened Common
  import opened StateTables
  import opened RateLimit
  import opened Policy
  import opened Rooms
  import opened CapRouting
  import opened Broker
  import opened Routing
  import opened Membership
  import opened Postbox
  import opened CapTargets
  import MB = Mailbox

  // ---- two peers in a room ----

  function CapsOf(alias: Alias): seq<string> { if alias == "b" then ["review"] else [] }

  /** A hello for room x; `b` advertises a capability. */
  function Greeting(alias: Alias): Hello {
    PlainHello(alias, ["x"]).(caps := Some(CapsOf(alias)), proto := Some(PROTO_VERSION))
  }

  function HelloStep(sock: Sock, alias: Alias): Step { Deliver(sock, HelloFrame(Greeting(alias)), 0) }

  const MEETING: seq<Step> := [HelloStep(1, "a"), HelloStep(2, "b")]

  /** A record as such a hello makes it. */
  function PlainPeer(alias: Alias, sock: Sock, gen: nat): Peer {
    Peer(alias, sock, gen, map["x" := Member], [], Unknown, CapsOf(alias))
  }

  lemma OneRoom(t: Tables, alias: Alias, maxRooms: int)
    requires maxRooms >= 1 && HasPlace(t, alias, "x")
    ensures AllJoinable(t, alias, maxRooms, ["x"])
  {
    assert RoomSet(["x"]) == {"x"};
  }

  lemma PlainAsks(alias: Alias)
    ensures AskedRoles(Greeting(alias)) == map["x" := Member]
  {}

  /** The alias has no live connection, and there is a place for it. */
  predicate CanReturn(s: State, cfg: BrokerConfig, sock: Sock, alias: Alias) {
    && cfg.maxRooms >= 1 && s.tokenSocks == {} && HasPlace(s.tables, alias, "x")
    && (alias in s.tables.peers ==> s.tables.peers[alias].sock != sock && s.tables.peers[alias].sock in s.destroyed)
  }

  lemma CanReturnIsAcceptable(s: State, cfg: BrokerConfig, sock: Sock, alias: Alias)
    requires CanReturn(s, cfg, sock, alias)
    ensures Acceptable(s, cfg, sock, Greeting(alias))
    ensures Next(s, cfg, HelloStep(sock, alias)) == HandleHello(s, cfg, sock, Greeting(alias), 0)
  {
    hide HandleHello;
    OneRoom(s.tables, alias, cfg.maxRooms);
  }

  /** The hello of an alias whose connection is gone or never was: a record with its
      one room; the records and memberships of others stay. */
  lemma PlainHelloJoins(s: State, cfg: BrokerConfig, sock: Sock, alias: Alias)
    requires CanReturn(s, cfg, sock, alias)
    ensures
      var t := Next(s, cfg, HelloStep(sock, alias)).0.tables;
      && alias in t.peers && t.peers[alias] == PlainPeer(alias, sock, s.nextGen)
      && (forall b :: b != alias ==> (b in t.peers <==> b in s.tables.peers))
      && (forall b :: b != alias && b in s.tables.peers ==> t.peers[b] == s.tables.peers[b])
      && (forall b :: b in Members(t, "x") <==> b == alias || b in Members(s.tables, "x"))
  {
    hide HandleHello, Enroll, AllJoinable, JoinedBy, Next;
    var h := Greeting(alias);
    CanReturnIsAcceptable(s, cfg, sock, alias);
    HelloFrameRule(s, cfg, sock, h, 0);
    HelloRooms(s, cfg, sock, h);
    PlainAsks(alias);
    AcceptableForgets(s, cfg, sock, h);
    EnrollMembers(s.tables, PeerFor(s, sock, h), cfg.maxRooms, WantedRooms(h), h.roles, GetOr(h.role, Member));
    assert "x" in Rejoined(s, cfg, h);
  }

  /** Besides that the alias is known, and its mailbox is on its way. */
  lemma PlainHelloFrame(s: State, cfg: BrokerConfig, sock: Sock, alias: Alias)
    requires CanReturn(s, cfg, sock, alias)
    ensures
      var s' := Next(s, cfg, HelloStep(sock, alias)).0;
      var live := MB.FreshPart(MB.Queue(s.box, alias), cfg.mailbox.mailboxTtlMs, 0);
      && s' == s.(tables := s'.tables, box := s'.box, known := s.known[alias := 0], mailWrites := s'.mailWrites,
                  nextMail := s.nextMail + |live|, nextGen := s.nextGen + 1)
      && s'.box.queues == s.box.queues - {alias}
      && s'.mailWrites == IssueMail(s.mailWrites, s.nextMail, Ref(alias, sock, s.nextGen), live)
  {
    hide HandleHello, Enroll, AllJoinable, Next, MB.FreshPart, MB.ExpiredPart, DropNotices, MailboxOuts, Greet,
        IssueMail;
    var h := Greeting(alias);
    CanReturnIsAcceptable(s, cfg, sock, alias);
    HelloFrameRule(s, cfg, sock, h, 0);
    HelloMailbox(s, cfg, sock, h, 0);
    HelloCases(s, cfg, sock, h, 0);
    EnrollSucceedsIff(s, cfg, sock, h);
    GreetFrame(Enrolled(s, cfg, sock, h, 0), cfg, PeerFor(s, sock, h), h.id, 0);
  }

  /** What the meeting of `a` and `b` leads to. */
  ghost predicate Met(s: State) {
    && "a" in s.tables.peers && s.tables.peers["a"] == PlainPeer("a", 1, 0)
    && "b" in s.tables.peers && s.tables.peers["b"] == PlainPeer("b", 2, 1)
    && (forall b :: b in Members(s.tables, "x") <==> b == "a" || b == "b")
    && "a" in s.known && "b" in s.known
    && s == INITIAL.(tables := s.tables, known := s.known, nextGen := 2, box := s.box) && s.box.queues == map[]
  }

  lemma MeetingMeets(cfg: BrokerConfig)
    requires cfg.maxRooms >= 1
    ensures Met(Run(cfg, MEETING)) && Agree(Run(cfg, MEETING).tables, cfg.maxRooms)
  {
    RunAgrees(cfg, MEETING);
    hide Agree, Next;
    var one := [HelloStep(1, "a")];
    assert MEETING[..1] == one && one[..0] == [];
    assert Run(cfg, []) == INITIAL;
    PlainHelloJoins(INITIAL, cfg, 1, "a");
    PlainHelloFrame(INITIAL, cfg, 1, "a");
    var s1 := Run(cfg, one);
    assert s1 == Next(INITIAL, cfg, HelloStep(1, "a")).0;
    RunAgrees(cfg, one);
    OtherHasPlace(s1, cfg, "b");
    PlainHelloJoins(s1, cfg, 2, "b");
    PlainHelloFrame(s1, cfg, 2, "b");
    assert Run(cfg, MEETING) == Next(s1, cfg, HelloStep(2, "b")).0;
    assert IssueMail(map[], 0, Ref("a", 1, 0), []) == map[] && IssueMail(map[], 0, Ref("b", 2, 1), []) == map[];
  }

  /** There is a place in a room with one member. */
  lemma OtherHasPlace(s: State, cfg: BrokerConfig, alias: Alias)
    requires Agree(s.tables, cfg.maxRooms) && forall b :: b in Members(s.tables, "x") ==> b == "a"
    ensures HasPlace(s.tables, alias, "x")
  {
    var members := Members(s.tables, "x");
    if "x" in s.tables.rooms { assert RoomOk(s.tables, "x"); }
    assert Others(members, "a") == {};
    OthersCount(members, "a");
  }

  // ---- messages between them ----

  function Note(to: Option<string>, priority: Priority, broadcast: bool): Msg {
    Msg("m", "a", to, Some("x"), Some(priority), broadcast, false, None, None, "hi")
  }

  function NoteStep(m: Msg): Step { Deliver(1, MsgFrame(m), 0) }

  const ANYTHING := PolicyRule(None, None, None)

  function Config(policy: MeshPolicy, mailboxCap: int): BrokerConfig {
    BrokerConfig(MB.Config(mailboxCap, 1000), 4, policy, None, 0, AliasLeq)
  }

  /** The first check of an alias is granted, if its buckets hold anything. */
  lemma FirstCheck(alias: Alias, kind: Kind, limits: Limits, now: int)
    requires limits.msgPerMin >= 1 && Capacity(kind, limits) >= 1
    ensures
      var (rates, ok) := Check(map[], alias, kind, limits, now);
      ok && alias in rates && rates[alias].msg.tokens == limits.msgPerMin as real - 1.0
  {}

  lemma AnythingMatches(ctx: Context)
    ensures AnyMatches([ANYTHING], ctx) && !AnyMatches([], ctx)
  {
    assert RuleMatches([ANYTHING][0], ctx);
  }

  /** Force is only to be downgraded, and nobody may use it. */
  const DOWNGRADING := Config(MeshPolicy([ANYTHING], [], [], true, Limits(5, 5, 5)), 10)

  const ALARM := Note(None, Force, true)

  lemma AlarmIsRouted(s: State)
    requires Met(s)
    ensures Next(s, DOWNGRADING, NoteStep(ALARM)) == RouteMsg(s, DOWNGRADING, s.tables.peers["a"], ALARM, 0)
  {
    hide RouteMsg, Members;
  }

  lemma AlarmIsFanned(s: State)
    requires Met(s) && Agree(s.tables, DOWNGRADING.maxRooms)
    ensures
      var from := s.tables.peers["a"];
      var (s', outs) := RouteMsg(s, DOWNGRADING, from, ALARM, 0);
      Fanned(s.(nextToken := 1), DOWNGRADING, s', outs, from, 0, ALARM, 0)
  {
    hide Agree, Fanned, RouteMsg, Check, AnyMatches;
    FirstCheck("a", ForceKind, DOWNGRADING.policy.rateLimits, 0);
    AnythingMatches(Context("a", "*", "x", Force));
    TwoMembers(s.tables);
    hide Members;
    BroadcastForceIff(s, DOWNGRADING, s.tables.peers["a"], ALARM, 0);
  }

  /** A sender who may not use force broadcasts with force where force is only to be
      downgraded: the other peer is written the frame with force. */
  lemma ForceIsBroadcast()
    ensures
      var s := Run(DOWNGRADING, MEETING + [NoteStep(ALARM)]);
      && "a" !in DOWNGRADING.policy.forceAllowedFrom
      && 0 in s.writes && s.writes[0].FanWrite? && s.writes[0].waiting.Keys == {"b"}
      && s.writes[0].original.priority == Some(Force)
  {
    hide Agree, Fanned, RouteMsg, Next, Run, Members;
    MeetingMeets(DOWNGRADING);
    RunSnoc(DOWNGRADING, MEETING, NoteStep(ALARM));
    var s := Run(DOWNGRADING, MEETING);
    AlarmIsRouted(s);
    AlarmIsFanned(s);
    var (s', outs) := RouteMsg(s, DOWNGRADING, s.tables.peers["a"], ALARM, 0);
    OnlyOtherIsReached(s, DOWNGRADING, s', outs, s.tables.peers["a"], ALARM);
  }

  lemma TwoMembers(t: Tables)
    requires "a" in Members(t, "x") && "b" in Members(t, "x")
    ensures |Members(t, "x")| > 1
  {}

  lemma OnlyOtherIsReached(s: State, cfg: BrokerConfig, s': State, outs: seq<Out>, from: Peer, m: Msg)
    requires Met(s) && from == s.tables.peers["a"] && MsgRoom(m) == "x"
    requires forall b :: b in Members(s.tables, "x") ==> b == "a" || b == "b"
    requires Fanned(s.(nextToken := 1), cfg, s', outs, from, 0, m, 0)
    ensures 0 in s'.writes && s'.writes[0].FanWrite? && s'.writes[0].original == m && s'.writes[0].waiting.Keys == {"b"}
  {
    hide FanBoxes, EndsWith, NoAnswers, RefsCurrent, DecisionFor, Boxed, Others;
    assert Reached(s.(nextToken := 1), Members(s.tables, "x"), "a") == {"b"};
  }

  // ---- directed messages ----

  lemma {:induction false} TrimShrinks(s: string)
    ensures |TrimStart(s)| <= |s| && |TrimEnd(s)| <= |s|
    decreases |s|
  {
    if s != "" {
      TrimShrinks(s[1..]);
      TrimShrinks(s[..|s| - 1]);
    }
  }

  lemma ShortIsNoCap(to: string)
    requires |to| < 4
    ensures CapTarget(to).None?
  {
    TrimShrinks(to);
    TrimShrinks(TrimStart(to));
    assert |Lower(Trim(to))| < 4;
  }

  /** A directed note takes the directed route. */
  lemma NoteGoesDirect(s: State, cfg: BrokerConfig, m: Msg)
    requires m == Note(Some("b"), Normal, false)
    requires "a" in s.tables.peers && s.tables.peers["a"] == PlainPeer("a", 1, 0)
    ensures Next(s, cfg, NoteStep(m)) == RouteDirect(s.(nextToken := s.nextToken + 1), cfg, s.tables.peers["a"],
        s.nextToken, m, "b", 0)
  {
    hide RouteDirect, RouteCap, RouteBroadcast, CapTarget;
    ShortIsNoCap("b");
  }

  /** A policy that allows nobody: the message is refused, and has cost its sender a token. */
  lemma DeniedIsCharged()
    ensures
      var cfg := Config(MeshPolicy([], [], [], true, Limits(5, 5, 5)), 10);
      var steps := MEETING + [NoteStep(Note(Some("b"), Normal, false))];
      && OutsAt(cfg, steps, 2) == [MsgError(0, 1, "m", Denied)]
      && "a" in Run(cfg, steps).rates && Run(cfg, steps).rates["a"].msg.tokens == 4.0
  {
    var cfg := Config(MeshPolicy([], [], [], true, Limits(5, 5, 5)), 10);
    var m := Note(Some("b"), Normal, false);
    hide Agree, Check, AnyMatches;
    MeetingMeets(cfg);
    RunSnoc(cfg, MEETING, NoteStep(m));
    var s := Run(cfg, MEETING);
    FirstCheck("a", MsgKind, cfg.policy.rateLimits, 0);
    AnythingMatches(Context("a", "b", "x", Normal));
    NoteGoesDirect(s, cfg, m);
    hide Run, Next;
  }

  // ---- mailboxes ----

  function Open(mailboxCap: int): BrokerConfig {
    Config(MeshPolicy([ANYTHING], [], [], true, Limits(5, 5, 5)), mailboxCap)
  }

  const AWAY: seq<Step> := MEETING + [Destroy(2), NoteStep(Note(Some("b"), Normal, false))]

  /** A note to `b` after its connection broke: it is acknowledged as queued. */
  lemma NoteIsQueued(cap: int)
    ensures
      var s, outs := Run(Open(cap), AWAY), OutsAt(Open(cap), AWAY, 3);
      var m := Note(Some("b"), Normal, false);
      && outs != [] && outs[|outs| - 1] == MsgAck(0, 1, "m", QueuedOffline, None, None, None)
      && s.box == MB.Enqueue(Run(Open(cap), MEETING).box, Open(cap).mailbox, "b", m, 0).0
      && "b" in s.tables.peers && s.tables.peers["b"] == PlainPeer("b", 2, 1)
      && (forall a :: a in Members(s.tables, "x") <==> a == "a" || a == "b")
      && s == INITIAL.(tables := s.tables, known := s.known, nextGen := 2, box := s.box, destroyed := {2},
          rates := s.rates, nextToken := 1)
      && Run(Open(cap), MEETING).box.queues == map[] && Agree(s.tables, Open(cap).maxRooms)
  {
    hide Agree, Run, Next, MB.Enqueue, RouteDirect;
    var cfg, m := Open(cap), Note(Some("b"), Normal, false);
    RunAgrees(cfg, AWAY);
    MeetingMeets(cfg);
    var met := Run(cfg, MEETING);
    RunSnoc(cfg, MEETING, Destroy(2));
    DestroyStep(met, cfg, 2);
    RunSnoc(cfg, MEETING + [Destroy(2)], NoteStep(m));
    assert AWAY == MEETING + [Destroy(2)] + [NoteStep(m)];
    var s := met.(destroyed := {2});
    assert met.destroyed + {2} == {2} && |MEETING + [Destroy(2)]| == 3;
    assert Run(cfg, MEETING + [Destroy(2)]) == s;
    NoteGoesDirect(s, cfg, m);
    OfflineIsQueued(s, cap);
  }

  lemma OfflineIsQueued(s: State, cap: int)
    requires s.destroyed == {2} && s.rates == map[] && s.nextToken == 0 && "b" in s.known
    requires "a" in s.tables.peers && s.tables.peers["a"] == PlainPeer("a", 1, 0)
    requires "b" in s.tables.peers && s.tables.peers["b"] == PlainPeer("b", 2, 1)
    ensures
      var m := Note(Some("b"), Normal, false);
      var (s', outs) := RouteDirect(s.(nextToken := 1), Open(cap), s.tables.peers["a"], 0, m, "b", 0);
      && outs != [] && outs[|outs| - 1] == MsgAck(0, 1, "m", QueuedOffline, None, None, None)
      && s' == s.(nextToken := 1, rates := s'.rates, box := MB.Enqueue(s.box, Open(cap).mailbox, "b", m, 0).0)
  {
    hide Check, AnyMatches, MB.Enqueue, DropNotices;
    FirstCheck("a", MsgKind, Open(cap).policy.rateLimits, 0);
    AnythingMatches(Context("a", "b", "x", Normal));
  }

  /** With no room in the mailbox, the acknowledged message is nowhere. */
  lemma QueuedButNotKept()
    ensures
      var cfg := Open(0);
      var s, outs := Run(cfg, AWAY), OutsAt(cfg, AWAY, 3);
      && outs != [] && outs[|outs| - 1].MsgAck? && outs[|outs| - 1].status == QueuedOffline
      && MB.Queue(s.box, "b") == []
  {
    hide Run, Next, MB.Enqueue, MB.Queue, Agree, Members;
    NoteIsQueued(0);
    MB.NewestSurvives(Run(Open(0), MEETING).box, Open(0).mailbox, "b", Note(Some("b"), Normal, false), 0);
  }

  const LOST: seq<Step> := AWAY + [HelloStep(3, "b"), MailWriteDone(0, false)]

  const LOST_NOTE := Stored(Note(Some("b"), Normal, false), 0)

  /** `b` comes back: its mailbox entry is on its way. */
  lemma MailIsOnItsWay()
    ensures
      var cfg, s := Open(10), Run(Open(10), AWAY + [HelloStep(3, "b")]);
      && MB.Queue(Run(cfg, AWAY).box, "b") == [LOST_NOTE]
      && s.mailWrites == map[0 := MailWrite(Ref("b", 3, 2), LOST_NOTE)] && "b" !in s.box.queues
  {
    var cfg := Open(10);
    NoteIsQueued(10);
    OneEntry(cfg, LOST_NOTE);
    var s := Run(cfg, AWAY);
    RunSnoc(cfg, AWAY, HelloStep(3, "b"));
    StillFresh(cfg, LOST_NOTE);
    hide Run, Next, Agree, MB.Enqueue, MB.FreshPart, IssueMail;
    AwayCanReturn(s);
    PlainHelloFrame(s, cfg, 3, "b");
  }

  lemma AwayCanReturn(s: State)
    requires s.tokenSocks == {} && s.destroyed == {2} && "b" in s.tables.peers && s.tables.peers["b"].sock == 2
    requires forall a :: a in Members(s.tables, "x") <==> a == "a" || a == "b"
    ensures CanReturn(s, Open(10), 3, "b")
  {}

  /** Its new connection breaks before the entry arrives: the entry is in no queue, on no way
      and was not dropped, and nobody was told. */
  lemma MailIsLost()
    ensures
      var cfg := Open(10);
      && MB.Queue(Run(cfg, AWAY).box, "b") == [LOST_NOTE]
      && MB.Queue(Run(cfg, LOST).box, "b") == [] && Run(cfg, LOST).mailWrites == map[]
      && OutsAt(cfg, LOST, 5) == [] && Landings(cfg, LOST, "b", LOST_NOTE, false) >= 1
  {
    var cfg, back := Open(10), AWAY + [HelloStep(3, "b")];
    hide Next, Run, Landings, CloseRef, Lands;
    MailIsOnItsWay();
    RunSnoc(cfg, back, MailWriteDone(0, false));
    assert LOST == back + [MailWriteDone(0, false)] && |back| == 5;
    FailedMailIsSilent(Run(cfg, back), cfg, 0);
    assert LOST[..|LOST| - 1] == back;
    LastLands(cfg, LOST, "b", LOST_NOTE);
  }

  lemma OneEntry(cfg: BrokerConfig, x: Stored)
    requires cfg == Open(10) && x == Stored(Note(Some("b"), Normal, false), 0) && Run(cfg, MEETING).box.queues == map[]
    ensures MB.Queue(MB.Enqueue(Run(cfg, MEETING).box, cfg.mailbox, "b", x.frame, 0).0, "b") == [x]
  {
    hide Run;
    assert MB.FreshPart([], 1000, 0) == [];
    assert ([x])[0..] == [x];
  }

  lemma StillFresh(cfg: BrokerConfig, x: Stored)
    requires cfg == Open(10) && x.enqueuedAt == 0
    ensures MB.FreshPart([x], cfg.mailbox.mailboxTtlMs, 0) == [x]
    ensures IssueMail(map[], 0, Ref("b", 3, 2), [x]) == map[0 := MailWrite(Ref("b", 3, 2), x)]
  {
    assert [x][..0] == [];
  }

  lemma LastLands(cfg: BrokerConfig, steps: seq<Step>, alias: Alias, x: Stored)
    requires steps != [] && Lands(Run(cfg, steps[..|steps| - 1]), steps[|steps| - 1], alias, x, false)
    ensures Landings(cfg, steps, alias, x, false) >= 1
  {
    hide Run;
  }

  // ---- messages to a capability ----

  const REVIEW := Note(Some(" Cap: REVIEW"), Normal, false)

  lemma ReviewIsTarget()
    ensures IsCapName("review") && Targets(REVIEW.to.value, "review")
  {
    var left, head, gap, tail, right := " ", "Cap:", " ", "REVIEW", "";
    assert AllSpace(left) && AllSpace(gap) && AllSpace(right);
    assert Spells(head, "cap:") && Spells(tail, "review");
    assert REVIEW.to.value == left + head + gap + tail + right;
  }

  lemma OnlyOneAdvertises(s: State, cfg: BrokerConfig, a: Alias)
    requires Met(s) && cfg == Open(10)
    ensures
      var q := CapRequest(cfg, s.tables.peers["a"], REVIEW, "review", 0);
      a in Members(s.tables, "x") && Eligible(NetOf(s), cfg.policy, q, a) <==> a == "b"
  {
    hide AnyMatches;
    assert "review" in s.tables.peers["b"].caps;
    AnythingMatches(Context("a", "b", "x", Normal));
  }

  /** A message to a capability is written to the member that advertises it. */
  lemma ReviewIsOnItsWay(s: State)
    requires Met(s) && Agree(s.tables, Open(10).maxRooms)
    ensures
      var (s', outs) := Next(s, Open(10), NoteStep(REVIEW));
      OnItsWay(s, s', outs, s.tables.peers["a"], REVIEW, "review", s.tables.peers["b"])
  {
    var cfg, from := Open(10), s.tables.peers["a"];
    ReviewIsTarget();
    ReviewIsRouted(s);
    CodePointIsOrder();
    OnlyOneAdvertises(s, cfg, "b");
    NoteIsGranted(s, cfg, REVIEW);
    hide Agree, RouteMsg, Next, Members, Eligible, OnItsWay, Targets, IsOrder, RateGranted;
    CapMessageGoesToBest(s, cfg, from, REVIEW, "review", 0);
    var q, members := CapRequest(cfg, from, REVIEW, "review", 0), Members(s.tables, "x");
    var (s', outs) := RouteMsg(s, cfg, from, REVIEW, 0);
    var p :| IsOptimal(NetOf(s), cfg.policy, q, members, p) && OnItsWay(s, s', outs, from, REVIEW, "review", p);
    var a :| a in members && Eligible(NetOf(s), cfg.policy, q, a) && p == s.tables.peers[a];
    OnlyOneAdvertises(s, cfg, a);
  }

  lemma ReviewIsRouted(s: State)
    requires Met(s)
    ensures Next(s, Open(10), NoteStep(REVIEW)) == RouteMsg(s, Open(10), s.tables.peers["a"], REVIEW, 0)
  {
    hide RouteMsg, Members;
  }

  lemma NoteIsGranted(s: State, cfg: BrokerConfig, m: Msg)
    requires Met(s) && cfg == Open(10) && m == Note(m.to, Normal, false)
    ensures MayWrite(s.tables.peers["a"], m) && RateGranted(s, cfg, s.tables.peers["a"], m, 0)
  {
    hide Check, Members;
    FirstCheck("a", MsgKind, cfg.policy.rateLimits, 0);
  }

  /** Once it is written, the sender is told to whom it went. */
  lemma ReviewIsAcknowledged()
    ensures
      var cfg, steps := Open(10), MEETING + [NoteStep(REVIEW)];
      var w := Run(cfg, steps).writes;
      && 0 in w && w[0].DirectWrite? && w[0].target.alias == "b" && w[0].routed.routedCap == Some("review")
      && OutsAt(cfg, steps + [WriteDone(0, true, 0)], 3) == [MsgAck(0, 1, "m", Delivered, None, None, Some("b"))]
  {
    var cfg, steps := Open(10), MEETING + [NoteStep(REVIEW)];
    MeetingMeets(cfg);
    RunSnoc(cfg, MEETING, NoteStep(REVIEW));
    RunSnoc(cfg, steps, WriteDone(0, true, 0));
    var s, s' := Run(cfg, MEETING), Run(cfg, steps);
    hide Run, Agree, Members;
    assert |steps| == 3;
    ReviewIsOnItsWay(s);
    ReviewHasNoInterrupt(s);
    WrittenIsAcknowledged(s', cfg);
  }

  lemma ReviewHasNoInterrupt(s: State)
    requires Met(s) && Agree(s.tables, Open(10).maxRooms)
    ensures
      var s' := Next(s, Open(10), NoteStep(REVIEW)).0;
      0 in s'.writes && s'.writes[0].DirectWrite? ==> s'.writes[0].interrupt == None
  {
    hide Agree, RouteMsg, EvaluatePolicy, CapTarget, FanBoxes, Members, MB.Enqueue, Forwarded;
    ReviewIsRouted(s);
    RouteMsgRouted(s, Open(10), s.tables.peers["a"], REVIEW, 0);
    forall to ensures DecisionFor(Open(10), "a", REVIEW, to) != Downgrade {
      DecisionIff(Open(10).policy, "a", to, "x", Normal);
    }
    hide SomeConcerns, Next;
  }

  lemma WrittenIsAcknowledged(s: State, cfg: BrokerConfig)
    requires 0 in s.writes && s.writes[0].DirectWrite? && s.writes[0].from.sock == 1
    requires s.writes[0].original == REVIEW && s.writes[0].interrupt == None && s.writes[0].routedTo == Some("b")
    ensures Next(s, cfg, WriteDone(0, true, 0)).1 == [MsgAck(0, 1, "m", Delivered, None, None, Some("b"))]
  {}
}
