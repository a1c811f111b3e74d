/**
 Room membership, kept on two sides: each peer's room -> role map and the
 room -> members index.
 */
module Rooms {
  import opened Common
  import opened StateTables

  type Index = map<Room, seq<Alias>>

  datatype Tables = Tables(peers: map<Alias, Peer>, rooms: Index)

  ghost function TablesOf(state: BrokerState): Tables
    reads state
  {
    Tables(state.peers, state.rooms)
  }

  function Members(t: Tables, room: Room): seq<Alias> { if room in t.rooms then t.rooms[room] else [] }

  function RoomsOf(t: Tables, alias: Alias): map<Room, Role> {
    if alias in t.peers then t.peers[alias].rooms else map[]
  }

  function SetRooms(peers: map<Alias, Peer>, alias: Alias, rooms: map<Room, Role>): map<Alias, Peer>
    requires alias in peers
  {
    peers[alias := peers[alias].(rooms := rooms)]
  }

  predicate HasPlace(t: Tables, alias: Alias, room: Room) {
    alias in Members(t, room) || |Members(t, room)| < MAX_PEERS_PER_ROOM
  }

  function Join(t: Tables, alias: Alias, maxRooms: int, room: Room, role: Role): (Tables, bool)
    requires alias in t.peers
    ensures alias in Join(t, alias, maxRooms, room, role).0.peers
  {
    var mine := t.peers[alias].rooms;
    if !IsValidRoom(room) then (t, false)
    else if room in mine then (t.(peers := SetRooms(t.peers, alias, mine[room := role])), true)
    else if |mine| >= maxRooms || !HasPlace(t, alias, room) then (t, false)
    else
      var members := Members(t, room);
      (Tables(SetRooms(t.peers, alias, mine[room := role]),
              t.rooms[room := if alias in members then members else members + [alias]]), true)
  }

  /** The index without `alias` in `room`; an emptied room disappears. */
  function RemoveMember(idx: Index, room: Room, alias: Alias): Index {
    if room !in idx then idx
    else
      var rest := Without(idx[room], alias);
      if rest == [] then idx - {room} else idx[room := rest]
  }

  function Leave(t: Tables, alias: Alias, room: Room): (Tables, bool)
    requires alias in t.peers
  {
    var mine := t.peers[alias].rooms;
    if room !in mine then (t, false)
    else (Tables(SetRooms(t.peers, alias, mine - {room}), RemoveMember(t.rooms, room, alias)), true)
  }

  /** The index without `alias` in any of the rooms `mine`. */
  function Detached(idx: Index, mine: set<Room>, alias: Alias): Index {
    map r | r in idx && !(r in mine && Without(idx[r], alias) == []) ::
      if r in mine then Without(idx[r], alias) else idx[r]
  }

  function Close(t: Tables, alias: Alias): Tables {
    if alias !in t.peers then t
    else Tables(t.peers - {alias}, Detached(t.rooms, t.peers[alias].rooms.Keys, alias))
  }

  function RoleFor(roles: map<Room, Role>, fallback: Role, room: Room): Role {
    if room in roles then roles[room] else fallback
  }

  /** Join the requested rooms in order, stopping at the first refusal. */
  function JoinAll(t: Tables, alias: Alias, maxRooms: int, wanted: seq<Room>, roles: map<Room, Role>,
      fallback: Role): (Tables, bool)
    requires alias in t.peers
    ensures alias in JoinAll(t, alias, maxRooms, wanted, roles, fallback).0.peers
  {
    if wanted == [] then (t, true)
    else
      var (t1, ok) := JoinAll(t, alias, maxRooms, wanted[..|wanted| - 1], roles, fallback);
      var room := wanted[|wanted| - 1];
      if ok then Join(t1, alias, maxRooms, room, RoleFor(roles, fallback, room)) else (t1, false)
  }

  /** Install a new record for `peer.alias` (replacing any old one) and join its
      rooms; on a refusal the new record is detached and removed again. */
  function Enroll(t: Tables, peer: Peer, maxRooms: int, wanted: seq<Room>, roles: map<Room, Role>,
      fallback: Role): (Tables, bool) {
    var (t1, ok) := JoinAll(t.(peers := t.peers[peer.alias := peer]), peer.alias, maxRooms, wanted, roles, fallback);
    if ok then (t1, true) else (Close(t1, peer.alias), false)
  }

  // ---- in-place operations ----

  method JoinRoom(state: BrokerState, maxRooms: int, alias: Alias, room: Room, role: Role) returns (ok: bool)
    requires alias in state.peers
    modifies state`peers, state`rooms
    ensures (TablesOf(state), ok) == Join(old(TablesOf(state)), alias, maxRooms, room, role)
    ensures alias in state.peers
  {
    if !IsValidRoom(room) { return false; }
    var peer := state.peers[alias];
    if room in peer.rooms {
      state.peers := state.peers[alias := peer.(rooms := peer.rooms[room := role])];
      return true;
    }
    if |peer.rooms| >= maxRooms { return false; }
    var members := if room in state.rooms then state.rooms[room] else [];
    if alias !in members && |members| >= MAX_PEERS_PER_ROOM { return false; }
    if alias !in members { members := members + [alias]; }
    state.rooms := state.rooms[room := members];
    state.peers := state.peers[alias := peer.(rooms := peer.rooms[room := role])];
    ok := true;
  }

  method LeaveRoom(state: BrokerState, alias: Alias, room: Room) returns (ok: bool)
    requires alias in state.peers
    modifies state`peers, state`rooms
    ensures (TablesOf(state), ok) == Leave(old(TablesOf(state)), alias, room)
  {
    var peer := state.peers[alias];
    if room !in peer.rooms { return false; }
    state.peers := state.peers[alias := peer.(rooms := peer.rooms - {room})];
    if room in state.rooms {
      var members := Without(state.rooms[room], alias);
      state.rooms := if |members| == 0 then state.rooms - {room} else state.rooms[room := members];
    }
    ok := true;
  }

  method DetachFromRooms(state: BrokerState, alias: Alias)
    requires alias in state.peers
    modifies state`peers, state`rooms
    ensures state.rooms == Detached(old(state.rooms), old(state.peers)[alias].rooms.Keys, alias)
    ensures state.peers == SetRooms(old(state.peers), alias, map[])
  {
    var peer := state.peers[alias];
    var todo := peer.rooms.Keys;
    while todo != {}
      invariant todo <= peer.rooms.Keys
      invariant state.rooms == Detached(old(state.rooms), peer.rooms.Keys - todo, alias)
      invariant state.peers == old(state.peers)
    {
      var room :| room in todo;
      ghost var before, done := state.rooms, peer.rooms.Keys - todo;
      todo := todo - {room};
      if room in state.rooms {
        var members := Without(state.rooms[room], alias);
        state.rooms := if |members| == 0 then state.rooms - {room} else state.rooms[room := members];
      }
      assert peer.rooms.Keys - todo == done + {room};
      DetachOneMore(old(state.rooms), done, room, alias);
    }
    state.peers := state.peers[alias := peer.(rooms := map[])];
  }

  lemma DetachOneMore(idx: Index, done: set<Room>, room: Room, alias: Alias)
    requires room !in done
    ensures Detached(idx, done + {room}, alias) == RemoveMember(Detached(idx, done, alias), room, alias)
  {
    var a, b := Detached(idx, done + {room}, alias), RemoveMember(Detached(idx, done, alias), room, alias);
    assert a.Keys == b.Keys;
    assert forall r :: r in a ==> a[r] == b[r];
  }

  // ---- invariants ----

  ghost predicate PeerOk(t: Tables, maxRooms: int, a: Alias)
    requires a in t.peers
  {
    && t.peers[a].alias == a
    && |t.peers[a].rooms| <= Max(maxRooms, 0)
    && forall r :: r in t.peers[a].rooms ==> a in Members(t, r) && IsValidRoom(r)
  }

  ghost predicate RoomOk(t: Tables, r: Room)
    requires r in t.rooms
  {
    t.rooms[r] != [] && NoDup(t.rooms[r]) && |t.rooms[r]| <= MAX_PEERS_PER_ROOM
  }

  /** Index agreement: every peer's rooms list that peer, no stored room is empty
      or over-full, and no peer exceeds its room cap. */
  ghost predicate Agree(t: Tables, maxRooms: int) {
    && (forall a :: a in t.peers ==> PeerOk(t, maxRooms, a))
    && (forall r :: r in t.rooms ==> RoomOk(t, r))
  }

  /** The converse: every listed member is a peer that is in that room. */
  ghost predicate Exact(t: Tables) {
    forall r, a :: r in t.rooms && a in t.rooms[r] ==> a in t.peers && r in t.peers[a].rooms
  }

  /** `t'` differs from `t` only in more rooms for `alias`, each of which now lists it. */
  ghost predicate Extends(t: Tables, t': Tables, alias: Alias)
    requires alias in t.peers
  {
    && alias in t'.peers
    && t'.peers == SetRooms(t.peers, alias, t'.peers[alias].rooms)
    && t.peers[alias].rooms.Keys <= t'.peers[alias].rooms.Keys
    && forall r :: Members(t', r) ==
         if r in t'.peers[alias].rooms && r !in t.peers[alias].rooms && alias !in Members(t, r) then
           Members(t, r) + [alias]
         else Members(t, r)
  }

  /** The name is valid, and the record is in the room already or both caps leave a place. */
  predicate CanJoin(t: Tables, alias: Alias, maxRooms: int, room: Room)
    requires alias in t.peers
  {
    var mine := t.peers[alias].rooms;
    IsValidRoom(room) && (room in mine || (|mine| < maxRooms && HasPlace(t, alias, room)))
  }

  lemma JoinExtends(t: Tables, alias: Alias, maxRooms: int, room: Room, role: Role)
    requires alias in t.peers
    ensures
      var (t', ok) := Join(t, alias, maxRooms, room, role);
      && Extends(t, t', alias)
      && (if ok then t'.peers[alias].rooms == t.peers[alias].rooms[room := role] else t' == t)
      && (ok <==> CanJoin(t, alias, maxRooms, room))
  {
    var t' := Join(t, alias, maxRooms, room, role).0;
    assert t'.peers == SetRooms(t.peers, alias, t'.peers[alias].rooms);
  }

  lemma ExtendsKeepsPeerOk(t: Tables, t': Tables, maxRooms: int, alias: Alias, a: Alias)
    requires alias in t.peers && a in t.peers && PeerOk(t, maxRooms, a) && Extends(t, t', alias)
    requires |t'.peers[alias].rooms| <= Max(maxRooms, 0)
    requires forall r :: r in t'.peers[alias].rooms ==> IsValidRoom(r)
    ensures PeerOk(t', maxRooms, a)
  {
    forall r | r in t'.peers[a].rooms ensures a in Members(t', r) {}
  }

  lemma ExtendsTwice(t: Tables, t1: Tables, t2: Tables, alias: Alias)
    requires alias in t.peers && Extends(t, t1, alias) && Extends(t1, t2, alias)
    ensures Extends(t, t2, alias)
  {
    assert SetRooms(t1.peers, alias, t2.peers[alias].rooms) == SetRooms(t.peers, alias, t2.peers[alias].rooms);
  }

  lemma JoinKeepsRoomOk(t: Tables, alias: Alias, maxRooms: int, room: Room, role: Role, r: Room)
    requires alias in t.peers && Agree(t, maxRooms)
    requires r in Join(t, alias, maxRooms, room, role).0.rooms
    ensures RoomOk(Join(t, alias, maxRooms, room, role).0, r)
  {
    hide IsValidRoom, SetRooms;
    if r in t.rooms {
      assert RoomOk(t, r);
      hide Agree, NoDup;
      if alias !in t.rooms[r] { AppendNoDup(t.rooms[r], alias); }
    } else {
      hide Agree;
    }
  }

  lemma OneRoomMore(mine: map<Room, Role>, room: Room, role: Role)
    ensures |mine[room := role]| == if room in mine then |mine| else |mine| + 1
  {
    assert mine[room := role].Keys == mine.Keys + {room};
  }

  lemma JoinStaysWithin(t: Tables, alias: Alias, maxRooms: int, room: Room, role: Role)
    requires alias in t.peers && PeerOk(t, maxRooms, alias)
    ensures var t' := Join(t, alias, maxRooms, room, role).0;
      && alias in t'.peers && |t'.peers[alias].rooms| <= Max(maxRooms, 0)
      && forall r :: r in t'.peers[alias].rooms ==> IsValidRoom(r)
  {
    hide Join, HasPlace, Members, IsValidRoom;
    JoinExtends(t, alias, maxRooms, room, role);
    OneRoomMore(t.peers[alias].rooms, room, role);
  }

  lemma JoinKeepsPeerOk(t: Tables, alias: Alias, maxRooms: int, room: Room, role: Role, a: Alias)
    requires alias in t.peers && a in t.peers && Agree(t, maxRooms)
    ensures PeerOk(Join(t, alias, maxRooms, room, role).0, maxRooms, a)
  {
    assert PeerOk(t, maxRooms, a) && PeerOk(t, maxRooms, alias);
    hide Agree, PeerOk, Join, CanJoin, IsValidRoom;
    JoinExtends(t, alias, maxRooms, room, role);
    JoinStaysWithin(t, alias, maxRooms, room, role);
    ExtendsKeepsPeerOk(t, Join(t, alias, maxRooms, room, role).0, maxRooms, alias, a);
  }

  lemma JoinKeepsAgree(t: Tables, alias: Alias, maxRooms: int, room: Room, role: Role)
    requires alias in t.peers && Agree(t, maxRooms)
    ensures Agree(Join(t, alias, maxRooms, room, role).0, maxRooms)
  {
    var t' := Join(t, alias, maxRooms, room, role).0;
    forall a | a in t'.peers ensures PeerOk(t', maxRooms, a) { JoinKeepsPeerOk(t, alias, maxRooms, room, role, a); }
    forall r | r in t'.rooms ensures RoomOk(t', r) { JoinKeepsRoomOk(t, alias, maxRooms, room, role, r); }
  }

  lemma RemoveKeepsAgree(t: Tables, t': Tables, maxRooms: int, alias: Alias, gone: set<Room>)
    requires Agree(t, maxRooms) && t'.rooms == Detached(t.rooms, gone, alias)
    requires t'.peers.Keys <= t.peers.Keys
    requires forall a :: a in t'.peers && a != alias ==> t'.peers[a] == t.peers[a]
    requires alias in t'.peers ==>
      t'.peers[alias].alias == alias && t'.peers[alias].rooms == t.peers[alias].rooms - gone
    ensures Agree(t', maxRooms)
  {
    forall a | a in t'.peers ensures PeerOk(t', maxRooms, a) {
      assert PeerOk(t, maxRooms, a);
      RemoveKeepsPeerOk(t, t', maxRooms, alias, gone, a);
    }
    hide PeerOk;
    forall r | r in t'.rooms ensures RoomOk(t', r) {
      assert RoomOk(t, r);
      WithoutNoDup(t.rooms[r], alias);
    }
  }

  lemma RemoveKeepsPeerOk(t: Tables, t': Tables, maxRooms: int, alias: Alias, gone: set<Room>, a: Alias)
    requires a in t.peers && a in t'.peers && PeerOk(t, maxRooms, a) && t'.rooms == Detached(t.rooms, gone, alias)
    requires if a != alias then t'.peers[a] == t.peers[a]
             else t'.peers[a].alias == a && t'.peers[a].rooms == t.peers[a].rooms - gone
    ensures PeerOk(t', maxRooms, a)
  {
    if a == alias {
      assert t'.peers[a].rooms.Keys <= t.peers[a].rooms.Keys;
      SubsetSize(t'.peers[a].rooms.Keys, t.peers[a].rooms.Keys);
    }
  }

  lemma SubsetSize<T>(a: set<T>, b: set<T>)
    requires a <= b
    ensures |a| <= |b|
  {
    var rest := b - a;
    assert b == a + rest;
  }

  lemma LeaveIsDetach(t: Tables, alias: Alias, room: Room)
    requires alias in t.peers && room in t.peers[alias].rooms
    ensures Leave(t, alias, room).0.rooms == Detached(t.rooms, {room}, alias)
  {
    DetachOneMore(t.rooms, {}, room, alias);
    assert {} + {room} == {room};
    assert Detached(t.rooms, {}, alias) == t.rooms;
  }

  lemma LeaveKeepsAgree(t: Tables, alias: Alias, maxRooms: int, room: Room)
    requires alias in t.peers && Agree(t, maxRooms)
    ensures Agree(Leave(t, alias, room).0, maxRooms)
  {
    assert PeerOk(t, maxRooms, alias);
    hide Agree, Detached, RemoveMember;
    if room in t.peers[alias].rooms {
      LeaveIsDetach(t, alias, room);
      RemoveKeepsAgree(t, Leave(t, alias, room).0, maxRooms, alias, {room});
    }
  }

  lemma CloseKeepsAgree(t: Tables, alias: Alias, maxRooms: int)
    requires Agree(t, maxRooms)
    ensures Agree(Close(t, alias), maxRooms)
  {
    if alias in t.peers {
      RemoveKeepsAgree(t, Close(t, alias), maxRooms, alias, t.peers[alias].rooms.Keys);
    }
  }

  lemma {:induction false} JoinAllKeepsAgree(t: Tables, alias: Alias, maxRooms: int, wanted: seq<Room>,
      roles: map<Room, Role>, fallback: Role)
    requires alias in t.peers && Agree(t, maxRooms)
    ensures Agree(JoinAll(t, alias, maxRooms, wanted, roles, fallback).0, maxRooms)
  {
    if wanted != [] {
      var front, room := wanted[..|wanted| - 1], wanted[|wanted| - 1];
      JoinAllKeepsAgree(t, alias, maxRooms, front, roles, fallback);
      JoinKeepsAgree(JoinAll(t, alias, maxRooms, front, roles, fallback).0, alias, maxRooms, room,
          RoleFor(roles, fallback, room));
    }
  }

  lemma EnrollKeepsAgree(t: Tables, peer: Peer, maxRooms: int, wanted: seq<Room>, roles: map<Room, Role>,
      fallback: Role)
    requires Agree(t, maxRooms) && peer.rooms == map[]
    ensures Agree(Enroll(t, peer, maxRooms, wanted, roles, fallback).0, maxRooms)
  {
    var t0 := t.(peers := t.peers[peer.alias := peer]);
    forall a | a in t0.peers ensures PeerOk(t0, maxRooms, a) {
      if a != peer.alias { assert PeerOk(t, maxRooms, a); }
    }
    forall r | r in t0.rooms ensures RoomOk(t0, r) { assert RoomOk(t, r); }
    JoinAllKeepsAgree(t0, peer.alias, maxRooms, wanted, roles, fallback);
    CloseKeepsAgree(JoinAll(t0, peer.alias, maxRooms, wanted, roles, fallback).0, peer.alias, maxRooms);
  }

  /** What joining a list of rooms does: it only extends the tables, and on success
      exactly the requested rooms are added, each with its role. */
  lemma {:induction false} JoinAllResult(t: Tables, alias: Alias, maxRooms: int, wanted: seq<Room>,
      roles: map<Room, Role>, fallback: Role)
    requires alias in t.peers
    ensures
      var (t', ok) := JoinAll(t, alias, maxRooms, wanted, roles, fallback);
      && Extends(t, t', alias)
      && (forall r :: r in t'.peers[alias].rooms ==> r in t.peers[alias].rooms || r in wanted)
      && (ok ==> forall r :: r in wanted ==>
            r in t'.peers[alias].rooms && t'.peers[alias].rooms[r] == RoleFor(roles, fallback, r))
  {
    if wanted != [] {
      var front, room := wanted[..|wanted| - 1], wanted[|wanted| - 1];
      assert wanted == front + [room];
      hide Join, Extends, HasPlace, IsValidRoom;
      JoinAllResult(t, alias, maxRooms, front, roles, fallback);
      var (t1, ok) := JoinAll(t, alias, maxRooms, front, roles, fallback);
      if ok {
        JoinExtends(t1, alias, maxRooms, room, RoleFor(roles, fallback, room));
        ExtendsTwice(t, t1, Join(t1, alias, maxRooms, room, RoleFor(roles, fallback, room)).0, alias);
      }
    } else {
      assert SetRooms(t.peers, alias, t.peers[alias].rooms) == t.peers;
    }
  }

  /** The longest prefix of the requested rooms that a new record of `alias` can join. */
  function JoinablePrefix(t: Tables, alias: Alias, maxRooms: int, wanted: seq<Room>): seq<Room> {
    if wanted == [] then []
    else
      var front := JoinablePrefix(t, alias, maxRooms, wanted[..|wanted| - 1]);
      if front == wanted[..|wanted| - 1] && AllJoinable(t, alias, maxRooms, wanted) then wanted else front
  }

  /** The rooms a hello joins before it succeeds or is refused. */
  function JoinedBy(t: Tables, alias: Alias, maxRooms: int, wanted: seq<Room>): set<Room> {
    RoomSet(JoinablePrefix(t, alias, maxRooms, wanted))
  }

  lemma {:induction false} PrefixIsAll(t: Tables, alias: Alias, maxRooms: int, wanted: seq<Room>)
    ensures JoinablePrefix(t, alias, maxRooms, wanted) == wanted <==> AllJoinable(t, alias, maxRooms, wanted)
  {
    if wanted != [] {
      var front, room := wanted[..|wanted| - 1], wanted[|wanted| - 1];
      PrefixIsAll(t, alias, maxRooms, front);
      assert wanted == front + [room];
      AllJoinableExtends(t, alias, maxRooms, front, room);
      PrefixLength(t, alias, maxRooms, front);
    }
  }

  lemma {:induction false} PrefixLength(t: Tables, alias: Alias, maxRooms: int, wanted: seq<Room>)
    ensures |JoinablePrefix(t, alias, maxRooms, wanted)| <= |wanted|
  {
    if wanted != [] { PrefixLength(t, alias, maxRooms, wanted[..|wanted| - 1]); }
  }

  lemma {:induction false} PrefixFrame(t: Tables, t': Tables, alias: Alias, maxRooms: int, wanted: seq<Room>)
    requires t'.rooms == t.rooms
    ensures JoinablePrefix(t', alias, maxRooms, wanted) == JoinablePrefix(t, alias, maxRooms, wanted)
  {
    if wanted != [] {
      PrefixFrame(t, t', alias, maxRooms, wanted[..|wanted| - 1]);
      assert forall r :: Joinable(t', alias, r) == Joinable(t, alias, r);
    }
  }

  /** Whether it succeeds or not, joining a list joins exactly its longest joinable prefix. */
  lemma {:induction false} JoinAllJoinsPrefix(t: Tables, alias: Alias, maxRooms: int, wanted: seq<Room>,
      roles: map<Room, Role>, fallback: Role)
    requires alias in t.peers && t.peers[alias].rooms == map[]
    ensures JoinAll(t, alias, maxRooms, wanted, roles, fallback).0.peers[alias].rooms.Keys
         == JoinedBy(t, alias, maxRooms, wanted)
  {
    hide Join, AllJoinable, Extends;
    if wanted != [] {
      var front, room := wanted[..|wanted| - 1], wanted[|wanted| - 1];
      assert wanted == front + [room];
      JoinAllJoinsPrefix(t, alias, maxRooms, front, roles, fallback);
      JoinAllSucceedsIff(t, alias, maxRooms, front, roles, fallback);
      JoinAllSucceedsIff(t, alias, maxRooms, wanted, roles, fallback);
      PrefixIsAll(t, alias, maxRooms, front);
      PrefixIsAll(t, alias, maxRooms, wanted);
      PrefixLength(t, alias, maxRooms, front);
      var (t1, ok) := JoinAll(t, alias, maxRooms, front, roles, fallback);
      if ok {
        JoinExtends(t1, alias, maxRooms, room, RoleFor(roles, fallback, room));
        assert RoomSet(wanted) == RoomSet(front) + {room};
      }
    }
  }

  /**
   A hello over an exact index leaves it exact if and only if the rooms of the record
   it replaces, if any, are in the longest joinable prefix of those it asks for; the
   others keep listing an alias that is no longer in them.
   */
  lemma EnrollExactIff(t: Tables, peer: Peer, maxRooms: int, wanted: seq<Room>, roles: map<Room, Role>, fallback: Role)
    requires Agree(t, maxRooms) && Exact(t) && peer.rooms == map[]
    ensures Exact(Enroll(t, peer, maxRooms, wanted, roles, fallback).0)
       <==> RoomsOf(t, peer.alias).Keys <= JoinedBy(t, peer.alias, maxRooms, wanted)
  {
    EnrollMembers(t, peer, maxRooms, wanted, roles, fallback);
    var (t', ok) := Enroll(t, peer, maxRooms, wanted, roles, fallback);
    ExactAfter(t, t', maxRooms, peer.alias, JoinedBy(t, peer.alias, maxRooms, wanted), ok);
  }

  /** `t'` is `t` after `alias` said hello, joined `joined` and was accepted or not. */
  ghost predicate SaidHello(t: Tables, t': Tables, alias: Alias, joined: set<Room>, ok: bool) {
    && (forall b :: b != alias ==> (b in t'.peers <==> b in t.peers) && (b in t.peers ==> t'.peers[b] == t.peers[b]))
    && (ok <==> alias in t'.peers)
    && (ok ==> t'.peers[alias].rooms.Keys == joined)
    && (forall r, b :: b in Members(t', r) <==>
          if b != alias then b in Members(t, r) else if r in joined then ok else b in Members(t, r))
  }

  lemma ExactAfter(t: Tables, t': Tables, maxRooms: int, a: Alias, joined: set<Room>, ok: bool)
    requires Agree(t, maxRooms) && Exact(t) && SaidHello(t, t', a, joined, ok)
    ensures Exact(t') <==> RoomsOf(t, a).Keys <= joined
  {
    if !(RoomsOf(t, a).Keys <= joined) {
      var r :| r in RoomsOf(t, a) && r !in joined;
      assert PeerOk(t, maxRooms, a);
      assert a in Members(t, r);
      assert a in Members(t', r);
    } else {
      forall r, b | r in t'.rooms && b in t'.rooms[r]
        ensures b in t'.peers && r in t'.peers[b].rooms
      {
        assert b in Members(t', r);
        assert b != a ==> b in Members(t, r);
        assert b == a && r !in joined ==> b in Members(t, r);
      }
    }
  }

  /** Membership after a hello: others are as before; the alias is in what it joined
      (nothing, if it was refused) and in what it never came to join but was listed in. */
  lemma EnrollMembers(t: Tables, peer: Peer, maxRooms: int, wanted: seq<Room>, roles: map<Room, Role>, fallback: Role)
    requires peer.rooms == map[]
    ensures
      var (t', ok) := Enroll(t, peer, maxRooms, wanted, roles, fallback);
      SaidHello(t, t', peer.alias, JoinedBy(t, peer.alias, maxRooms, wanted), ok)
  {
    hide JoinedBy, Extends, SaidHello, Close;
    var a := peer.alias;
    var t0 := t.(peers := t.peers[a := peer]);
    JoinAllResult(t0, a, maxRooms, wanted, roles, fallback);
    JoinAllJoinsPrefix(t0, a, maxRooms, wanted, roles, fallback);
    PrefixFrame(t, t0, a, maxRooms, wanted);
    SameJoined(t, t0, a, maxRooms, wanted);
    JoinedThenSaidHello(t, peer, JoinAll(t0, a, maxRooms, wanted, roles, fallback).0);
  }

  lemma SameJoined(t: Tables, t': Tables, alias: Alias, maxRooms: int, wanted: seq<Room>)
    requires JoinablePrefix(t', alias, maxRooms, wanted) == JoinablePrefix(t, alias, maxRooms, wanted)
    ensures JoinedBy(t', alias, maxRooms, wanted) == JoinedBy(t, alias, maxRooms, wanted)
  {}

  /** `t1` holds the new record with some rooms joined; it stays, or is closed again. */
  lemma JoinedThenSaidHello(t: Tables, peer: Peer, t1: Tables)
    requires peer.rooms == map[] && Extends(t.(peers := t.peers[peer.alias := peer]), t1, peer.alias)
    ensures SaidHello(t, t1, peer.alias, t1.peers[peer.alias].rooms.Keys, true)
    ensures SaidHello(t, Close(t1, peer.alias), peer.alias, t1.peers[peer.alias].rooms.Keys, false)
  {
    var a, joined := peer.alias, t1.peers[peer.alias].rooms.Keys;
    var t0 := t.(peers := t.peers[a := peer]);
    assert forall r :: Members(t0, r) == Members(t, r);
    assert forall r, b :: b in Members(t1, r) <==> b in Members(t, r) || (b == a && r in joined);
    CloseMembers(t1, a);
  }

  lemma CloseMembers(t: Tables, alias: Alias)
    requires alias in t.peers
    ensures forall r, b ::
      b in Members(Close(t, alias), r) <==> b in Members(t, r) && !(b == alias && r in t.peers[alias].rooms)
  {}

  predicate Joinable(t: Tables, alias: Alias, room: Room) { IsValidRoom(room) && HasPlace(t, alias, room) }

  function RoomSet(rooms: seq<Room>): set<Room> { set r | r in rooms }

  predicate AllJoinable(t: Tables, alias: Alias, maxRooms: int, rooms: seq<Room>) {
    (forall r :: r in rooms ==> Joinable(t, alias, r)) && (rooms == [] || |RoomSet(rooms)| <= maxRooms)
  }

  lemma AllJoinableExtends(t: Tables, alias: Alias, maxRooms: int, front: seq<Room>, room: Room)
    ensures AllJoinable(t, alias, maxRooms, front + [room])
       <==> && AllJoinable(t, alias, maxRooms, front) && Joinable(t, alias, room)
            && (room in front || |RoomSet(front)| < maxRooms)
  {
    var before := RoomSet(front);
    assert RoomSet(front + [room]) == before + {room};
    if room in front {
      assert before + {room} == before;
    } else {
      assert |before + {room}| == |before| + 1;
    }
  }

  /** Exactly when a list of rooms can be joined by a fresh record: every room is
      well named and has a place, and there are not too many of them. */
  lemma {:induction false} JoinAllSucceedsIff(t: Tables, alias: Alias, maxRooms: int, wanted: seq<Room>,
      roles: map<Room, Role>, fallback: Role)
    requires alias in t.peers && t.peers[alias].rooms == map[]
    ensures JoinAll(t, alias, maxRooms, wanted, roles, fallback).1 <==> AllJoinable(t, alias, maxRooms, wanted)
  {
    if wanted != [] {
      var front, room := wanted[..|wanted| - 1], wanted[|wanted| - 1];
      assert wanted == front + [room];
      JoinAllSucceedsIff(t, alias, maxRooms, front, roles, fallback);
      AllJoinableExtends(t, alias, maxRooms, front, room);
      var (t1, ok) := JoinAll(t, alias, maxRooms, front, roles, fallback);
      if ok {
        JoinAllResult(t, alias, maxRooms, front, roles, fallback);
        JoinExtends(t1, alias, maxRooms, room, RoleFor(roles, fallback, room));
        LastRoomJoinable(t, t1, alias, maxRooms, front, room);
      }
    }
  }

  lemma LastRoomJoinable(t: Tables, t1: Tables, alias: Alias, maxRooms: int, front: seq<Room>, room: Room)
    requires alias in t.peers && t.peers[alias].rooms == map[] && Extends(t, t1, alias)
    requires AllJoinable(t, alias, maxRooms, front)
    requires forall r :: r in t1.peers[alias].rooms <==> r in front
    ensures CanJoin(t1, alias, maxRooms, room)
       <==> Joinable(t, alias, room) && (room in front || |RoomSet(front)| < maxRooms)
  {
    assert t1.peers[alias].rooms.Keys == RoomSet(front);
    if room !in front { assert Members(t1, room) == Members(t, room); }
  }
}
