/**
 Project-scoped rooms: the derived room name, the stale-room rule, the effective
 room set of a session and the room an untargeted send goes to.
 Lower-casing and the path digest are inputs: a name is taken already
 lower-cased and a digest is six hexadecimal characters.
 */
module ProjectRoom {
  import opened Common

  const PROJECT_ROOM_PREFIX := "proj."
  const PROJECT_ROOM_SLUG_MAX := 24
  const PROJECT_ROOM_HASH_CHARS := 6

  // ---- the derived name ----

  /** Every run of characters outside [a-z0-9] becomes a single dash. */
  function Dashed(s: string): string {
    if s == "" then ""
    else
      var rest, c := Dashed(s[..|s| - 1]), s[|s| - 1];
      if IsLowerOrDigit(c) then rest + [c]
      else if rest != "" && rest[|rest| - 1] == '-' then rest
      else rest + "-"
  }

  function TrimLeadingDashes(s: string): string {
    if s != "" && s[0] == '-' then TrimLeadingDashes(s[1..]) else s
  }

  function TrimTrailingDashes(s: string): string {
    if s != "" && s[|s| - 1] == '-' then TrimTrailingDashes(s[..|s| - 1]) else s
  }

  function Take(s: string, n: nat): string { if |s| <= n then s else s[..n] }

  function Slugify(lowered: string): string {
    var slug := TrimTrailingDashes(Take(TrimTrailingDashes(TrimLeadingDashes(Dashed(lowered))), PROJECT_ROOM_SLUG_MAX));
    if slug == "" then "x" else slug
  }

  function DeriveProjectRoom(lowered: string, digest: string): Room {
    PROJECT_ROOM_PREFIX + Slugify(lowered) + "." + digest
  }

  predicate IsHexDigest(d: string) {
    |d| == PROJECT_ROOM_HASH_CHARS && forall i :: 0 <= i < |d| ==> '0' <= d[i] <= '9' || 'a' <= d[i] <= 'f'
  }

  /** Letters and digits with single dashes between them. */
  predicate IsDashed(s: string) {
    && (forall i :: 0 <= i < |s| ==> IsLowerOrDigit(s[i]) || s[i] == '-')
    && forall i :: 0 < i < |s| ==> !(s[i - 1] == '-' && s[i] == '-')
  }

  predicate IsSlug(s: string) {
    && 1 <= |s| <= PROJECT_ROOM_SLUG_MAX && IsDashed(s)
    && IsLowerOrDigit(s[0]) && IsLowerOrDigit(s[|s| - 1])
  }

  lemma {:induction false} DashedIsDashed(s: string)
    ensures IsDashed(Dashed(s))
  {
    if s != "" { DashedIsDashed(s[..|s| - 1]); }
  }

  lemma {:induction false} DashedFixed(s: string)
    requires IsDashed(s)
    ensures Dashed(s) == s
  {
    if s != "" {
      DashedFixed(s[..|s| - 1]);
      assert s == s[..|s| - 1] + [s[|s| - 1]];
    }
  }

  lemma {:induction false} TrimLeadingKeeps(s: string)
    requires IsDashed(s)
    ensures IsDashed(TrimLeadingDashes(s))
    ensures TrimLeadingDashes(s) != "" ==> IsLowerOrDigit(TrimLeadingDashes(s)[0])
  {
    if s != "" && s[0] == '-' { TrimLeadingKeeps(s[1..]); }
  }

  lemma {:induction false} TrimTrailingKeeps(s: string)
    requires IsDashed(s)
    ensures IsDashed(TrimTrailingDashes(s)) && TrimTrailingDashes(s) <= s
    ensures TrimTrailingDashes(s) != "" ==> IsLowerOrDigit(TrimTrailingDashes(s)[|TrimTrailingDashes(s)| - 1])
  {
    if s != "" && s[|s| - 1] == '-' { TrimTrailingKeeps(s[..|s| - 1]); }
  }

  /** Every slug is in canonical form. */
  lemma SlugifyIsSlug(raw: string)
    ensures IsSlug(Slugify(raw))
  {
    DashedIsDashed(raw);
    var a := Dashed(raw);
    TrimLeadingKeeps(a);
    var b := TrimLeadingDashes(a);
    TrimTrailingKeeps(b);
    var c := Take(TrimTrailingDashes(b), PROJECT_ROOM_SLUG_MAX);
    TrimTrailingKeeps(c);
  }

  /** Canonical names are fixed points, so slugifying twice changes nothing. */
  lemma SlugifyFixesSlugs(s: string)
    requires IsSlug(s)
    ensures Slugify(s) == s
  {
    DashedFixed(s);
  }

  lemma SlugifyIdempotent(raw: string)
    ensures Slugify(Slugify(raw)) == Slugify(raw)
  {
    SlugifyIsSlug(raw);
    SlugifyFixesSlugs(Slugify(raw));
  }

  /** Every derived room name satisfies the room grammar. */
  lemma DerivedRoomIsValid(lowered: string, digest: string)
    requires IsHexDigest(digest)
    ensures IsValidRoom(DeriveProjectRoom(lowered, digest))
  {
    SlugifyIsSlug(lowered);
    var slug := Slugify(lowered);
    var r := DeriveProjectRoom(lowered, digest);
    assert r == PROJECT_ROOM_PREFIX + slug + "." + digest;
    assert r[0] == 'p';
    forall i | 0 < i < |r|
      ensures IsLowerOrDigit(r[i]) || r[i] == '.' || r[i] == '-'
    {
      if i < |PROJECT_ROOM_PREFIX| {
        assert r[i] == PROJECT_ROOM_PREFIX[i];
      } else if i < |PROJECT_ROOM_PREFIX| + |slug| {
        assert r[i] == slug[i - |PROJECT_ROOM_PREFIX|];
      } else if i > |PROJECT_ROOM_PREFIX| + |slug| {
        assert r[i] == digest[i - |PROJECT_ROOM_PREFIX| - |slug| - 1];
      }
    }
  }

  // ---- stale rooms ----

  /** Position of the last dot, or -1. */
  function LastDot(s: string): (i: int)
    ensures -1 <= i < |s| && (i >= 0 ==> s[i] == '.')
    ensures forall j :: i < j < |s| ==> s[j] != '.'
  {
    if s == "" then -1 else if s[|s| - 1] == '.' then |s| - 1 else LastDot(s[..|s| - 1])
  }

  /** String slicing with a possibly negative end, as the runtime does it. */
  function Slice(s: string, from: nat, to: int): string {
    var end := if to < 0 then Max(|s| + to, 0) else if to > |s| then |s| else to;
    if from >= end then "" else s[from..end]
  }

  function OwnPrefix(projectRoom: Room): string {
    PROJECT_ROOM_PREFIX + Slice(projectRoom, |PROJECT_ROOM_PREFIX|, LastDot(projectRoom)) + "."
  }

  predicate IsStaleOwnProjectRoom(room: Room, projectRoom: Room) {
    room != projectRoom && OwnPrefix(projectRoom) <= room
  }

  lemma {:induction false} OwnPrefixOfDerived(lowered: string, digest: string)
    requires IsHexDigest(digest)
    ensures OwnPrefix(DeriveProjectRoom(lowered, digest)) == PROJECT_ROOM_PREFIX + Slugify(lowered) + "."
  {
    var slug := Slugify(lowered);
    var r := DeriveProjectRoom(lowered, digest);
    var dot := |PROJECT_ROOM_PREFIX| + |slug|;
    assert r[dot] == '.';
    assert forall j :: dot < j < |r| ==> r[j] == digest[j - dot - 1];
    assert LastDot(r) == dot;
    assert r[|PROJECT_ROOM_PREFIX|..dot] == slug;
  }

  /**
   A derived room is dropped as stale by a project with another derived room
   exactly when both have the same slug. Two projects whose directories share a
   base name therefore drop each other's derived rooms.
   */
  lemma DerivedStaleIffSameSlug(a: string, da: string, b: string, db: string)
    requires IsHexDigest(da) && IsHexDigest(db)
    requires DeriveProjectRoom(a, da) != DeriveProjectRoom(b, db)
    ensures IsStaleOwnProjectRoom(DeriveProjectRoom(a, da), DeriveProjectRoom(b, db)) <==> Slugify(a) == Slugify(b)
  {
    OwnPrefixOfDerived(b, db);
    SlugifyIsSlug(a);
    SlugifyIsSlug(b);
    DottedPrefix(PROJECT_ROOM_PREFIX, Slugify(b), Slugify(a), da);
  }

  lemma {:induction false} DottedPrefix(pre: string, x: string, y: string, z: string)
    requires '.' !in x && '.' !in y
    ensures pre + x + "." <= pre + y + "." + z <==> x == y
  {
    var p, s := pre + x + ".", pre + y + "." + z;
    assert p[|pre| + |x|] == '.' && s[|pre| + |y|] == '.';
    assert forall i :: 0 <= i < |x| ==> p[|pre| + i] == x[i];
    assert forall i :: 0 <= i < |y| ==> s[|pre| + i] == y[i];
    if p <= s {
      assert forall i :: 0 <= i < |p| ==> p[i] == s[i];
      assert |x| == |y|;
      assert forall i :: 0 <= i < |x| ==> x[i] == y[i];
    }
    if x == y { assert s == p + z; }
  }

  // ---- room scope ----

  datatype RoomMode = DefaultMode | ProjectMode | BothMode

  datatype Degraded = RoomCap | Pinned

  datatype RoomScope = RoomScope(rooms: seq<Room>, projectRoom: Option<Room>, broadcastRoom: Room,
      degraded: Option<Degraded>)

  /** The arguments with their defaults filled in (mode "both", cap 16, empty lists). */
  datatype ScopeArgs = ScopeArgs(mode: RoomMode, rooms: seq<Room>, derivedRoom: Room, projectRoomName: Option<Room>,
                                 configuredRooms: seq<Room>, maxRoomsPerPeer: int, persistedRooms: bool, pinned: bool)

  /** Default room if joined, else the first joined room, else the default room. */
  function LegacyBroadcastRoom(list: seq<Room>): Room {
    if DEFAULT_ROOM in list then DEFAULT_ROOM else if list == [] then DEFAULT_ROOM else list[0]
  }

  function NonBlank(rooms: seq<Room>): (r: seq<Room>)
    ensures forall x :: x in r <==> x in rooms && !IsBlank(x)
    ensures NoDup(rooms) ==> NoDup(r)
  {
    if rooms == [] then []
    else
      var front, last := rooms[..|rooms| - 1], rooms[|rooms| - 1];
      assert rooms == front + [last];
      if IsBlank(last) then NonBlank(front) else NonBlank(front) + [last]
  }

  function WithoutStale(rooms: seq<Room>, projectRoom: Room): (r: seq<Room>)
    ensures forall x :: x in r <==> x in rooms && !IsStaleOwnProjectRoom(x, projectRoom)
    ensures NoDup(rooms) ==> NoDup(r)
  {
    if rooms == [] then []
    else
      var front, last := rooms[..|rooms| - 1], rooms[|rooms| - 1];
      assert rooms == front + [last];
      if IsStaleOwnProjectRoom(last, projectRoom) then WithoutStale(front, projectRoom)
      else WithoutStale(front, projectRoom) + [last]
  }

  method ResolveRoomScope(args: ScopeArgs) returns (scope: RoomScope)
    ensures scope == ScopeOf(args)
  {
    var base := NonBlank(args.rooms);
    if args.mode == DefaultMode || args.pinned {
      var rooms := if |base| > 0 then base else [DEFAULT_ROOM];
      return RoomScope(rooms, None, LegacyBroadcastRoom(rooms),
                       if args.pinned && args.mode != DefaultMode then Some(Pinned) else None);
    }
    var projectRoom := GetOr(args.projectRoomName, args.derivedRoom);
    var rooms := WithoutStale(base, projectRoom);
    var leftDefault := args.persistedRooms && DEFAULT_ROOM !in base;
    if args.mode == BothMode {
      if DEFAULT_ROOM !in rooms && !leftDefault { rooms := rooms + [DEFAULT_ROOM]; }
    } else if DEFAULT_ROOM !in args.configuredRooms {
      rooms := RemoveFirst(rooms, DEFAULT_ROOM);
    }
    if projectRoom !in rooms { rooms := rooms + [projectRoom]; }
    if |rooms| > args.maxRoomsPerPeer {
      var trimmed := Without(rooms, projectRoom);
      ghost var start := trimmed;
      while |trimmed| > args.maxRoomsPerPeer && DEFAULT_ROOM in trimmed
        invariant Shed(start, args.maxRoomsPerPeer) == Shed(trimmed, args.maxRoomsPerPeer)
        decreases |trimmed|
      {
        trimmed := RemoveFirst(trimmed, DEFAULT_ROOM);
      }
      return RoomScope(TakeRooms(trimmed, Max(1, args.maxRoomsPerPeer)), None, LegacyBroadcastRoom(trimmed),
          Some(RoomCap));
    }
    scope := RoomScope(rooms, Some(projectRoom), projectRoom, None);
  }

  function RemoveFirst(s: seq<Room>, x: Room): (r: seq<Room>)
    ensures x in s ==> |r| == |s| - 1
    ensures x !in s ==> r == s
    ensures forall y :: y in r ==> y in s
    ensures forall y :: y in s && y != x ==> y in r
  {
    if s == [] then []
    else
      assert s == [s[0]] + s[1..];
      if s[0] == x then s[1..] else [s[0]] + RemoveFirst(s[1..], x)
  }

  lemma {:induction false} RemoveFirstNoDup(s: seq<Room>, x: Room)
    requires NoDup(s)
    ensures NoDup(RemoveFirst(s, x)) && x !in RemoveFirst(s, x)
  {
    if s != [] {
      assert s == [s[0]] + s[1..];
      assert s[0] !in s[1..];
      if s[0] != x {
        RemoveFirstNoDup(s[1..], x);
        PrependNoDup(s[0], RemoveFirst(s[1..], x));
      }
    }
  }

  function TakeRooms(s: seq<Room>, n: nat): seq<Room> { if |s| <= n then s else s[..n] }

  /** Drop the default room while the list exceeds the cap. */
  function Shed(s: seq<Room>, cap: int): seq<Room>
    decreases |s|
  {
    if |s| > cap && DEFAULT_ROOM in s then Shed(RemoveFirst(s, DEFAULT_ROOM), cap) else s
  }

  /** The rooms wanted before the cap is applied. */
  function WantedRooms(args: ScopeArgs, projectRoom: Room): seq<Room> {
    var base := NonBlank(args.rooms);
    var cleaned := WithoutStale(base, projectRoom);
    var withDefault :=
      if args.mode == BothMode then
        if DEFAULT_ROOM !in cleaned && !(args.persistedRooms && DEFAULT_ROOM !in base) then cleaned + [DEFAULT_ROOM]
        else cleaned
      else if DEFAULT_ROOM !in args.configuredRooms then RemoveFirst(cleaned, DEFAULT_ROOM)
      else cleaned;
    if projectRoom !in withDefault then withDefault + [projectRoom] else withDefault
  }

  function ScopeOf(args: ScopeArgs): RoomScope {
    var base := NonBlank(args.rooms);
    if args.mode == DefaultMode || args.pinned then
      var rooms := if base != [] then base else [DEFAULT_ROOM];
      RoomScope(rooms, None, LegacyBroadcastRoom(rooms),
                if args.pinned && args.mode != DefaultMode then Some(Pinned) else None)
    else
      var projectRoom := GetOr(args.projectRoomName, args.derivedRoom);
      var rooms := WantedRooms(args, projectRoom);
      if |rooms| > args.maxRoomsPerPeer then
        var trimmed := Shed(Without(rooms, projectRoom), args.maxRoomsPerPeer);
        RoomScope(TakeRooms(trimmed, Max(1, args.maxRoomsPerPeer)), None, LegacyBroadcastRoom(trimmed), Some(RoomCap))
      else RoomScope(rooms, Some(projectRoom), projectRoom, None)
  }

  /** The room a client with these joined rooms uses for an untargeted send. */
  function ResolveSendRoom(joined: seq<Room>, projectRoom: Option<Room>): Option<Room> {
    if projectRoom.Some? && projectRoom.value in joined then projectRoom
    else if DEFAULT_ROOM in joined then Some(DEFAULT_ROOM)
    else if joined == [] then None
    else Some(joined[0])
  }

  /** Which room an untargeted send uses: the project room if it is joined, else "default" if that is, else the
      first one; none if no room is joined. */
  lemma SendRoomIff(joined: seq<Room>, projectRoom: Option<Room>, room: Room)
    ensures ResolveSendRoom(joined, projectRoom) == Some(room)
       <==> && room in joined
            && (projectRoom == Some(room)
                || ((projectRoom.None? || projectRoom.value !in joined)
                    && (room == "default" || ("default" !in joined && room == joined[0]))))
  {
    if joined != [] { assert joined[0] in joined; }
  }

  /** Shedding removes default rooms only, one at a time, and stops as soon as the list fits. */
  lemma {:induction false} ShedKeeps(s: seq<Room>, cap: int)
    ensures
      var t, others := Shed(s, cap), Without(s, DEFAULT_ROOM);
      && Without(t, DEFAULT_ROOM) == others
      && (DEFAULT_ROOM in t ==> |t| <= cap)
      && (DEFAULT_ROOM in t <==> DEFAULT_ROOM in s && |others| < cap)
    decreases |s|
  {
    WithoutShrinks(s, DEFAULT_ROOM);
    if |s| > cap && DEFAULT_ROOM in s {
      RemoveFirstThenWithout(s, DEFAULT_ROOM);
      ShedKeeps(RemoveFirst(s, DEFAULT_ROOM), cap);
      if |Without(s, DEFAULT_ROOM)| < cap { MoreThanOthers(RemoveFirst(s, DEFAULT_ROOM), DEFAULT_ROOM); }
    }
  }

  lemma WithoutShrinks(s: seq<Room>, x: Room)
    ensures x in s ==> |Without(s, x)| < |s|
  {}

  lemma {:induction false} RemoveFirstThenWithout(s: seq<Room>, x: Room)
    ensures Without(RemoveFirst(s, x), x) == Without(s, x)
  {
    if s != [] {
      assert s == [s[0]] + s[1..];
      if s[0] != x {
        var r := RemoveFirst(s[1..], x);
        RemoveFirstThenWithout(s[1..], x);
        assert ([s[0]] + r)[1..] == r;
      }
    }
  }

  /** A list longer than what is left without `x` holds `x`. */
  lemma {:induction false} MoreThanOthers(s: seq<Room>, x: Room)
    ensures |s| > |Without(s, x)| ==> x in s
  {
    NoneToRemove(s, x);
  }

  lemma {:induction false} NoneToRemove(s: seq<Room>, x: Room)
    ensures x !in s ==> Without(s, x) == s
  {
    if s != [] {
      NoneToRemove(s[1..], x);
      assert s == [s[0]] + s[1..];
    }
  }

  /** The wanted rooms other than the project room and the default room, in order. */
  function OtherRooms(wanted: seq<Room>, projectRoom: Room): seq<Room> {
    Without(Without(wanted, projectRoom), DEFAULT_ROOM)
  }

  /** What the cap leaves of a list that exceeds it. */
  function Capped(wanted: seq<Room>, projectRoom: Room, cap: int): seq<Room> {
    TakeRooms(Shed(Without(wanted, projectRoom), cap), Max(1, cap))
  }

  /** Either everything shed fits and is kept, or only other rooms are left and their front is kept. */
  lemma CappedIs(wanted: seq<Room>, projectRoom: Room, cap: int)
    ensures
      var rest, others := Without(wanted, projectRoom), OtherRooms(wanted, projectRoom);
      var trimmed := Shed(rest, cap);
      if DEFAULT_ROOM in rest && |others| < cap then
        Capped(wanted, projectRoom, cap) == trimmed && DEFAULT_ROOM in trimmed && |trimmed| <= cap
        && Without(trimmed, DEFAULT_ROOM) == others
      else trimmed == others && Capped(wanted, projectRoom, cap) == TakeRooms(others, Max(1, cap))
  {
    var rest := Without(wanted, projectRoom);
    ShedKeeps(rest, cap);
    NoneToRemove(Shed(rest, cap), DEFAULT_ROOM);
  }

  /** The room that ends up broadcast to is joined, and is the one an untargeted send uses. */
  predicate InAgreement(scope: RoomScope) {
    scope.broadcastRoom in scope.rooms && ResolveSendRoom(scope.rooms, scope.projectRoom) == Some(scope.broadcastRoom)
  }

  function ProjectRoomOf(args: ScopeArgs): Room { GetOr(args.projectRoomName, args.derivedRoom) }

  predicate IsLegacy(args: ScopeArgs) { args.mode == DefaultMode || args.pinned }

  /** More rooms are wanted than the cap allows, and once the project room has given way none is left. */
  predicate NothingLeft(args: ScopeArgs) {
    var wanted, cap := WantedRooms(args, ProjectRoomOf(args)), args.maxRoomsPerPeer;
    |wanted| > cap && forall r :: r in wanted ==> r == ProjectRoomOf(args) || (r == DEFAULT_ROOM && cap <= 0)
  }

  lemma NothingLeftIff(args: ScopeArgs)
    ensures
      var wanted, p, cap := WantedRooms(args, ProjectRoomOf(args)), ProjectRoomOf(args), args.maxRoomsPerPeer;
      |wanted| > cap ==> (NothingLeft(args) <==> Capped(wanted, p, cap) == [])
  {
    hide WantedRooms, ProjectRoomOf;
    var wanted, p, cap := WantedRooms(args, ProjectRoomOf(args)), ProjectRoomOf(args), args.maxRoomsPerPeer;
    CappedIs(wanted, p, cap);
    var others := OtherRooms(wanted, p);
    assert others == [] <==> forall r :: r in wanted ==> r == p || r == DEFAULT_ROOM by {
      if others != [] { assert others[0] in others; }
    }
  }

  /**
   Exactly when scope and sending agree, for all arguments: the reported broadcast
   room is one of the returned rooms and is the room a client that joins them uses
   for an untargeted send, unless the cap leaves no room at all.
   */
  lemma ScopeAgreesIff(args: ScopeArgs)
    ensures InAgreement(ScopeOf(args)) <==> IsLegacy(args) || !NothingLeft(args)
  {
    hide WantedRooms;
    var wanted, p, cap := WantedRooms(args, ProjectRoomOf(args)), ProjectRoomOf(args), args.maxRoomsPerPeer;
    if !IsLegacy(args) {
      ProjectIsWanted(args, p);
      if |wanted| > cap {
        NothingLeftIff(args);
        hide NothingLeft;
        CappedIs(wanted, p, cap);
        var trimmed, kept := Shed(Without(wanted, p), cap), Capped(wanted, p, cap);
        assert kept != [] ==> kept[0] == trimmed[0];
        assert forall x :: x in kept ==> x in trimmed;
      }
    }
  }

  lemma ProjectIsWanted(args: ScopeArgs, projectRoom: Room)
    ensures projectRoom in WantedRooms(args, projectRoom)
  {
    hide NonBlank, WithoutStale, RemoveFirst;
  }

  /** Exactly when a scope that is neither legacy nor pinned respects the room cap. */
  lemma CapHoldsIff(args: ScopeArgs)
    requires !IsLegacy(args)
    ensures |ScopeOf(args).rooms| <= args.maxRoomsPerPeer
       <==> args.maxRoomsPerPeer >= 1 || (args.maxRoomsPerPeer == 0 && NothingLeft(args))
  {
    hide WantedRooms;
    var wanted, p, cap := WantedRooms(args, ProjectRoomOf(args)), ProjectRoomOf(args), args.maxRoomsPerPeer;
    ProjectIsWanted(args, p);
    NothingLeftIff(args);
    hide NothingLeft;
    CappedIs(wanted, p, cap);
  }

  lemma WantedNoDup(args: ScopeArgs, projectRoom: Room)
    requires NoDup(args.rooms)
    ensures NoDup(WantedRooms(args, projectRoom)) && projectRoom in WantedRooms(args, projectRoom)
  {
    var cleaned := WithoutStale(NonBlank(args.rooms), projectRoom);
    RemoveFirstNoDup(cleaned, DEFAULT_ROOM);
  }

  lemma TwoDiffer(s: seq<Room>, x: Room)
    requires NoDup(s) && |s| > 1
    ensures exists y :: y in s && y != x
  {
    assert s[0] in s && s[1] in s && s[0] != s[1];
  }

  lemma {:induction false} ShedNoDup(s: seq<Room>, cap: int)
    requires NoDup(s)
    ensures NoDup(Shed(s, cap))
    decreases |s|
  {
    if |s| > cap && DEFAULT_ROOM in s {
      RemoveFirstNoDup(s, DEFAULT_ROOM);
      ShedNoDup(RemoveFirst(s, DEFAULT_ROOM), cap);
    }
  }

  /** Duplicate-free rooms give a duplicate-free scope. */
  lemma ScopeNoDup(args: ScopeArgs)
    requires NoDup(args.rooms)
    ensures NoDup(ScopeOf(args).rooms)
  {
    hide WantedRooms;
    var wanted, p := WantedRooms(args, ProjectRoomOf(args)), ProjectRoomOf(args);
    WantedNoDup(args, p);
    WithoutNoDup(wanted, p);
    ShedNoDup(Without(wanted, p), args.maxRoomsPerPeer);
  }

  /** In particular scope and sending agree, within the cap, for duplicate-free rooms and a cap of at least one. */
  lemma ScopeAgreesWithSending(args: ScopeArgs)
    requires NoDup(args.rooms) && args.maxRoomsPerPeer >= 1
    ensures InAgreement(ScopeOf(args)) && NoDup(ScopeOf(args).rooms)
    ensures !IsLegacy(args) ==> |ScopeOf(args).rooms| <= args.maxRoomsPerPeer
  {
    hide ScopeOf, WantedRooms, InAgreement;
    ScopeNoDup(args);
    ScopeAgreesIff(args);
    if !IsLegacy(args) {
      CapHoldsIff(args);
      var wanted, p := WantedRooms(args, ProjectRoomOf(args)), ProjectRoomOf(args);
      WantedNoDup(args, p);
      if |wanted| > 1 { TwoDiffer(wanted, p); }
    }
  }

  /** Which rooms are wanted: the project room, and of the given rooms those that are
      neither blank nor stale; the default room as the mode says. */
  lemma WantedIff(args: ScopeArgs, room: Room)
    requires room != DEFAULT_ROOM
    ensures
      var p := ProjectRoomOf(args);
      room in WantedRooms(args, p) <==>
        room == p || (room in args.rooms && !IsBlank(room) && !IsStaleOwnProjectRoom(room, p))
  {
    hide IsBlank, IsStaleOwnProjectRoom;
  }

  /**
   Which rooms are returned, for all arguments. Past the cap the project room goes
   first, then the default room unless the others leave a place for it, and of the
   others the front stays.
   */
  lemma RoomSurvivesIff(args: ScopeArgs, room: Room)
    ensures
      var base, wanted := NonBlank(args.rooms), WantedRooms(args, ProjectRoomOf(args));
      var p, cap := ProjectRoomOf(args), args.maxRoomsPerPeer;
      var others := OtherRooms(wanted, p);
      room in ScopeOf(args).rooms <==>
        if IsLegacy(args) then room in base || (base == [] && room == DEFAULT_ROOM)
        else if |wanted| <= cap then room in wanted
        else if room == p then false
        else if room == DEFAULT_ROOM then room in wanted && |others| < cap
        else room in TakeRooms(others, Max(1, cap))
  {
    hide WantedRooms, NonBlank;
    var wanted, p, cap := WantedRooms(args, ProjectRoomOf(args)), ProjectRoomOf(args), args.maxRoomsPerPeer;
    CappedIs(wanted, p, cap);
    var trimmed, others := Shed(Without(wanted, p), cap), OtherRooms(wanted, p);
    assert forall x :: x in TakeRooms(others, Max(1, cap)) ==> x in others;
    assert forall x :: x in others <==> x in wanted && x != p && x != DEFAULT_ROOM;
    if |others| < cap && DEFAULT_ROOM in Without(wanted, p) {
      assert TakeRooms(others, Max(1, cap)) == others;
      assert forall x :: x in Without(trimmed, DEFAULT_ROOM) <==> x in trimmed && x != DEFAULT_ROOM;
    }
  }

  /** Two projects of the same name: each drops the other's derived room. */
  lemma SameNameDropsRoom()
    ensures
      var mine, theirs := DeriveProjectRoom("app", "bbbbbb"), DeriveProjectRoom("app", "aaaaaa");
      var args := ScopeArgs(BothMode, [theirs], mine, None, [], 16, false, false);
      mine != theirs && theirs !in ScopeOf(args).rooms && mine in ScopeOf(args).rooms
  {
    var mine, theirs := DeriveProjectRoom("app", "bbbbbb"), DeriveProjectRoom("app", "aaaaaa");
    var args := ScopeArgs(BothMode, [theirs], mine, None, [], 16, false, false);
    assert mine[|mine| - 1] == 'b' && theirs[|theirs| - 1] == 'a';
    assert theirs[0] == 'p' && mine[0] == 'p';
    DerivedStaleIffSameSlug("app", "aaaaaa", "app", "bbbbbb");
    hide DeriveProjectRoom, IsStaleOwnProjectRoom;
    WantedIff(args, theirs);
    WantedIff(args, mine);
    FewWanted(args, mine);
    RoomSurvivesIff(args, theirs);
    RoomSurvivesIff(args, mine);
  }

  lemma FewWanted(args: ScopeArgs, p: Room)
    requires |args.rooms| <= 1
    ensures |WantedRooms(args, p)| <= 3
  {
    NonBlankShrinks(args.rooms);
    StaleShrinks(NonBlank(args.rooms), p);
    hide NonBlank, WithoutStale;
  }

  lemma {:induction false} NonBlankShrinks(rooms: seq<Room>)
    ensures |NonBlank(rooms)| <= |rooms|
  {
    if rooms != [] { NonBlankShrinks(rooms[..|rooms| - 1]); }
  }

  lemma {:induction false} StaleShrinks(rooms: seq<Room>, p: Room)
    ensures |WithoutStale(rooms, p)| <= |rooms|
  {
    if rooms != [] { StaleShrinks(rooms[..|rooms| - 1], p); }
  }

  /** A repeated project room makes the reported broadcast room one that is not returned. */
  lemma DuplicatesBreakScope()
    ensures
      var args := ScopeArgs(ProjectMode, ["p", "p"], "p", None, [DEFAULT_ROOM], 1, true, false);
      ScopeOf(args).broadcastRoom !in ScopeOf(args).rooms
  {
    var args := ScopeArgs(ProjectMode, ["p", "p"], "p", None, [DEFAULT_ROOM], 1, true, false);
    var p: Room := "p";
    RepeatedIsWanted(p);
    hide WantedRooms, NonBlank;
    assert [p, p][1..] == [p];
    assert Without([p], p) == [] && Without([p, p], p) == [];
  }

  lemma PairIsKept(p: Room, projectRoom: Room)
    requires !IsBlank(p) && !IsStaleOwnProjectRoom(p, projectRoom)
    ensures NonBlank([p, p]) == [p, p] && WithoutStale([p, p], projectRoom) == [p, p]
  {
    hide IsBlank, IsStaleOwnProjectRoom;
    assert [p, p][..1] == [p] && [p][..0] == [];
    assert NonBlank([p]) == [p] && WithoutStale([p], projectRoom) == [p];
  }

  lemma RepeatedIsWanted(p: Room)
    requires p == "p"
    ensures WantedRooms(ScopeArgs(ProjectMode, [p, p], p, None, [DEFAULT_ROOM], 1, true, false), p) == [p, p]
  {
    assert !IsSpace(p[0]) && !IsBlank(p) && !IsStaleOwnProjectRoom(p, p);
    hide IsSpace, IsBlank, IsStaleOwnProjectRoom, NonBlank, WithoutStale;
    PairIsKept(p, p);
  }

  /** So does a cap of zero. */
  lemma ZeroCapBreaksScope()
    ensures
      var args := ScopeArgs(BothMode, [], "p", None, [], 0, false, false);
      ScopeOf(args).broadcastRoom == DEFAULT_ROOM && ScopeOf(args).rooms == []
  {
    var args := ScopeArgs(BothMode, [], "p", None, [], 0, false, false);
    var p: Room := "p";
    assert |p| == 1 && |DEFAULT_ROOM| == 7;
    assert WantedRooms(args, p) == [DEFAULT_ROOM, p];
    assert [DEFAULT_ROOM, p][1..] == [p];
    assert Without([p], p) == [];
    assert Without([DEFAULT_ROOM, p], p) == [DEFAULT_ROOM];
    assert RemoveFirst([DEFAULT_ROOM], DEFAULT_ROOM) == [];
    assert Shed([DEFAULT_ROOM], 0) == [];
  }
}
