/**
 Vocabulary shared by the broker, the client and the delivery buffers:
 names, roles, priorities, the message frame and the room grammar.
 */
module Common {

  datatype Option<+T> = None | Some(value: T)

  type Alias = string
  type Room = string
  type MsgId = string
  type Sock = nat

  datatype Role = Member | Observer

  datatype Priority = Normal | Urgent | Force

  /** A directed, capability-routed or broadcast message frame. */
  datatype Msg = Msg(
    id: MsgId,
    from: Alias,
    to: Option<string>,
    room: Option<Room>,
    priority: Option<Priority>,
    broadcast: bool,
    interrupt: bool,
    routedCap: Option<string>,
    routedTo: Option<Alias>,
    body: string)

  /** One offline-mailbox entry: the frame and the time it was enqueued (ms). */
  datatype Stored = Stored(frame: Msg, enqueuedAt: int)

  const DEFAULT_ROOM: Room := "default"
  const MAX_PEERS_PER_ROOM := 64
  const MAX_ROOM_CHARS := 64

  function GetOr<T>(o: Option<T>, default: T): T {
    match o
    case Some(v) => v
    case None => default
  }

  function Max(a: int, b: int): int { if a >= b then a else b }

  predicate NoDup<T(==)>(s: seq<T>) {
    forall i, j :: 0 <= i < j < |s| ==> s[i] != s[j]
  }

  predicate IsLowerOrDigit(c: char) { 'a' <= c <= 'z' || '0' <= c <= '9' }

  /** The room grammar `[a-z0-9][a-z0-9.-]{0,63}`. */
  predicate IsValidRoom(room: Room) {
    && 1 <= |room| <= MAX_ROOM_CHARS
    && IsLowerOrDigit(room[0])
    && forall i :: 0 < i < |room| ==> IsLowerOrDigit(room[i]) || room[i] == '.' || room[i] == '-'
  }

  /** White space as string trimming sees it. */
  predicate IsSpace(c: char) {
    || c == ' ' || '\U{0009}' <= c <= '\U{000D}' || c == '\U{00A0}' || c == '\U{1680}'
    || '\U{2000}' <= c <= '\U{200A}' || c == '\U{2028}' || c == '\U{2029}' || c == '\U{202F}'
    || c == '\U{205F}' || c == '\U{3000}' || c == '\U{FEFF}'
  }

  /** True when nothing is left of `s` after trimming. */
  predicate IsBlank(s: string) { forall i :: 0 <= i < |s| ==> IsSpace(s[i]) }

  /** `s` without any occurrence of `x`, order kept. */
  function Without(s: seq<string>, x: string): (r: seq<string>)
    ensures forall y :: y in r <==> y in s && y != x
    ensures |r| <= |s|
    ensures x in s ==> |r| < |s|
  {
    if s == [] then []
    else
      var rest := Without(s[1..], x);
      assert s == [s[0]] + s[1..];
      if s[0] == x then rest else [s[0]] + rest
  }

  lemma {:induction false} WithoutNoDup(s: seq<string>, x: string)
    requires NoDup(s)
    ensures NoDup(Without(s, x))
    ensures x in s ==> |Without(s, x)| == |s| - 1
    ensures x !in s ==> Without(s, x) == s
  {
    if s == [] {
    } else {
      var head, tail := s[0], s[1..];
      assert s == [head] + tail;
      assert NoDup(tail) && head !in tail;
      WithoutNoDup(tail, x);
      if head != x {
        PrependNoDup(head, Without(tail, x));
      }
    }
  }

  lemma PrependNoDup<T>(x: T, s: seq<T>)
    requires NoDup(s) && x !in s
    ensures NoDup([x] + s)
  {}

  lemma AppendNoDup<T>(s: seq<T>, x: T)
    requires NoDup(s) && x !in s
    ensures NoDup(s + [x])
  {}
}
