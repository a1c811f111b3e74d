/**
 UTF-8 as the runtime encodes and decodes it (section 3 of RFC 3629): a decoder
 that replaces each ill-formed stretch by U+FFFD and starts afresh with every
 buffer it is given.
 */
module Utf8 {
  newtype Byte = x: int | 0 <= x < 0x100

  const REPLACEMENT: char := '\U{FFFD}'

  function EncodeChar(c: char): (bytes: seq<Byte>)
    ensures 1 <= |bytes| <= 4
  {
    var n := c as int;
    if n < 0x80 then [n as Byte]
    else if n < 0x800 then [(0xC0 + n / 64) as Byte, (0x80 + n % 64) as Byte]
    else if n < 0x10000 then
      [(0xE0 + n / 4096) as Byte, (0x80 + n / 64 % 64) as Byte, (0x80 + n % 64) as Byte]
    else
      [(0xF0 + n / 262144) as Byte, (0x80 + n / 4096 % 64) as Byte, (0x80 + n / 64 % 64) as Byte,
       (0x80 + n % 64) as Byte]
  }

  function Encode(s: string): seq<Byte> {
    if s == "" then [] else EncodeChar(s[0]) + Encode(s[1..])
  }

  predicate IsContinuation(b: Byte) { 0x80 <= b < 0xC0 }

  /** Length of the sequence that a byte begins, 0 if it begins none. */
  function Need(lead: Byte): nat {
    if lead < 0x80 then 1
    else if 0xC2 <= lead < 0xE0 then 2
    else if 0xE0 <= lead < 0xF0 then 3
    else if 0xF0 <= lead < 0xF5 then 4
    else 0
  }

  /** `b` may be byte `i` of a sequence that begins with `lead`. */
  predicate Follows(lead: Byte, i: nat, b: Byte) {
    && IsContinuation(b)
    && (i == 1 ==>
          && (lead == 0xE0 ==> b >= 0xA0) && (lead == 0xED ==> b < 0xA0)
          && (lead == 0xF0 ==> b >= 0x90) && (lead == 0xF4 ==> b < 0x90))
  }

  /** How far from `k` on the bytes continue the sequence they begin. */
  function Extent(bytes: seq<Byte>, k: nat): (n: nat)
    requires 1 <= k <= |bytes| && k <= Need(bytes[0])
    requires forall i :: 1 <= i < k ==> Follows(bytes[0], i, bytes[i])
    ensures k <= n <= |bytes| && n <= Need(bytes[0])
    ensures forall i :: 1 <= i < n ==> Follows(bytes[0], i, bytes[i])
    ensures n < |bytes| && n < Need(bytes[0]) ==> !Follows(bytes[0], n, bytes[n])
    decreases |bytes| - k
  {
    if k < |bytes| && k < Need(bytes[0]) && Follows(bytes[0], k, bytes[k]) then Extent(bytes, k + 1) else k
  }

  /** Length of the stretch at the front that becomes one character. */
  function Stretch(bytes: seq<Byte>): (n: nat)
    requires bytes != []
    ensures 1 <= n <= |bytes|
  {
    if Need(bytes[0]) == 0 then 1 else Extent(bytes, 1)
  }

  predicate IsSequence(bytes: seq<Byte>) {
    bytes != [] && |bytes| == Need(bytes[0]) && forall i :: 1 <= i < |bytes| ==> Follows(bytes[0], i, bytes[i])
  }

  function CharOf(b: seq<Byte>): char
    requires IsSequence(b)
  {
    var x := b[0] as int;
    if |b| == 1 then x as char
    else
      var y := b[1] as int - 0x80;
      if |b| == 2 then ((x - 0xC0) * 64 + y) as char
      else
        var z := b[2] as int - 0x80;
        if |b| == 3 then ((x - 0xE0) * 4096 + y * 64 + z) as char
        else ((x - 0xF0) * 262144 + y * 4096 + z * 64 + (b[3] as int - 0x80)) as char
  }

  function Decode(bytes: seq<Byte>): string {
    if bytes == [] then ""
    else
      var n := Stretch(bytes);
      [if IsSequence(bytes[..n]) then CharOf(bytes[..n]) else REPLACEMENT] + Decode(bytes[n..])
  }

  // ---- one code point ----

  lemma Digits(n: nat)
    ensures n == n / 64 * 64 + n % 64
    ensures n == n / 4096 * 4096 + n / 64 % 64 * 64 + n % 64
    ensures n == n / 262144 * 262144 + n / 4096 % 64 * 4096 + n / 64 % 64 * 64 + n % 64
  {
    assert n / 4096 == n / 64 / 64 && n / 262144 == n / 4096 / 64;
  }

  lemma CharRoundTrip(c: char)
    ensures IsSequence(EncodeChar(c)) && CharOf(EncodeChar(c)) == c && !IsContinuation(EncodeChar(c)[0])
  {
    var n, e := c as int, EncodeChar(c);
    Digits(n);
    if n < 0x80 {
      assert |e| == 1;
    } else if n < 0x800 {
      assert |e| == 2 && Follows(e[0], 1, e[1]);
    } else if n < 0x10000 {
      assert |e| == 3 && Follows(e[0], 1, e[1]) && Follows(e[0], 2, e[2]);
    } else {
      assert |e| == 4 && Follows(e[0], 1, e[1]) && Follows(e[0], 2, e[2]) && Follows(e[0], 3, e[3]);
    }
  }

  lemma ExtentOfPrefix(c: char, bytes: seq<Byte>, k: nat)
    requires bytes != [] && 1 <= k <= |bytes| && k <= |EncodeChar(c)|
    requires bytes <= EncodeChar(c) || EncodeChar(c) <= bytes
    ensures
      var e := EncodeChar(c);
      && bytes[0] == e[0] && Need(e[0]) == |e| && (forall i :: 1 <= i < k ==> Follows(bytes[0], i, bytes[i]))
      && Extent(bytes, k) == if |e| <= |bytes| then |e| else |bytes|
  {
    hide EncodeChar, CharOf, Follows;
    var e := EncodeChar(c);
    CharRoundTrip(c);
    assert forall i :: 0 <= i < |e| && i < |bytes| ==> bytes[i] == e[i];
  }

  /** A whole code point at the front becomes that code point. */
  lemma WholeChar(c: char, bytes: seq<Byte>)
    requires EncodeChar(c) <= bytes
    ensures Decode(bytes) == [c] + Decode(bytes[|EncodeChar(c)|..])
  {
    hide EncodeChar, CharOf;
    ExtentOfPrefix(c, bytes, 1);
    CharRoundTrip(c);
    assert bytes[..|EncodeChar(c)|] == EncodeChar(c);
  }

  /** A code point that is cut off becomes one replacement character. */
  lemma CutChar(c: char, bytes: seq<Byte>)
    requires bytes != [] && bytes < EncodeChar(c)
    ensures Decode(bytes) == [REPLACEMENT]
  {
    hide EncodeChar, CharOf;
    ExtentOfPrefix(c, bytes, 1);
    assert bytes[..|bytes|] == bytes && Decode(bytes[|bytes|..]) == "";
  }

  /** What is left of one becomes a replacement character per byte. */
  lemma StrayByte(bytes: seq<Byte>)
    requires bytes != [] && IsContinuation(bytes[0])
    ensures Decode(bytes) == [REPLACEMENT] + Decode(bytes[1..])
  {}

  // ---- buffers ----

  function Flat(chunks: seq<seq<Byte>>): seq<Byte> {
    if chunks == [] then [] else chunks[0] + Flat(chunks[1..])
  }

  /** Every buffer decoded on its own. */
  function DecodeEach(chunks: seq<seq<Byte>>): string {
    if chunks == [] then "" else Decode(chunks[0]) + DecodeEach(chunks[1..])
  }

  /** No buffer begins in the middle of a code point. */
  predicate CutsBetween(chunks: seq<seq<Byte>>) {
    forall c :: c in chunks && c != [] ==> !IsContinuation(c[0])
  }

  function Replacements(s: string): nat {
    if s == "" then 0 else (if s[0] == REPLACEMENT then 1 else 0) + Replacements(s[1..])
  }

  predicate AllContinuation(tail: seq<Byte>) { forall b :: b in tail ==> IsContinuation(b) }

  /** The buffers after the first `n` bytes of the first one. */
  function Beyond(chunks: seq<seq<Byte>>, n: nat): seq<seq<Byte>>
    requires chunks != [] && n <= |chunks[0]|
  {
    [chunks[0][n..]] + chunks[1..]
  }

  lemma BeyondFirst(chunks: seq<seq<Byte>>, n: nat, c: char)
    requires chunks != [] && n <= |chunks[0]| && Decode(chunks[0]) == [c] + Decode(chunks[0][n..])
    ensures Flat(Beyond(chunks, n)) == Flat(chunks)[n..]
    ensures DecodeEach(chunks) == [c] + DecodeEach(Beyond(chunks, n))
  {
    hide Decode;
    assert Beyond(chunks, n)[1..] == chunks[1..];
  }

  lemma {:induction false} FirstByte(chunks: seq<seq<Byte>>)
    requires Flat(chunks) != [] && IsContinuation(Flat(chunks)[0])
    ensures !CutsBetween(chunks)
  {
    if chunks[0] == [] {
      FirstByte(chunks[1..]);
      var c :| c in chunks[1..] && c != [] && IsContinuation(c[0]);
      assert c in chunks;
    } else {
      assert chunks[0] in chunks;
    }
  }

  // ---- what cuts do to a text ----

  lemma ReplacementsCons(c: char, s: string)
    ensures Replacements([c] + s) == (if c == REPLACEMENT then 1 else 0) + Replacements(s)
  {
    assert ([c] + s)[1..] == s;
  }

  /** What comes of the rest of a code point followed by `s`: the text, if nothing was
      and nothing is cut, and otherwise more replacement characters than it has. */
  ghost predicate Becomes(chunks: seq<seq<Byte>>, tail: seq<Byte>, s: string) {
    var out := DecodeEach(chunks);
    && Replacements(out) >= Replacements(s) + |tail|
    && (tail == [] ==> if CutsBetween(chunks) then out == s else Replacements(out) > Replacements(s))
  }

  lemma StrayStep(chunks: seq<seq<Byte>>, tail: seq<Byte>, s: string)
    requires chunks != [] && chunks[0] != [] && tail != [] && AllContinuation(tail)
    requires Flat(chunks) == tail + Encode(s) && Becomes(Beyond(chunks, 1), tail[1..], s)
    ensures Becomes(chunks, tail, s)
  {
    hide Decode, CutsBetween, Encode;
    assert chunks[0][0] == Flat(chunks)[0] == tail[0];
    StrayByte(chunks[0]);
    BeyondFirst(chunks, 1, REPLACEMENT);
    ReplacementsCons(REPLACEMENT, DecodeEach(Beyond(chunks, 1)));
  }

  lemma WholeStep(chunks: seq<seq<Byte>>, s: string)
    requires chunks != [] && s != "" && |EncodeChar(s[0])| <= |chunks[0]|
    requires Flat(chunks) == Encode(s) && Becomes(Beyond(chunks, |EncodeChar(s[0])|), [], s[1..])
    ensures Becomes(chunks, [], s)
  {
    hide Decode, EncodeChar, CutsBetween, IsContinuation;
    var n := |EncodeChar(s[0])|;
    assert chunks[0][..n] == Flat(chunks)[..n] == EncodeChar(s[0]);
    WholeChar(s[0], chunks[0]);
    BeyondFirst(chunks, n, s[0]);
    WholeKeepsCuts(chunks, s);
    ReplacementsCons(s[0], DecodeEach(Beyond(chunks, n)));
    assert [s[0]] + s[1..] == s;
  }

  lemma EncodedBeginsWhole(s: string)
    ensures Encode(s) != [] ==> !IsContinuation(Encode(s)[0])
  {
    hide EncodeChar, IsContinuation;
    if s != "" { CharRoundTrip(s[0]); }
  }

  lemma WholeKeepsCuts(chunks: seq<seq<Byte>>, s: string)
    requires chunks != [] && s != "" && EncodeChar(s[0]) <= chunks[0] && Flat(chunks) == Encode(s)
    ensures CutsBetween(chunks) <==> CutsBetween(Beyond(chunks, |EncodeChar(s[0])|))
  {
    hide EncodeChar, IsContinuation;
    var n := |EncodeChar(s[0])|;
    var first, rest := chunks[0], chunks[1..];
    CharRoundTrip(s[0]);
    EncodedBeginsWhole(s[1..]);
    assert first[n..] + Flat(rest) == Flat(chunks)[n..] == Encode(s[1..]);
    assert chunks == [first] + rest;
  }

  lemma CutStep(chunks: seq<seq<Byte>>, s: string)
    requires chunks != [] && chunks[0] != [] && s != "" && |chunks[0]| < |EncodeChar(s[0])|
    requires Flat(chunks) == Encode(s) && Becomes(chunks[1..], EncodeChar(s[0])[|chunks[0]|..], s[1..])
    requires !CutsBetween(chunks[1..])
    ensures Becomes(chunks, [], s)
  {
    hide Decode, EncodeChar, IsContinuation;
    var k := |chunks[0]|;
    assert chunks[0] == Flat(chunks)[..k] == EncodeChar(s[0])[..k];
    CutChar(s[0], chunks[0]);
    ReplacementsCons(REPLACEMENT, DecodeEach(chunks[1..]));
    assert !CutsBetween(chunks) by { assert forall c :: c in chunks[1..] ==> c in chunks; }
  }

  lemma RestOfChar(c: char, k: nat)
    requires 1 <= k <= |EncodeChar(c)|
    ensures AllContinuation(EncodeChar(c)[k..])
  {
    hide EncodeChar, CharOf;
    CharRoundTrip(c);
  }

  lemma {:induction false} CutsBecome(chunks: seq<seq<Byte>>, tail: seq<Byte>, s: string)
    requires Flat(chunks) == tail + Encode(s) && AllContinuation(tail)
    ensures Becomes(chunks, tail, s)
    decreases |Flat(chunks)| + |chunks|
  {
    hide Becomes, EncodeChar, AllContinuation, CutsBetween;
    if chunks == [] {
      NothingComes(tail, s);
    } else if chunks[0] == [] {
      CutsBecome(chunks[1..], tail, s);
      EmptyStep(chunks, tail, s);
    } else if tail != [] {
      StrayRest(chunks, tail, s);
      CutsBecome(Beyond(chunks, 1), tail[1..], s);
      StrayStep(chunks, tail, s);
    } else {
      var n := |EncodeChar(s[0])|;
      if n <= |chunks[0]| {
        WholeRest(chunks, s);
        CutsBecome(Beyond(chunks, n), [], s[1..]);
        WholeStep(chunks, s);
      } else {
        CutRest(chunks, s);
        CutsBecome(chunks[1..], EncodeChar(s[0])[|chunks[0]|..], s[1..]);
        CutStep(chunks, s);
      }
    }
  }

  lemma NothingComes(tail: seq<Byte>, s: string)
    requires tail + Encode(s) == []
    ensures Becomes([], tail, s)
  {
    hide EncodeChar;
  }

  lemma EmptyStep(chunks: seq<seq<Byte>>, tail: seq<Byte>, s: string)
    requires chunks != [] && chunks[0] == [] && Becomes(chunks[1..], tail, s)
    ensures Becomes(chunks, tail, s)
  {
    assert CutsBetween(chunks) == CutsBetween(chunks[1..]) by { assert chunks == [[]] + chunks[1..]; }
    assert Decode([]) + DecodeEach(chunks[1..]) == DecodeEach(chunks[1..]);
  }

  lemma BeyondIsShorter(chunks: seq<seq<Byte>>, n: nat)
    requires chunks != [] && n <= |chunks[0]|
    ensures Flat(Beyond(chunks, n)) == Flat(chunks)[n..] && |Beyond(chunks, n)| == |chunks|
  {
    assert Beyond(chunks, n)[1..] == chunks[1..];
  }

  lemma StrayRest(chunks: seq<seq<Byte>>, tail: seq<Byte>, s: string)
    requires chunks != [] && chunks[0] != [] && tail != [] && AllContinuation(tail) && Flat(chunks) == tail + Encode(s)
    ensures Flat(Beyond(chunks, 1)) == tail[1..] + Encode(s) && AllContinuation(tail[1..])
    ensures |Flat(Beyond(chunks, 1))| + |Beyond(chunks, 1)| < |Flat(chunks)| + |chunks|
  {
    hide Encode;
    BeyondIsShorter(chunks, 1);
  }

  lemma WholeRest(chunks: seq<seq<Byte>>, s: string)
    requires chunks != [] && s != "" && |EncodeChar(s[0])| <= |chunks[0]| && Flat(chunks) == Encode(s)
    ensures
      var beyond := Beyond(chunks, |EncodeChar(s[0])|);
      Flat(beyond) == [] + Encode(s[1..]) && |Flat(beyond)| + |beyond| < |Flat(chunks)| + |chunks|
  {
    hide EncodeChar;
    BeyondIsShorter(chunks, |EncodeChar(s[0])|);
  }

  lemma CutRest(chunks: seq<seq<Byte>>, s: string)
    requires chunks != [] && chunks[0] != [] && s != "" && |chunks[0]| < |EncodeChar(s[0])|
    requires Flat(chunks) == Encode(s)
    ensures
      var tail := EncodeChar(s[0])[|chunks[0]|..];
      Flat(chunks[1..]) == tail + Encode(s[1..]) && AllContinuation(tail) && !CutsBetween(chunks[1..])
  {
    hide EncodeChar, CutsBetween;
    var k := |chunks[0]|;
    assert Flat(chunks[1..]) == Flat(chunks)[k..] == EncodeChar(s[0])[k..] + Encode(s[1..]);
    RestOfChar(s[0], k);
    FirstByte(chunks[1..]);
  }

  /**
   A text that arrives as buffers is decoded right, buffer by buffer, if and only if
   no buffer begins in the middle of a code point. Otherwise the result has more
   replacement characters than the text.
   */
  lemma DecodedRightIff(chunks: seq<seq<Byte>>, s: string)
    requires Flat(chunks) == Encode(s)
    ensures DecodeEach(chunks) == s <==> CutsBetween(chunks)
    ensures !CutsBetween(chunks) ==> Replacements(DecodeEach(chunks)) > Replacements(s)
  {
    hide EncodeChar, DecodeEach, CutsBetween;
    assert [] + Encode(s) == Encode(s);
    CutsBecome(chunks, [], s);
  }
}
