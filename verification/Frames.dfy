/**
 NDJSON framing: one frame per line, an incremental decoder, a size limit.
 Text is a sequence of code points; a frame's JSON text has no newline
 (section 7 of RFC 8259) and is never empty. The decoder is given text or bytes;
 it decodes every buffer of bytes on its own.
 */
module Frames {
  import opened Common
  import opened Utf8

  /** UTF-8 length of one code point. */
  function CharBytes(c: char): nat {
    var n := c as int;
    if n < 0x80 then 1 else if n < 0x800 then 2 else if n < 0x10000 then 3 else 4
  }

  function ByteLength(s: string): nat {
    if s == "" then 0 else ByteLength(s[..|s| - 1]) + CharBytes(s[|s| - 1])
  }

  const NEWLINE := '\n'

  /** Position of the first newline, or |s|. */
  function LineEnd(s: string): (i: nat)
    ensures i <= |s| && (i < |s| ==> s[i] == NEWLINE)
    ensures forall j :: 0 <= j < i ==> s[j] != NEWLINE
  {
    if s == "" || s[0] == NEWLINE then 0 else 1 + LineEnd(s[1..])
  }

  /** The bytes of a frame, unless there are too many. */
  function EncodeFrame(json: string, maxBytes: nat): Option<seq<Byte>> {
    var bytes := Encode(json + [NEWLINE]);
    if |bytes| > maxBytes then None else Some(bytes)
  }

  datatype Chunk = Buffer(bytes: seq<Byte>) | Text(text: string)

  function TextOf(chunk: Chunk): string {
    match chunk
    case Buffer(bytes) => Decode(bytes)
    case Text(text) => text
  }

  datatype Outcome = Oversized | Decoded(lines: seq<string>, rest: string)

  function Prepend(lines: seq<string>, o: Outcome): Outcome {
    match o
    case Oversized => Oversized
    case Decoded(more, rest) => Decoded(lines + more, rest)
  }

  function NonEmpty(line: string): seq<string> { if line == "" then [] else [line] }

  /** The complete lines of a buffer and the partial line that remains, unless a
      line or the partial line is too long. */
  function Drain(buf: string, maxBytes: nat): Outcome
    decreases |buf|
  {
    var i := LineEnd(buf);
    if i == |buf| then
      if ByteLength(buf) > maxBytes then Oversized else Decoded([], buf)
    else if ByteLength(buf[..i]) > maxBytes then Oversized
    else Prepend(NonEmpty(buf[..i]), Drain(buf[i + 1..], maxBytes))
  }

  /** What stays buffered after a push, also when it fails. */
  function Leftover(buf: string, maxBytes: nat): string
    decreases |buf|
  {
    var i := LineEnd(buf);
    if i == |buf| then buf
    else if ByteLength(buf[..i]) > maxBytes then buf[i + 1..]
    else Leftover(buf[i + 1..], maxBytes)
  }

  class FrameDecoder {
    const maxBytes: nat
    var buf: string
    var bufBytes: nat

    ghost predicate Valid()
      reads this
    {
      bufBytes == ByteLength(buf)
    }

    constructor (maxBytes: nat)
      ensures Valid() && buf == "" && this.maxBytes == maxBytes
    {
      this.maxBytes := maxBytes;
      buf, bufBytes := "", 0;
    }

    method Push(chunk: Chunk) returns (lines: Option<seq<string>>)
      requires Valid()
      modifies this
      ensures Valid() && buf == Leftover(old(buf) + TextOf(chunk), maxBytes)
      ensures lines == match Drain(old(buf) + TextOf(chunk), maxBytes)
                       case Oversized => None
                       case Decoded(ls, rest) => Some(ls)
    {
      hide TextOf;
      buf := buf + TextOf(chunk);
      bufBytes := ByteLength(buf);
      ghost var all := buf;
      var out: seq<string> := [];
      PrependTwice([], [], Drain(buf, maxBytes));
      var idx := LineEnd(buf);
      while idx < |buf|
        invariant Valid() && idx == LineEnd(buf)
        invariant Drain(all, maxBytes) == Prepend(out, Drain(buf, maxBytes))
        invariant Leftover(all, maxBytes) == Leftover(buf, maxBytes)
        decreases |buf|
      {
        var line := buf[..idx];
        PrependTwice(out, NonEmpty(line), Drain(buf[idx + 1..], maxBytes));
        assert out + [] == out;
        buf := buf[idx + 1..];
        bufBytes := ByteLength(buf);
        if ByteLength(line) > maxBytes { return None; }
        if |line| > 0 { out := out + [line]; }
        idx := LineEnd(buf);
      }
      if bufBytes > maxBytes { return None; }
      assert out + [] == out;
      lines := Some(out);
    }
  }

  function Concat(chunks: seq<string>): string {
    if chunks == [] then "" else Concat(chunks[..|chunks| - 1]) + chunks[|chunks| - 1]
  }

  /** All lines a decoder returns for a sequence of pushes, and its final buffer;
      `Oversized` as soon as one push fails. */
  function Feed(chunks: seq<string>, maxBytes: nat): Outcome {
    if chunks == [] then Decoded([], "")
    else
      match Feed(chunks[..|chunks| - 1], maxBytes)
      case Oversized => Oversized
      case Decoded(lines, rest) => Prepend(lines, Drain(rest + chunks[|chunks| - 1], maxBytes))
  }

  /** The length that the size limit speaks of is that of the encoded text. */
  lemma {:induction false} ByteLengthIsEncoded(s: string)
    ensures ByteLength(s) == |Encode(s)|
  {
    if s != "" {
      assert s == [s[0]] + s[1..];
      ByteLengthConcat([s[0]], s[1..]);
      ByteLengthIsEncoded(s[1..]);
    }
  }

  lemma {:induction false} ByteLengthConcat(a: string, b: string)
    ensures ByteLength(a + b) == ByteLength(a) + ByteLength(b)
  {
    if b == "" {
      assert a + b == a;
    } else {
      ByteLengthConcat(a, b[..|b| - 1]);
      assert (a + b)[..|a + b| - 1] == a + b[..|b| - 1];
    }
  }

  lemma {:induction false} LineEndOfConcat(a: string, b: string)
    ensures LineEnd(a + b) == if LineEnd(a) < |a| then LineEnd(a) else |a| + LineEnd(b)
  {
    var s := a + b;
    assert forall j :: 0 <= j < |a| ==> s[j] == a[j];
    assert forall j :: 0 <= j < |b| ==> s[|a| + j] == b[j];
    var want := if LineEnd(a) < |a| then LineEnd(a) else |a| + LineEnd(b);
    assert want < |s| ==> s[want] == NEWLINE;
    assert forall j :: 0 <= j < want ==> s[j] != NEWLINE by {
      forall j | 0 <= j < want ensures s[j] != NEWLINE {
        if j >= |a| { assert s[j] == b[j - |a|]; }
      }
    }
  }

  lemma PrependTwice(a: seq<string>, b: seq<string>, o: Outcome)
    ensures Prepend(a, Prepend(b, o)) == Prepend(a + b, o)
    ensures Prepend([], o) == o
  {
    if o.Decoded? { assert a + (b + o.lines) == a + b + o.lines && [] + o.lines == o.lines; }
  }

  /** A partial line that is already too long stays too long. */
  lemma {:induction false} PartialLineSplit(a: string, b: string, maxBytes: nat)
    requires LineEnd(a) == |a|
    ensures ByteLength(a) > maxBytes ==> Drain(a + b, maxBytes) == Oversized
  {
    LineEndOfConcat(a, b);
    var k := LineEnd(b);
    assert (a + b)[..|a| + k] == a + b[..k];
    ByteLengthConcat(a, b[..k]);
    if k == |b| { assert b[..k] == b; }
  }

  /** Draining a buffer whose first line is complete. */
  lemma {:induction false} DrainLine(line: string, tail: string, maxBytes: nat)
    requires LineEnd(line) == |line|
    ensures Drain(line + [NEWLINE] + tail, maxBytes)
         == if ByteLength(line) > maxBytes then Oversized else Prepend(NonEmpty(line), Drain(tail, maxBytes))
  {
    var s := line + [NEWLINE] + tail;
    LineEndOfConcat(line, [NEWLINE] + tail);
    assert line + ([NEWLINE] + tail) == s && ([NEWLINE] + tail)[0] == NEWLINE;
    assert s[..|line|] == line && s[|line| + 1..] == tail;
  }

  function Join(o: Outcome, b: string, maxBytes: nat): Outcome {
    match o
    case Oversized => Oversized
    case Decoded(lines, rest) => Prepend(lines, Drain(rest + b, maxBytes))
  }

  /** Draining in two parts is draining at once. */
  lemma {:induction false} DrainSplit(a: string, b: string, maxBytes: nat)
    ensures Drain(a + b, maxBytes) == Join(Drain(a, maxBytes), b, maxBytes)
    decreases |a|
  {
    var i := LineEnd(a);
    if i == |a| {
      PartialLineSplit(a, b, maxBytes);
      PrependTwice([], [], Drain(a + b, maxBytes));
    } else {
      var line, tail := a[..i], a[i + 1..];
      assert a == line + [NEWLINE] + tail;
      assert a + b == line + [NEWLINE] + (tail + b);
      assert LineEnd(line) == |line|;
      DrainLine(line, tail, maxBytes);
      DrainLine(line, tail + b, maxBytes);
      DrainSplit(tail, b, maxBytes);
      var o := Drain(tail, maxBytes);
      if o.Decoded? {
        PrependTwice(NonEmpty(line), o.lines, Drain(o.rest + b, maxBytes));
      }
    }
  }

  /**
   Chunk invariance, for every text: however it is cut between code points, the
   decoder returns the same lines, keeps the same partial line, and fails with
   a size error in the same cases as if the text had arrived at once.
   */
  lemma {:induction false} ChunkingDoesNotMatter(chunks: seq<string>, maxBytes: nat)
    ensures Feed(chunks, maxBytes) == Drain(Concat(chunks), maxBytes)
  {
    if chunks != [] {
      var front, last := chunks[..|chunks| - 1], chunks[|chunks| - 1];
      ChunkingDoesNotMatter(front, maxBytes);
      DrainSplit(Concat(front), last, maxBytes);
    }
  }

  // ---- the size limit ----

  /** No line feed in it. */
  predicate IsLine(line: string) { forall i :: 0 <= i < |line| ==> line[i] != NEWLINE }

  function NonEmptyOf(lines: seq<string>): seq<string> {
    if lines == [] then [] else NonEmpty(lines[0]) + NonEmptyOf(lines[1..])
  }

  /** Encoded, the line is longer than the limit. */
  predicate TooLong(line: string, maxBytes: nat) { |Encode(line)| > maxBytes }

  ghost predicate SomeTooLong(lines: seq<string>, maxBytes: nat) {
    exists i :: 0 <= i < |lines| && TooLong(lines[i], maxBytes)
  }

  /**
   What a buffer decodes to, in terms of its lines: a size error if and only if one of them, or the partial
   line at the end, takes more bytes than the limit; otherwise its lines, without the empty ones, and that end.
   */
  lemma {:induction false} BufferIsItsLines(lines: seq<string>, rest: string, maxBytes: nat)
    requires IsLine(rest) && forall i :: 0 <= i < |lines| ==> IsLine(lines[i])
    ensures Drain(Stream(lines) + rest, maxBytes)
         == if SomeTooLong(lines, maxBytes) || TooLong(rest, maxBytes) then Oversized
            else Decoded(NonEmptyOf(lines), rest)
  {
    if lines == [] {
      assert "" + rest == rest;
      ByteLengthIsEncoded(rest);
    } else {
      var line, tail := lines[0], Stream(lines[1..]) + rest;
      assert Stream(lines) + rest == line + [NEWLINE] + tail;
      BufferIsItsLines(lines[1..], rest, maxBytes);
      DrainLine(line, tail, maxBytes);
      ByteLengthIsEncoded(line);
      SomeTooLongCons(lines, maxBytes);
      hide Drain, SomeTooLong, Stream;
    }
  }

  lemma SomeTooLongCons(lines: seq<string>, maxBytes: nat)
    requires lines != []
    ensures SomeTooLong(lines, maxBytes) <==> TooLong(lines[0], maxBytes) || SomeTooLong(lines[1..], maxBytes)
  {
    hide TooLong;
    if SomeTooLong(lines[1..], maxBytes) {
      var i :| 0 <= i < |lines[1..]| && TooLong(lines[1..][i], maxBytes);
      assert lines[i + 1] == lines[1..][i];
    }
    if SomeTooLong(lines, maxBytes) && !TooLong(lines[0], maxBytes) {
      var i :| 0 <= i < |lines| && TooLong(lines[i], maxBytes);
      assert lines[1..][i - 1] == lines[i];
    }
  }

  // ---- round trip ----

  predicate IsFrameText(json: string) { json != "" && NEWLINE !in json }

  /** The text of a sequence of frames. */
  function Stream(frames: seq<string>): string {
    if frames == [] then "" else frames[0] + [NEWLINE] + Stream(frames[1..])
  }

  predicate Sendable(frames: seq<string>, maxBytes: nat) {
    forall f :: f in frames ==> IsFrameText(f) && EncodeFrame(f, maxBytes).Some?
  }

  lemma {:induction false} DrainStream(frames: seq<string>, maxBytes: nat)
    requires Sendable(frames, maxBytes)
    ensures Drain(Stream(frames), maxBytes) == Decoded(frames, "")
  {
    if frames != [] {
      var f, tail := frames[0], Stream(frames[1..]);
      DrainStream(frames[1..], maxBytes);
      assert f in frames;
      ByteLengthConcat(f, [NEWLINE]);
      ByteLengthIsEncoded(f + [NEWLINE]);
      assert LineEnd(f) == |f|;
      DrainLine(f, tail, maxBytes);
      assert [f] + frames[1..] == frames;
    }
  }

  /**
   Round trip: the text of frames, cut anywhere between code points, decodes to
   exactly the original frames, in order, with nothing left over.
   */
  lemma {:induction false} FramesRoundTrip(frames: seq<string>, chunks: seq<string>, maxBytes: nat)
    requires Sendable(frames, maxBytes) && Concat(chunks) == Stream(frames)
    ensures Feed(chunks, maxBytes) == Decoded(frames, "")
  {
    ChunkingDoesNotMatter(chunks, maxBytes);
    DrainStream(frames, maxBytes);
  }

  /** While such a stream is still arriving, what was decoded so far is a prefix
      of the frames and no size error has occurred. */
  lemma {:induction false} PartialStreamDecodesPrefix(frames: seq<string>, chunks: seq<string>, rest: string,
      maxBytes: nat)
    requires Sendable(frames, maxBytes) && Concat(chunks) + rest == Stream(frames)
    ensures Feed(chunks, maxBytes).Decoded? && Feed(chunks, maxBytes).lines <= frames
  {
    ChunkingDoesNotMatter(chunks, maxBytes);
    DrainSplit(Concat(chunks), rest, maxBytes);
    DrainStream(frames, maxBytes);
  }

  // ---- bytes ----

  /** What the decoder makes of buffers of bytes. */
  function Texts(chunks: seq<seq<Byte>>): seq<string> {
    if chunks == [] then [] else [Decode(chunks[0])] + Texts(chunks[1..])
  }

  lemma ConcatSnoc(xs: seq<string>, last: string)
    ensures Concat(xs + [last]) == Concat(xs) + last
  {
    assert (xs + [last])[..|xs|] == xs;
  }

  lemma {:induction false} ConcatFront(x: string, xs: seq<string>)
    ensures Concat([x] + xs) == x + Concat(xs)
  {
    if xs == [] {
      assert [x] + xs == [x] && [x][..0] == [];
      assert Concat([x]) == "" + x;
    } else {
      var front, last := xs[..|xs| - 1], xs[|xs| - 1];
      ConcatSnoc([x] + front, last);
      assert [x] + front + [last] == [x] + xs;
      ConcatFront(x, front);
      hide Concat;
      assert x + Concat(front) + last == x + (Concat(front) + last);
      assert Concat(xs) == Concat(front) + last by { ConcatSnoc(front, last); assert front + [last] == xs; }
    }
  }

  lemma {:induction false} TextsAre(chunks: seq<seq<Byte>>)
    ensures Concat(Texts(chunks)) == DecodeEach(chunks)
  {
    hide Decode;
    if chunks != [] {
      TextsAre(chunks[1..]);
      ConcatFront(Decode(chunks[0]), Texts(chunks[1..]));
    }
  }

  lemma {:induction false} ReplacementsConcat(a: string, b: string)
    ensures Replacements(a + b) == Replacements(a) + Replacements(b)
  {
    if a == "" {
      assert a + b == b;
    } else {
      ReplacementsConcat(a[1..], b);
      assert (a + b)[1..] == a[1..] + b;
    }
  }

  function LineReplacements(lines: seq<string>): nat {
    if lines == [] then 0 else Replacements(lines[0]) + LineReplacements(lines[1..])
  }

  /** Draining loses no replacement character. */
  lemma {:induction false} DrainKeepsReplacements(buf: string, maxBytes: nat)
    requires Drain(buf, maxBytes).Decoded?
    ensures
      var o := Drain(buf, maxBytes);
      Replacements(buf) == LineReplacements(o.lines) + Replacements(o.rest)
    decreases |buf|
  {
    var i := LineEnd(buf);
    if i < |buf| {
      var line, tail := buf[..i], buf[i + 1..];
      assert buf == line + [NEWLINE] + tail && LineEnd(line) == |line|;
      DrainLine(line, tail, maxBytes);
      hide Drain, Replacements, LineReplacements, LineEnd;
      DrainKeepsReplacements(tail, maxBytes);
      LineAndTail(line, tail, Drain(tail, maxBytes).lines);
    }
  }

  lemma LineAndTail(line: string, tail: string, lines: seq<string>)
    ensures Replacements(line + [NEWLINE] + tail) == Replacements(line) + Replacements(tail)
    ensures LineReplacements(NonEmpty(line) + lines) == Replacements(line) + LineReplacements(lines)
  {
    ReplacementsConcat(line, [NEWLINE] + tail);
    ReplacementsCons(NEWLINE, tail);
    assert line + ([NEWLINE] + tail) == line + [NEWLINE] + tail;
    if line == "" {
      assert [] + lines == lines;
    } else {
      assert ([line] + lines)[1..] == lines;
    }
  }

  /**
   Chunk invariance for bytes: a text whose bytes are cut between code points is decoded
   as if it had arrived at once; cut anywhere else it is not, whatever the decoder returns.
   */
  lemma ByteChunkingIff(s: string, chunks: seq<seq<Byte>>, maxBytes: nat)
    requires Flat(chunks) == Encode(s)
    ensures
      var o := Feed(Texts(chunks), maxBytes);
      if CutsBetween(chunks) then o == Drain(s, maxBytes) else o == Oversized || o != Drain(s, maxBytes)
  {
    hide CutsBetween, Encode;
    ChunkingDoesNotMatter(Texts(chunks), maxBytes);
    TextsAre(chunks);
    DecodedRightIff(chunks, s);
    hide Drain, Replacements;
    if !CutsBetween(chunks) && Drain(DecodeEach(chunks), maxBytes).Decoded? {
      DrainKeepsReplacements(DecodeEach(chunks), maxBytes);
      if Drain(s, maxBytes).Decoded? { DrainKeepsReplacements(s, maxBytes); }
    }
  }

  /** Round trip for bytes: encoded frames decode to the original frames if and only if
      no buffer begins in the middle of a code point. */
  lemma FramesRoundTripIff(frames: seq<string>, chunks: seq<seq<Byte>>, maxBytes: nat)
    requires Sendable(frames, maxBytes) && Flat(chunks) == Encode(Stream(frames))
    ensures Feed(Texts(chunks), maxBytes) == Decoded(frames, "") <==> CutsBetween(chunks)
  {
    DrainStream(frames, maxBytes);
    hide Sendable, CutsBetween, Encode, Stream, Feed, Drain;
    ByteChunkingIff(Stream(frames), chunks, maxBytes);
  }

  const ACCENTED: char := '\U{E9}'

  lemma AccentedBytes()
    ensures EncodeChar(ACCENTED) == [0xC3, 0xA9] && EncodeChar(NEWLINE) == [0x0A]
    ensures Encode([ACCENTED, NEWLINE]) == [0xC3, 0xA9, 0x0A]
  {
    assert [ACCENTED, NEWLINE][1..] == [NEWLINE] && [NEWLINE][1..] == [];
    assert Encode([NEWLINE]) == [0x0A];
  }

  const SPLIT: seq<seq<Byte>> := [[0xC3], [0xA9, 0x0A]]

  lemma AccentedIsSendable()
    ensures Stream([[ACCENTED]]) == [ACCENTED, NEWLINE] && Sendable([[ACCENTED]], 10)
  {
    hide Encode;
    AccentedBytes();
    assert [ACCENTED] + [NEWLINE] == [ACCENTED, NEWLINE];
    assert Stream([[ACCENTED]]) == [ACCENTED] + [NEWLINE] + Stream([]);
  }

  lemma SplitDecodes()
    ensures Flat(SPLIT) == [0xC3, 0xA9, 0x0A] && DecodeEach(SPLIT) == [REPLACEMENT, REPLACEMENT] + [NEWLINE] + ""
  {
    hide Decode, EncodeChar;
    AccentedBytes();
    CutChar(ACCENTED, [0xC3]);
    StrayByte([0xA9, 0x0A]);
    WholeChar(NEWLINE, [0x0A]);
    DecodeNothing();
    var last, bytes: seq<Byte> := SPLIT[1..], [0xA9, 0x0A];
    assert bytes[1..] == [0x0A] && bytes[1..][1..] == [];
    assert last[1..] == [] && Flat(last) == [0xA9, 0x0A] + [] && DecodeEach(last) == [REPLACEMENT, NEWLINE] + "";
  }

  /** An accented letter whose two bytes arrive one by one becomes two replacement characters. */
  lemma SplitCodePoint()
    ensures Flat(SPLIT) == Encode(Stream([[ACCENTED]])) && Sendable([[ACCENTED]], 10)
    ensures Feed(Texts(SPLIT), 10) == Decoded([[REPLACEMENT, REPLACEMENT]], "")
  {
    hide Encode, Feed, Drain, Stream, Sendable, Texts, Flat, DecodeEach;
    AccentedBytes();
    AccentedIsSendable();
    SplitDecodes();
    TextsAre(SPLIT);
    ChunkingDoesNotMatter(Texts(SPLIT), 10);
    TwoReplacements();
  }

  lemma DecodeNothing()
    ensures Decode([]) == ""
  {}

  lemma TwoReplacements()
    ensures Drain([REPLACEMENT, REPLACEMENT] + [NEWLINE] + "", 10) == Decoded([[REPLACEMENT, REPLACEMENT]], "")
  {
    var two := [REPLACEMENT, REPLACEMENT];
    assert two[..1] == [REPLACEMENT] && [REPLACEMENT][..0] == [];
    assert ByteLength([REPLACEMENT]) == 3 && ByteLength(two) == 6;
    assert LineEnd(two) == 2;
    DrainLine(two, "", 10);
  }
}
