/**
 The `Mesh-Lease: <task>#<leaseId>#<epoch>:<fence>` commit trailer and the
 verdict a commit hook draws from it: printer, parser, status query, decision.
 */
module LeaseTrailer {
  import opened Common
  import opened Lease

  datatype LeaseRef = LeaseRef(task: string, leaseId: string, epoch: int, fence: int)

  const PREFIX := "Mesh-Lease:"
  const MAX_NAME_CHARS := 128
  const MAX_DIGITS := 16

  // ---- decimal numbers ----

  function Digit(d: int): char
    requires 0 <= d < 10
  {
    "0123456789"[d]
  }

  predicate IsDigit(c: char) { '0' <= c <= '9' }

  function DigitValue(c: char): nat
    requires IsDigit(c)
  {
    c as int - '0' as int
  }

  predicate AllDigits(s: string) { forall i :: 0 <= i < |s| ==> IsDigit(s[i]) }

  function NatToString(n: nat): (s: string)
    ensures |s| >= 1 && AllDigits(s)
  {
    if n < 10 then [Digit(n)] else NatToString(n / 10) + [Digit(n % 10)]
  }

  function IntToString(n: int): string {
    if n < 0 then "-" + NatToString(-n) else NatToString(n)
  }

  function StringToNat(s: string): nat
    requires AllDigits(s)
  {
    if s == "" then 0 else 10 * StringToNat(s[..|s| - 1]) + DigitValue(s[|s| - 1])
  }

  function Pow10(k: nat): nat { if k == 0 then 1 else 10 * Pow10(k - 1) }

  lemma {:induction false} DecimalRoundTrip(n: nat)
    ensures StringToNat(NatToString(n)) == n
  {
    if n >= 10 {
      DecimalRoundTrip(n / 10);
      var s := NatToString(n);
      assert s[..|s| - 1] == NatToString(n / 10);
    }
  }

  lemma {:induction false} DecimalLength(n: nat, k: nat)
    requires k >= 1
    ensures n < Pow10(k) <==> |NatToString(n)| <= k
  {
    if n < 10 {
      assert Pow10(k) >= 10 by { Pow10Positive(k - 1); }
    } else if k >= 2 {
      DecimalLength(n / 10, k - 1);
      assert n < 10 * Pow10(k - 1) <==> n / 10 < Pow10(k - 1);
    } else {
      assert Pow10(1) == 10;
    }
  }

  lemma {:induction false} Pow10Positive(k: nat)
    ensures Pow10(k) >= 1
  {
    if k > 0 { Pow10Positive(k - 1); }
  }

  lemma {:induction false} StringToNatBound(s: string)
    requires AllDigits(s)
    ensures StringToNat(s) < Pow10(|s|)
  {
    if s != "" { StringToNatBound(s[..|s| - 1]); }
  }

  // ---- grammar ----

  predicate IsTaskChar(c: char) {
    || 'A' <= c <= 'Z' || 'a' <= c <= 'z' || '0' <= c <= '9'
    || c == '.' || c == '_' || c == ':' || c == '/' || c == '-'
  }

  predicate IsTaskName(s: string) {
    && 1 <= |s| <= MAX_NAME_CHARS
    && (forall i :: 0 <= i < |s| ==> IsTaskChar(s[i]))
    && s[0] != '.' && s[0] != '_' && s[0] != ':' && s[0] != '/' && s[0] != '-'
  }

  predicate IsLeaseId(s: string) {
    1 <= |s| <= MAX_NAME_CHARS && forall i :: 0 <= i < |s| ==> s[i] != '#' && !IsSpace(s[i])
  }

  predicate IsNumber(s: string) { 1 <= |s| <= MAX_DIGITS && AllDigits(s) }

  predicate WellFormed(ref: LeaseRef) {
    && IsTaskName(ref.task) && IsLeaseId(ref.leaseId)
    && 0 <= ref.epoch < Pow10(MAX_DIGITS) && 0 <= ref.fence < Pow10(MAX_DIGITS)
  }

  function Format(ref: LeaseRef): string {
    PREFIX + " " + Payload(ref)
  }

  function Payload(ref: LeaseRef): string {
    ref.task + "#" + ref.leaseId + "#" + IntToString(ref.epoch) + ":" + IntToString(ref.fence)
  }

  /** Position of the first `c` in `s`, or |s|. */
  function IndexOf(s: string, c: char): (i: nat)
    ensures i <= |s| && (i < |s| ==> s[i] == c)
    ensures forall j :: 0 <= j < i ==> s[j] != c
  {
    if s == "" || s[0] == c then 0 else 1 + IndexOf(s[1..], c)
  }

  predicate IsBlankChar(c: char) { c == ' ' || c == '\t' }

  function SkipBlanks(s: string): string {
    if s != "" && IsBlankChar(s[0]) then SkipBlanks(s[1..]) else s
  }

  function TrimRight(s: string): string {
    if s != "" && IsBlankChar(s[|s| - 1]) then TrimRight(s[..|s| - 1]) else s
  }

  /** `s` cut in two at the first `c`, if there is one. */
  function Cut(s: string, c: char): Option<(string, string)> {
    var i := IndexOf(s, c);
    if i == |s| then None else Some((s[..i], s[i + 1..]))
  }

  function ParseFields(task: string, leaseId: string, epoch: string, fence: string): Option<LeaseRef> {
    if IsTaskName(task) && IsLeaseId(leaseId) && IsNumber(epoch) && IsNumber(fence) then
      Some(LeaseRef(task, leaseId, StringToNat(epoch), StringToNat(fence)))
    else None
  }

  function ParsePayload(s: string): Option<LeaseRef> {
    match Cut(s, '#')
    case None => None
    case Some((task, s2)) =>
      match Cut(s2, '#')
      case None => None
      case Some((leaseId, s3)) =>
        match Cut(s3, ':')
        case None => None
        case Some((epoch, fence)) => ParseFields(task, leaseId, epoch, fence)
  }

  function ParseLine(line: string): Option<LeaseRef> {
    if PREFIX <= line then ParsePayload(TrimRight(SkipBlanks(line[|PREFIX|..]))) else None
  }

  predicate IsTerminator(c: char) { c == '\n' || c == '\r' || c == '\U{2028}' || c == '\U{2029}' }

  /** Length of the first line of `s`, without its terminator. */
  function LineLength(s: string): (i: nat)
    ensures i <= |s| && (i < |s| ==> IsTerminator(s[i]))
    ensures forall j :: 0 <= j < i ==> !IsTerminator(s[j])
  {
    if s == "" || IsTerminator(s[0]) then 0 else 1 + LineLength(s[1..])
  }

  /** The reference of the first trailer line of a commit message. */
  function Parse(text: string): Option<LeaseRef>
    decreases |text|
  {
    var n := LineLength(text);
    var first := ParseLine(text[..n]);
    if first.Some? || n == |text| then first else Parse(text[n + 1..])
  }

  const CAPITALS := "ABCDEFGHIJKLMNOPQRSTUVWXYZ"
  const SMALL_LETTERS := "abcdefghijklmnopqrstuvwxyz"
  const DIGITS := "0123456789"

  predicate IsAlphanumeric(c: char) { c in CAPITALS || c in SMALL_LETTERS || c in DIGITS }

  lemma CapitalIff(c: char)
    ensures 'A' <= c <= 'Z' <==> c in CAPITALS
  {
    if 'A' <= c <= 'Z' { assert CAPITALS[c as int - 'A' as int] == c; }
  }

  lemma SmallLetterIff(c: char)
    ensures 'a' <= c <= 'z' <==> c in SMALL_LETTERS
  {
    if 'a' <= c <= 'z' { assert SMALL_LETTERS[c as int - 'a' as int] == c; }
  }

  lemma DigitIff(c: char)
    ensures '0' <= c <= '9' <==> c in DIGITS
  {
    if '0' <= c <= '9' { assert DIGITS[c as int - '0' as int] == c; }
  }

  lemma AlphanumericIff(c: char)
    ensures IsAlphanumeric(c) <==> 'A' <= c <= 'Z' || 'a' <= c <= 'z' || '0' <= c <= '9'
  {
    CapitalIff(c);
    SmallLetterIff(c);
    DigitIff(c);
  }

  lemma TaskCharIff(c: char)
    ensures IsTaskChar(c) <==> IsAlphanumeric(c) || c in "._:/-"
    ensures IsAlphanumeric(c) <==> IsTaskChar(c) && c != '.' && c != '_' && c != ':' && c != '/' && c != '-'
  {
    AlphanumericIff(c);
    hide IsAlphanumeric;
  }

  lemma TaskNameIff(s: string)
    ensures IsTaskName(s)
       <==> && 1 <= |s| <= 128 && IsAlphanumeric(s[0])
            && forall i :: 0 < i < |s| ==> IsAlphanumeric(s[i]) || s[i] in "._:/-"
  {
    forall c: char
      ensures IsTaskChar(c) <==> IsAlphanumeric(c) || c in "._:/-"
      ensures IsAlphanumeric(c) <==> IsTaskChar(c) && c != '.' && c != '_' && c != ':' && c != '/' && c != '-'
    {
      TaskCharIff(c);
    }
    hide IsAlphanumeric, IsTaskChar;
  }

  lemma SixteenDigits()
    ensures Pow10(16) == 10000000000000000
  {
    assert Pow10(4) == 10000;
    assert Pow10(8) == 10000 * Pow10(4);
    assert Pow10(12) == 10000 * Pow10(8);
    assert Pow10(16) == 10000 * Pow10(12);
  }

  /** The references a trailer can carry, with characters and sizes listed. */
  lemma WellFormedIff(ref: LeaseRef)
    ensures WellFormed(ref)
       <==> && 1 <= |ref.task| <= 128 && IsAlphanumeric(ref.task[0])
            && (forall i :: 0 < i < |ref.task| ==> IsAlphanumeric(ref.task[i]) || ref.task[i] in "._:/-")
            && 1 <= |ref.leaseId| <= 128
            && (forall i :: 0 <= i < |ref.leaseId| ==> ref.leaseId[i] != '#' && !IsSpace(ref.leaseId[i]))
            && 0 <= ref.epoch < 10000000000000000 && 0 <= ref.fence < 10000000000000000
  {
    SixteenDigits();
    TaskNameIff(ref.task);
    hide Pow10, IsSpace, IsAlphanumeric, IsTaskName;
  }

  // ---- round trip ----

  lemma {:induction false} CutAt(a: string, c: char, b: string)
    requires forall j :: 0 <= j < |a| ==> a[j] != c
    ensures Cut(a + [c] + b, c) == Some((a, b))
  {
    var s := a + [c] + b;
    assert s[|a|] == c && forall j :: 0 <= j < |a| ==> s[j] == a[j];
    assert IndexOf(s, c) == |a|;
    assert s[..|a|] == a && s[|a| + 1..] == b;
  }

  lemma NumbersRoundTrip(n: nat)
    requires n < Pow10(MAX_DIGITS)
    ensures IsNumber(NatToString(n)) && StringToNat(NatToString(n)) == n
  {
    DecimalRoundTrip(n);
    DecimalLength(n, MAX_DIGITS);
  }

  lemma PayloadRoundTrip(ref: LeaseRef)
    requires WellFormed(ref)
    ensures ParsePayload(Payload(ref)) == Some(ref)
  {
    var e, f := NatToString(ref.epoch), NatToString(ref.fence);
    var s3 := e + ":" + f;
    var s2 := ref.leaseId + "#" + s3;
    var s := ref.task + "#" + s2;
    assert Payload(ref) == s;
    CutAt(ref.task, '#', s2);
    CutAt(ref.leaseId, '#', s3);
    CutAt(e, ':', f);
    NumbersRoundTrip(ref.epoch);
    NumbersRoundTrip(ref.fence);
  }

  lemma {:induction false} TrimBlanks(s: string, pad: string)
    requires s != "" && !IsBlankChar(s[|s| - 1]) && forall i :: 0 <= i < |pad| ==> IsBlankChar(pad[i])
    ensures TrimRight(s + pad) == s
  {
    if pad == "" {
      assert s + pad == s;
    } else {
      var t := s + pad;
      assert t[..|t| - 1] == s + pad[..|pad| - 1];
      TrimBlanks(s, pad[..|pad| - 1]);
    }
  }

  /** A payload begins and ends with no blank. */
  lemma PayloadEnds(ref: LeaseRef)
    requires WellFormed(ref)
    ensures var p := Payload(ref); p != "" && !IsBlankChar(p[0]) && !IsBlankChar(p[|p| - 1])
  {
    var p, f := Payload(ref), NatToString(ref.fence);
    assert p[0] == ref.task[0] && p[|p| - 1] == f[|f| - 1];
  }

  lemma PrefixIsSkipped(p: string, pad: string)
    requires p != "" && !IsBlankChar(p[0])
    ensures var line := PREFIX + " " + p + pad; PREFIX <= line && SkipBlanks(line[|PREFIX|..]) == p + pad
  {
    var line := PREFIX + " " + p + pad;
    assert line[|PREFIX|..] == " " + (p + pad);
    assert (" " + (p + pad))[1..] == p + pad;
  }

  lemma LineRoundTrip(ref: LeaseRef, pad: string)
    requires WellFormed(ref) && forall i :: 0 <= i < |pad| ==> IsBlankChar(pad[i])
    ensures ParseLine(Format(ref) + pad) == Some(ref)
  {
    var p := Payload(ref);
    PayloadEnds(ref);
    PayloadRoundTrip(ref);
    hide Payload, ParsePayload, WellFormed, SkipBlanks, TrimRight;
    PrefixIsSkipped(p, pad);
    TrimBlanks(p, pad);
  }

  lemma FormatHasNoTerminator(ref: LeaseRef, pad: string)
    requires WellFormed(ref) && forall i :: 0 <= i < |pad| ==> IsBlankChar(pad[i])
    ensures forall i :: 0 <= i < |Format(ref) + pad| ==> !IsTerminator((Format(ref) + pad)[i])
  {
    var e, f := NatToString(ref.epoch), NatToString(ref.fence);
    FieldsAreOneLine(ref);
    FormatIs(ref);
    hide OneLine, WellFormed, NatToString, Format;
    assert OneLine(pad) && OneLine(PREFIX + " ") by { BlanksAreOneLine(pad); }
    OneLineSix(PREFIX + " ", ref.task, "#", ref.leaseId, "#", e);
    var left := PREFIX + " " + ref.task + "#" + ref.leaseId + "#" + e;
    OneLineConcat(left, ":");
    OneLineConcat(left + ":", f);
    OneLineConcat(left + ":" + f, pad);
    OneLineMeans(Format(ref) + pad);
  }

  /** A trailer, spelled out. */
  lemma TrailerExample()
    ensures Format(LeaseRef("T-1", "m_1", 7, 12)) == "Mesh-Lease: T-1#m_1#7:12"
  {
    assert NatToString(12) == NatToString(1) + [Digit(2)] == "1" + "2";
    assert NatToString(7) == [Digit(7)] == "7";
    FormatIs(LeaseRef("T-1", "m_1", 7, 12));
  }

  lemma FormatIs(ref: LeaseRef)
    requires ref.epoch >= 0 && ref.fence >= 0
    ensures
      var e, f := NatToString(ref.epoch), NatToString(ref.fence);
      Format(ref) == PREFIX + " " + ref.task + "#" + ref.leaseId + "#" + e + ":" + f
  {
    hide NatToString;
    var e, f := NatToString(ref.epoch), NatToString(ref.fence);
    var p := ref.task + "#" + ref.leaseId + "#" + e + ":" + f;
    assert PREFIX + " " + p == PREFIX + " " + ref.task + "#" + ref.leaseId + "#" + e + ":" + f;
  }

  lemma FieldsAreOneLine(ref: LeaseRef)
    requires WellFormed(ref)
    ensures OneLine(ref.task) && OneLine(ref.leaseId) && OneLine("#") && OneLine(":")
    ensures OneLine(NatToString(ref.epoch)) && OneLine(NatToString(ref.fence))
  {}

  lemma BlanksAreOneLine(pad: string)
    requires forall i :: 0 <= i < |pad| ==> IsBlankChar(pad[i])
    ensures OneLine(pad) && OneLine(PREFIX + " ")
  {}

  lemma OneLineSix(a: string, b: string, c: string, d: string, e: string, f: string)
    requires OneLine(a) && OneLine(b) && OneLine(c) && OneLine(d) && OneLine(e) && OneLine(f)
    ensures OneLine(a + b + c + d + e + f)
  {
    hide OneLine;
    OneLineConcat(a, b);
    OneLineConcat(a + b, c);
    OneLineConcat(a + b + c, d);
    OneLineConcat(a + b + c + d, e);
    OneLineConcat(a + b + c + d + e, f);
  }

  predicate OneLine(s: string) { forall i :: 0 <= i < |s| ==> !IsTerminator(s[i]) }

  lemma OneLineConcat(a: string, b: string)
    requires OneLine(a) && OneLine(b)
    ensures OneLine(a + b)
  {}

  lemma OneLineMeans(s: string)
    requires OneLine(s)
    ensures forall i :: 0 <= i < |s| ==> !IsTerminator(s[i])
  {}

  lemma {:induction false} LineLengthIs(line: string, rest: string)
    requires forall i :: 0 <= i < |line| ==> !IsTerminator(line[i])
    requires rest == "" || IsTerminator(rest[0])
    ensures LineLength(line + rest) == |line|
  {
    var s := line + rest;
    assert forall i :: 0 <= i < |line| ==> s[i] == line[i];
    assert rest != "" ==> s[|line|] == rest[0];
  }

  lemma ParseUnfolds(text: string)
    ensures
      var n := LineLength(text);
      Parse(text) == if ParseLine(text[..n]).Some? || n == |text| then ParseLine(text[..n]) else Parse(text[n + 1..])
  {
    hide ParseLine, LineLength;
  }

  lemma CutLine(before: string, text: string, n: nat)
    requires n < |before|
    ensures before + text == before[..n] + (before[n..] + text) && (before[n..] + text)[0] == before[n]
    ensures (before + text)[..n] == before[..n] && (before + text)[n + 1..] == before[n + 1..] + text
  {}

  /** Whole lines before a trailer do not change what is parsed, as long as none of them is one. */
  lemma {:induction false} ParseSkipsLines(before: string, text: string)
    requires before == "" || IsTerminator(before[|before| - 1])
    requires Parse(before) == None
    ensures Parse(before + text) == Parse(text)
    decreases |before|
  {
    hide Parse, ParseLine, LineLength;
    if before == "" {
      assert before + text == text;
    } else {
      var n := LineLength(before);
      assert n < |before|;
      var rest := before[n + 1..];
      CutLine(before, text, n);
      LineLengthIs(before[..n], before[n..] + text);
      if rest != "" { assert rest[|rest| - 1] == before[|before| - 1]; }
      ParseUnfolds(before);
      ParseUnfolds(before + text);
      ParseSkipsLines(rest, text);
    }
  }

  /**
   Round trip inside a commit message: after any lines that are no trailer, with
   any trailing blanks and any further lines, the printed reference is read back.
   */
  lemma TrailerRoundTrip(before: string, ref: LeaseRef, pad: string, after: string)
    requires WellFormed(ref) && forall i :: 0 <= i < |pad| ==> IsBlankChar(pad[i])
    requires before == "" || IsTerminator(before[|before| - 1])
    requires Parse(before) == None && (after == "" || IsTerminator(after[0]))
    ensures Parse(before + (Format(ref) + pad + after)) == Some(ref)
  {
    var line := Format(ref) + pad;
    FormatHasNoTerminator(ref, pad);
    LineLengthIs(line, after);
    assert (line + after)[..|line|] == line;
    LineRoundTrip(ref, pad);
    ParseSkipsLines(before, line + after);
  }

  lemma {:induction false} ParsedIsWellFormed(text: string)
    ensures Parse(text).Some? ==> WellFormed(Parse(text).value)
    decreases |text|
  {
    var n := LineLength(text);
    if ParseLine(text[..n]).Some? {
      FieldsWellFormed(TrimRight(SkipBlanks(text[..n][|PREFIX|..])));
    } else if n < |text| {
      ParsedIsWellFormed(text[n + 1..]);
    }
  }

  lemma FieldsWellFormed(s: string)
    ensures ParsePayload(s).Some? ==> WellFormed(ParsePayload(s).value)
  {
    if ParsePayload(s).Some? {
      var fields := Cut(Cut(Cut(s, '#').value.1, '#').value.1, ':').value;
      NumberBound(fields.0);
      NumberBound(fields.1);
    }
  }

  lemma NumberBound(s: string)
    requires IsNumber(s)
    ensures StringToNat(s) < Pow10(MAX_DIGITS)
  {
    StringToNatBound(s);
    Pow10Monotone(|s|, MAX_DIGITS);
  }

  lemma {:induction false} Pow10Monotone(a: nat, b: nat)
    requires a <= b
    ensures Pow10(a) <= Pow10(b)
  {
    if a < b { Pow10Monotone(a, b - 1); }
  }

  /** The printer's output is read back as the same reference exactly when the
      reference is well formed: a task name outside the grammar, say, can be
      leased but never verified through a trailer. */
  lemma RoundTripIffWellFormed(ref: LeaseRef)
    ensures Parse(Format(ref)) == Some(ref) <==> WellFormed(ref)
  {
    ParsedIsWellFormed(Format(ref));
    if WellFormed(ref) {
      assert Parse("") == None;
      TrailerRoundTrip("", ref, "", "");
      assert "" + (Format(ref) + "" + "") == Format(ref);
    }
  }

  // ---- the status query and the verdict ----

  datatype StatusFrame = StatusFrame(status: string, task: Option<string>, owner: Option<Alias>,
      leaseId: Option<string>,
                                     fence: Option<int>, epoch: Option<int>, body: string)

  datatype LeaseInfo = LeaseInfo(leaseId: string, task: string, owner: string, fence: int, epoch: int)

  datatype LeaseResult =
    | HasLease(status: string, lease: LeaseInfo)
    | HeldBy(holder: string)
    | NotHeld
    | LeaseError(reason: string)

  datatype FenceVerdict = Ok | Stale | Unavailable

  /** The broker's answer to a lease status query. */
  function HandleLeaseStatus(t: Table, task: string, now: int): StatusFrame {
    match Current(t, task, now)
    case None => StatusFrame("not_held", Some(task), None, None, None, None, "not_held")
    case Some(l) => StatusFrame("current", Some(l.task), Some(l.owner), Some(l.leaseId), Some(l.fence), Some(l.epoch),
        "current")
  }

  /** The client's reading of a lease frame. */
  function ReadLeaseFrame(f: StatusFrame): LeaseResult {
    if f.status == "granted" || f.status == "released" || f.status == "current" then
      HasLease(f.status, LeaseInfo(GetOr(f.leaseId, ""), GetOr(f.task, ""), GetOr(f.owner, ""), GetOr(f.fence, 0),
          GetOr(f.epoch, 0)))
    else if f.status == "held" then HeldBy(GetOr(f.owner, "?"))
    else if f.status == "not_held" then NotHeld
    else LeaseError(f.body)
  }

  function Decide(res: LeaseResult, ref: LeaseRef): FenceVerdict {
    match res
    case LeaseError(_) => Unavailable
    case HasLease(status, l) =>
      if status != "current" then Stale
      else if l.leaseId != ref.leaseId then Stale
      else if l.epoch != ref.epoch || l.fence != ref.fence then Stale
      else Ok
    case _ => Stale
  }

  /** What the hook concludes from a commit message: nothing when it has no trailer. */
  function CommitVerdict(t: Table, text: string, now: int): Option<FenceVerdict> {
    match Parse(text)
    case None => None
    case Some(ref) => Some(Decide(ReadLeaseFrame(HandleLeaseStatus(t, ref.task, now)), ref))
  }

  /** The verdict on a message is ok exactly when its trailer names the live lease of its task. */
  lemma VerdictOkIff(t: Table, text: string, now: int)
    ensures CommitVerdict(t, text, now) == Some(Ok)
       <==> && Parse(text).Some?
            && var ref := Parse(text).value;
               && Current(t, ref.task, now).Some?
               && Current(t, ref.task, now).value.leaseId == ref.leaseId
               && Current(t, ref.task, now).value.epoch == ref.epoch
               && Current(t, ref.task, now).value.fence == ref.fence
  {}

  function RefOf(l: LeaseRecord): LeaseRef { LeaseRef(l.task, l.leaseId, l.epoch, l.fence) }

  lemma TrailerGetsVerdict(t: Table, text: string, now: int)
    requires Parse(text).Some?
    ensures CommitVerdict(t, text, now) == Some(Ok) || CommitVerdict(t, text, now) == Some(Stale)
  {
    hide Parse;
  }

  lemma VerdictFollowsLease(epoch: int, ops: seq<Op>, i: nat, j: nat, l: LeaseRecord, text: string)
    requires ClockNonDecreasing(ops) && GrantedAt(epoch, ops, i, l) && i < j < |ops|
    requires Parse(text) == Some(RefOf(l))
    ensures CommitVerdict(Run(epoch, ops[..j]), text, ops[j].now)
         == Some(if ops[j].now < l.expiresAt && !ReleasedBetween(epoch, ops, i, j, l) then Ok else Stale)
  {
    var t := Run(epoch, ops[..j]);
    LeaseLife(epoch, ops, i, j, l);
    RunInv(epoch, ops[..j]);
    VerdictOkIff(t, text, ops[j].now);
    TrailerGetsVerdict(t, text, ops[j].now);
    hide CommitVerdict, Parse, Run, ReleasedBetween, GrantedAt;
  }

  /**
   End to end over a broker lifetime: a commit that carries the trailer of a
   granted lease is accepted at a later time if and only if that lease has then
   neither expired nor been released.
   */
  lemma TrailerAcceptedExactlyWhileLeased(
      epoch: int, ops: seq<Op>, i: nat, j: nat, l: LeaseRecord, before: string, pad: string, after: string)
    requires ClockNonDecreasing(ops) && GrantedAt(epoch, ops, i, l) && i < j < |ops|
    requires WellFormed(RefOf(l)) && forall k :: 0 <= k < |pad| ==> IsBlankChar(pad[k])
    requires before == "" || IsTerminator(before[|before| - 1])
    requires Parse(before) == None && (after == "" || IsTerminator(after[0]))
    ensures
      var text := before + (Format(RefOf(l)) + pad + after);
      CommitVerdict(Run(epoch, ops[..j]), text, ops[j].now)
        == Some(if ops[j].now < l.expiresAt && !ReleasedBetween(epoch, ops, i, j, l) then Ok else Stale)
  {
    TrailerRoundTrip(before, RefOf(l), pad, after);
    VerdictFollowsLease(epoch, ops, i, j, l, before + (Format(RefOf(l)) + pad + after));
  }

  /** No trailer of an earlier broker lifetime is accepted after a safe restart. */
  lemma OldTrailerIsStale(stored: Option<int>, lives: seq<Lifetime>, k: nat, k': nat, j: nat, text: string, now: int)
    requires RestartsSafe(stored, lives) && k < k' < |lives| && j <= |lives[k'].ops|
    requires Parse(text).Some? && Parse(text).value.epoch == EpochOf(stored, lives, k)
    ensures CommitVerdict(Run(EpochOf(stored, lives, k'), lives[k'].ops[..j]), text, now) == Some(Stale)
  {
    EpochsOrdered(stored, lives, k, k');
    RunInv(EpochOf(stored, lives, k'), lives[k'].ops[..j]);
  }
}
