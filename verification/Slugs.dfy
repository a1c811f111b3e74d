/**
 The slug of a project name in terms of its words, for every name: the words with single
 dashes between them, cut to 24 characters.
 */
module Slugs {
  import opened Common
  import opened ProjectRoom

  predicate IsWord(w: string) { w != "" && forall i :: 0 <= i < |w| ==> IsLowerOrDigit(w[i]) }

  predicate IsForeign(g: string) { forall i :: 0 <= i < |g| ==> !IsLowerOrDigit(g[i]) }

  /** `words[0]`, `gaps[0]`, `words[1]`, and so on, one after the other. */
  function Spread(words: seq<string>, gaps: seq<string>): string
    requires |words| == |gaps| + 1
  {
    if gaps == [] then words[0]
    else Spread(words[..|words| - 1], gaps[..|gaps| - 1]) + gaps[|gaps| - 1] + words[|words| - 1]
  }

  /** The words with one dash between each and the next. */
  function Hyphenated(words: seq<string>): string
    requires words != []
  {
    if |words| == 1 then words[0] else Hyphenated(words[..|words| - 1]) + "-" + words[|words| - 1]
  }

  /** `name` is made of these words, with other characters between and around them. */
  ghost predicate ReadsAs(name: string, lead: string, words: seq<string>, gaps: seq<string>, trail: string) {
    && IsForeign(lead) && IsForeign(trail) && |words| == |gaps| + 1
    && (forall i :: 0 <= i < |words| ==> IsWord(words[i]))
    && (forall i :: 0 <= i < |gaps| ==> gaps[i] != "" && IsForeign(gaps[i]))
    && name == lead + Spread(words, gaps) + trail
  }

  ghost predicate HasReading(name: string) {
    exists lead, words, gaps, trail :: ReadsAs(name, lead, words, gaps, trail)
  }

  lemma ReadingWitness(name: string, lead: string, words: seq<string>, gaps: seq<string>, trail: string)
    requires ReadsAs(name, lead, words, gaps, trail)
    ensures HasReading(name)
  {}

  /** Every name that is not all foreign can be read so. */
  lemma {:induction false} EveryNameReads(name: string)
    ensures IsForeign(name) || HasReading(name)
  {
    if name != "" {
      var front, c := name[..|name| - 1], name[|name| - 1];
      assert name == front + [c];
      EveryNameReads(front);
      hide ReadsAs, HasReading;
      if !IsForeign(front) {
        ReadingOf(front);
        var lead, words, gaps, trail :| ReadsAs(front, lead, words, gaps, trail);
        OneMore(front, lead, words, gaps, trail, c);
      } else if IsLowerOrDigit(c) {
        FirstWord(front, c);
      }
    }
  }

  lemma ReadingOf(name: string)
    requires HasReading(name)
    ensures exists lead, words, gaps, trail :: ReadsAs(name, lead, words, gaps, trail)
  {}

  lemma FirstWord(lead: string, c: char)
    requires IsForeign(lead) && IsLowerOrDigit(c)
    ensures HasReading(lead + [c])
  {
    assert lead + Spread([[c]], []) + "" == lead + [c];
    ReadingWitness(lead + [c], lead, [[c]], [], "");
  }

  lemma OneMore(name: string, lead: string, words: seq<string>, gaps: seq<string>, trail: string, c: char)
    requires ReadsAs(name, lead, words, gaps, trail)
    ensures HasReading(name + [c])
  {
    if !IsLowerOrDigit(c) {
      assert lead + Spread(words, gaps) + (trail + [c]) == name + [c];
      ReadingWitness(name + [c], lead, words, gaps, trail + [c]);
    } else if trail == "" {
      LongerWord(name, lead, words, gaps, c);
    } else {
      NewWord(name, lead, words, gaps, trail, c);
    }
  }

  lemma LongerWord(name: string, lead: string, words: seq<string>, gaps: seq<string>, c: char)
    requires ReadsAs(name, lead, words, gaps, "") && IsLowerOrDigit(c)
    ensures HasReading(name + [c])
  {
    var front, last := words[..|words| - 1], words[|words| - 1];
    var words' := front + [last + [c]];
    assert words'[..|words'| - 1] == front;
    if gaps == [] {
      assert Spread(words', gaps) == Spread(words, gaps) + [c];
    } else {
      var before := Spread(front, gaps[..|gaps| - 1]) + gaps[|gaps| - 1];
      assert before + (last + [c]) == before + last + [c];
    }
    assert lead + (Spread(words, gaps) + [c]) + "" == name + [c];
    ReadingWitness(name + [c], lead, words', gaps, "");
  }

  lemma NewWord(name: string, lead: string, words: seq<string>, gaps: seq<string>, trail: string, c: char)
    requires ReadsAs(name, lead, words, gaps, trail) && trail != "" && IsLowerOrDigit(c)
    ensures HasReading(name + [c])
  {
    var words', gaps' := words + [[c]], gaps + [trail];
    assert words'[..|words'| - 1] == words && gaps'[..|gaps'| - 1] == gaps;
    assert lead + (Spread(words, gaps) + trail + [c]) + "" == name + [c];
    ReadingWitness(name + [c], lead, words', gaps', "");
  }

  // ---- dashes ----

  lemma {:induction false} DashedWord(a: string, w: string)
    requires forall i :: 0 <= i < |w| ==> IsLowerOrDigit(w[i])
    ensures Dashed(a + w) == Dashed(a) + w
  {
    if w == "" {
      assert a + w == a && Dashed(a) + w == Dashed(a);
    } else {
      var front, c := w[..|w| - 1], w[|w| - 1];
      assert (a + w)[..|a + w| - 1] == a + front;
      DashedWord(a, front);
      assert Dashed(a) + front + [c] == Dashed(a) + w by { assert front + [c] == w; }
    }
  }

  predicate EndsInDash(s: string) { s != "" && s[|s| - 1] == '-' }

  lemma {:induction false} DashedGap(a: string, g: string)
    requires g != "" && IsForeign(g)
    ensures Dashed(a + g) == if EndsInDash(Dashed(a)) then Dashed(a) else Dashed(a) + "-"
  {
    var front := g[..|g| - 1];
    assert (a + g)[..|a + g| - 1] == a + front;
    if front == "" {
      assert a + front == a;
    } else {
      DashedGap(a, front);
    }
  }

  lemma {:induction false} HyphenatedEnds(words: seq<string>)
    requires words != [] && forall i :: 0 <= i < |words| ==> IsWord(words[i])
    ensures
      var h := Hyphenated(words);
      h != "" && IsLowerOrDigit(h[0]) && IsLowerOrDigit(h[|h| - 1])
  {
    if |words| > 1 {
      var front, last := words[..|words| - 1], words[|words| - 1];
      HyphenatedEnds(front);
      var h := Hyphenated(words);
      assert h[0] == Hyphenated(front)[0] && h[|h| - 1] == last[|last| - 1];
    } else {
      assert Hyphenated(words) == words[0];
    }
  }

  lemma {:induction false} DashedSpread(lead: string, words: seq<string>, gaps: seq<string>)
    requires IsForeign(lead) && |words| == |gaps| + 1
    requires forall i :: 0 <= i < |words| ==> IsWord(words[i])
    requires forall i :: 0 <= i < |gaps| ==> gaps[i] != "" && IsForeign(gaps[i])
    ensures Dashed(lead + Spread(words, gaps)) == Dashed(lead) + Hyphenated(words)
  {
    if gaps == [] {
      DashedWord(lead, words[0]);
    } else {
      var front, last := words[..|words| - 1], words[|words| - 1];
      var fewer, gap := gaps[..|gaps| - 1], gaps[|gaps| - 1];
      var before := lead + Spread(front, fewer);
      DashedSpread(lead, front, fewer);
      HyphenatedEnds(front);
      DashedStep(before, gap, last);
      assert lead + Spread(words, gaps) == before + gap + last;
      hide Dashed, Spread, IsWord, IsForeign;
      assert Hyphenated(words) == Hyphenated(front) + "-" + last;
      Regroup(Dashed(lead), Hyphenated(front), last);
    }
  }

  lemma Regroup(a: string, b: string, c: string)
    ensures a + (b + "-" + c) == a + b + "-" + c
  {}

  lemma DashedStep(before: string, gap: string, word: string)
    requires gap != "" && IsForeign(gap) && IsWord(word)
    ensures !EndsInDash(Dashed(before)) ==> Dashed(before + gap + word) == Dashed(before) + "-" + word
  {
    DashedGap(before, gap);
    DashedWord(before + gap, word);
  }

  lemma DashedForeign(g: string)
    requires IsForeign(g)
    ensures Dashed(g) == if g == "" then "" else "-"
  {
    if g != "" {
      assert "" + g == g;
      DashedGap("", g);
    }
  }

  // ---- the slug ----

  lemma TrimmedLead(pre: string, x: string)
    requires x != "" && x[0] != '-' && pre in ["", "-"]
    ensures TrimLeadingDashes(pre + x) == x
  {
    if pre == "-" { assert (pre + x)[1..] == x; } else { assert pre + x == x; }
  }

  lemma TrimmedTail(x: string, post: string)
    requires x != "" && x[|x| - 1] != '-' && post in ["", "-"]
    ensures TrimTrailingDashes(x + post) == x
  {
    if post == "-" { assert (x + post)[..|x + post| - 1] == x; } else { assert x + post == x; }
  }

  lemma TrimmedEnds(pre: string, h: string, post: string)
    requires h != "" && h[0] != '-' && h[|h| - 1] != '-' && pre in ["", "-"] && post in ["", "-"]
    ensures TrimTrailingDashes(TrimLeadingDashes(pre + h + post)) == h
  {
    hide TrimLeadingDashes, TrimTrailingDashes;
    Associative(pre, h, post);
    TrimmedLead(pre, h + post);
    TrimmedTail(h, post);
  }

  lemma Associative(a: string, b: string, c: string)
    ensures a + b + c == a + (b + c) && (b != "" ==> (b + c)[0] == b[0])
  {}

  /** `h` cut to 24 characters, without a dash at the end. */
  function Shortened(h: string): string {
    if |h| <= 24 then h else if h[23] == '-' then h[..23] else h[..24]
  }

  lemma ShortenedIsTrimmed(h: string)
    requires h != "" && h[0] != '-' && h[|h| - 1] != '-' && IsDashed(h)
    ensures TrimTrailingDashes(Take(h, 24)) == Shortened(h)
  {
    if |h| > 24 && h[23] == '-' {
      assert h[22] != '-';
      assert h[..24][..23] == h[..23];
    }
  }

  /**
   The slug of a name is its words with exactly one dash between each and the next, whatever and however
   many other characters stand between or around them, cut to 24 characters without a dash at the end.
   */
  lemma SlugIsOfItsWords(name: string, lead: string, words: seq<string>, gaps: seq<string>, trail: string)
    requires ReadsAs(name, lead, words, gaps, trail)
    ensures Slugify(name) == Shortened(Hyphenated(words))
  {
    var body, h := lead + Spread(words, gaps), Hyphenated(words);
    DashedSpread(lead, words, gaps);
    DashedForeign(lead);
    HyphenatedEnds(words);
    assert h[0] != '-' && h[|h| - 1] != '-';
    if trail == "" {
      assert name == body;
    } else {
      DashedGap(body, trail);
    }
    var post := if trail == "" then "" else "-";
    assert Dashed(name) == Dashed(lead) + h + post;
    DashedIsDashed(name);
    InnerIsDashed(Dashed(lead), h, post);
    TrimmedEnds(Dashed(lead), h, post);
    ShortenedIsTrimmed(h);
  }

  lemma InnerIsDashed(pre: string, h: string, post: string)
    requires IsDashed(pre + h + post)
    ensures IsDashed(h)
  {
    var s := pre + h + post;
    assert forall i :: 0 <= i < |h| ==> s[|pre| + i] == h[i];
  }

  /** A name without words becomes "x". */
  lemma WordlessSlug(name: string)
    requires IsForeign(name)
    ensures Slugify(name) == "x"
  {
    DashedForeign(name);
    assert TrimLeadingDashes("-") == "" by { assert "-"[1..] == ""; }
  }

  /** An example, spelled out: prefix, slug, dot and digest. */
  lemma MyProject()
    ensures DeriveProjectRoom("my project", "0123ab") == "proj.my-project.0123ab"
  {
    var words, gaps := ["my", "project"], [" "];
    MyProjectReads();
    hide Slugify, ReadsAs;
    SlugIsOfItsWords("my project", "", words, gaps, "");
  }

  lemma MyProjectReads()
    ensures ReadsAs("my project", "", ["my", "project"], [" "], "") && Hyphenated(["my", "project"]) == "my-project"
  {
    var words, gaps := ["my", "project"], [" "];
    assert words[..1] == ["my"] && gaps[..0] == [];
    assert Spread(["my"], []) == "my" && Hyphenated(["my"]) == "my";
    assert "" + Spread(words, gaps) + "" == "my project";
  }
}
