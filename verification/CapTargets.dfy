/**
 Capability targets: which texts in the `to` field of a message name a capability, and which.
 */
module CapTargets {
  import opened Common
  import opened StateTables
  import opened RateLimit
  import opened Policy
  import opened Rooms
  import opened CapRouting
  import opened Broker
  import opened Routing

  const LETTERS_AND_DIGITS := "abcdefghijklmnopqrstuvwxyz0123456789"

  /** A lower-case letter or digit is one of these thirty-six. */
  lemma LowerOrDigitIff(c: char)
    ensures IsLowerOrDigit(c) <==> c in LETTERS_AND_DIGITS
  {
    if IsLowerOrDigit(c) { ListedIfLowerOrDigit(c); }
  }

  lemma ListedIfLowerOrDigit(c: char)
    requires IsLowerOrDigit(c)
    ensures c in LETTERS_AND_DIGITS
  {
    var s := LETTERS_AND_DIGITS;
    if 'a' <= c <= 'z' { assert s[c as int - 'a' as int] == c; } else { assert s[26 + c as int - '0' as int] == c; }
  }

  /** The grammar of rooms and that of capabilities, in terms of these characters. */
  lemma GrammarsAre(name: string)
    ensures IsValidRoom(name)
       <==> 1 <= |name| <= 64 && name[0] in LETTERS_AND_DIGITS
            && forall i :: 0 < i < |name| ==> name[i] in LETTERS_AND_DIGITS || name[i] in ".-"
    ensures IsCapName(name)
       <==> 1 <= |name| <= 32 && name[0] in LETTERS_AND_DIGITS
            && forall i :: 0 < i < |name| ==> name[i] in LETTERS_AND_DIGITS || name[i] in "._-"
  {
    forall c: char ensures IsLowerOrDigit(c) <==> c in LETTERS_AND_DIGITS { LowerOrDigitIff(c); }
    hide IsLowerOrDigit;
  }

  /** The characters that trimming removes: blank, the five control characters from tab to carriage return, the byte
      order mark, and the other spaces and line separators of Unicode. */
  lemma SpacesAre(c: char)
    ensures IsSpace(c) <==>
      || c in " \t\n\r" || c as int in [0x0B, 0x0C, 0xA0, 0x1680, 0x2028, 0x2029, 0x202F, 0x205F, 0x3000, 0xFEFF]
      || 0x2000 <= c as int <= 0x200A
  {}

  predicate AllSpace(s: string) { forall i :: 0 <= i < |s| ==> IsSpace(s[i]) }

  /** `c` is the lower-case character `low` or its capital; the Kelvin sign counts as a capital k. */
  predicate IsCaseOf(c: char, low: char) {
    || c == low
    || ('a' <= low <= 'z' && c as int == low as int - 'a' as int + 'A' as int)
    || (low == 'k' && c == '\U{212A}')
  }

  /** `text` is `low` up to the case of its letters. */
  predicate Spells(text: string, low: string) {
    |text| == |low| && forall i :: 0 <= i < |low| ==> IsCaseOf(text[i], low[i])
  }

  // ---- trimming ----

  lemma {:induction false} TrimStartIs(s: string)
    ensures exists left :: AllSpace(left) && s == left + TrimStart(s)
    ensures TrimStart(s) != "" ==> !IsSpace(TrimStart(s)[0])
  {
    if s != "" && IsSpace(s[0]) {
      TrimStartIs(s[1..]);
      var left :| AllSpace(left) && s[1..] == left + TrimStart(s[1..]);
      assert AllSpace([s[0]] + left) && s == ([s[0]] + left) + TrimStart(s);
    } else {
      assert AllSpace("") && s == "" + TrimStart(s);
    }
  }

  lemma {:induction false} TrimEndIs(s: string)
    ensures exists right :: AllSpace(right) && s == TrimEnd(s) + right
    ensures TrimEnd(s) != "" ==> !IsSpace(TrimEnd(s)[|TrimEnd(s)| - 1])
  {
    if s != "" && IsSpace(s[|s| - 1]) {
      var front, c := s[..|s| - 1], s[|s| - 1];
      TrimEndIs(front);
      var right :| AllSpace(right) && front == TrimEnd(front) + right;
      SpaceAtTheEnd(TrimEnd(front), right, c);
      assert s == front + [c];
    } else {
      assert AllSpace("") && s == TrimEnd(s) + "";
    }
  }

  lemma SpaceAtTheEnd(s: string, right: string, c: char)
    requires AllSpace(right) && IsSpace(c)
    ensures AllSpace(right + [c]) && s + right + [c] == s + (right + [c])
  {}

  /** Trimming removes white space at both ends, and nothing but that. */
  lemma TrimIs(s: string)
    ensures exists left, right :: AllSpace(left) && AllSpace(right) && s == left + Trim(s) + right
  {
    TrimStartIs(s);
    TrimEndIs(TrimStart(s));
    var left :| AllSpace(left) && s == left + TrimStart(s);
    var right :| AllSpace(right) && TrimStart(s) == TrimEnd(TrimStart(s)) + right;
    assert left + (Trim(s) + right) == left + Trim(s) + right;
  }

  lemma {:induction false} TrimStartSkips(left: string, s: string)
    requires AllSpace(left) && (s == "" || !IsSpace(s[0]))
    ensures TrimStart(left + s) == s
  {
    if left == "" {
      assert left + s == s;
    } else {
      assert (left + s)[1..] == left[1..] + s;
      TrimStartSkips(left[1..], s);
    }
  }

  lemma {:induction false} TrimEndSkips(s: string, right: string)
    requires AllSpace(right) && (s == "" || !IsSpace(s[|s| - 1]))
    ensures TrimEnd(s + right) == s
  {
    if right == "" {
      assert s + right == s;
    } else {
      assert (s + right)[..|s + right| - 1] == s + right[..|right| - 1];
      TrimEndSkips(s, right[..|right| - 1]);
    }
  }

  /** White space around a text that has none at its ends is what trimming removes. */
  lemma TrimRemoves(left: string, s: string, right: string)
    requires AllSpace(left) && AllSpace(right) && s != "" && !IsSpace(s[0]) && !IsSpace(s[|s| - 1])
    ensures Trim(left + s + right) == s
  {
    assert left + s + right == left + (s + right);
    TrimStartSkips(left, s + right);
    TrimEndSkips(s, right);
  }

  // ---- lower case ----

  lemma SpelledIsLowered(text: string, low: string)
    requires Spells(text, low) && forall i :: 0 <= i < |low| ==> !('A' <= low[i] <= 'Z') && low[i] != '\U{212A}'
    ensures Lower(text) == low
  {}

  lemma LoweredIsSpelled(text: string)
    ensures Spells(text, Lower(text))
  {}

  lemma NameHasNoSpace(name: string)
    requires IsCapName(name)
    ensures forall i :: 0 <= i < |name| ==> !IsSpace(name[i]) && !('A' <= name[i] <= 'Z') && name[i] != '\U{212A}'
  {}

  lemma SpaceIsLowered(s: string)
    requires AllSpace(s)
    ensures Lower(s) == s
  {}

  lemma SpelledIsNoSpace(text: string, low: string)
    requires Spells(text, low) && forall i :: 0 <= i < |low| ==> !IsSpace(low[i])
    ensures forall i :: 0 <= i < |text| ==> !IsSpace(text[i])
  {}

  // ---- targets ----

  /** `to` is "cap:" and `name`, in any case, with any white space around the name and around the whole. */
  ghost predicate Targets(to: string, name: string) {
    exists left, head, gap, tail, right {:trigger left + head + gap + tail + right} ::
      && to == left + head + gap + tail + right
      && AllSpace(left) && AllSpace(gap) && AllSpace(right) && Spells(head, "cap:") && Spells(tail, name)
  }

  lemma {:induction false} LowerConcat(a: string, b: string)
    ensures Lower(a + b) == Lower(a) + Lower(b)
  {}

  lemma PrefixHasNoSpace()
    ensures
      var p := "cap:";
      forall i :: 0 <= i < |p| ==> !IsSpace(p[i]) && !('A' <= p[i] <= 'Z') && p[i] != '\U{212A}'
  {}

  /** Every well-formed name, in any case and with any padding, is what its target names. */
  lemma TargetIsFound(left: string, head: string, gap: string, tail: string, right: string, name: string)
    requires AllSpace(left) && AllSpace(gap) && AllSpace(right) && IsCapName(name)
    requires Spells(head, "cap:") && Spells(tail, name)
    ensures CapTarget(left + head + gap + tail + right) == Some(name)
  {
    var core := head + gap + tail;
    CoreSpells(head, gap, tail, name);
    NameHasNoSpace(name);
    hide IsCapName, Spells, Lower, Trim;
    assert left + head + gap + tail + right == left + core + right;
    TrimRemoves(left, core, right);
    assert AllSpace("");
    TrimRemoves(gap, name, "");
    assert gap + name + "" == gap + name && ("cap:" + gap + name)[4..] == gap + name;
  }

  lemma CoreSpells(head: string, gap: string, tail: string, name: string)
    requires AllSpace(gap) && IsCapName(name) && Spells(head, "cap:") && Spells(tail, name)
    ensures
      var core := head + gap + tail;
      && core != "" && !IsSpace(core[0]) && !IsSpace(core[|core| - 1])
      && Lower(core) == "cap:" + gap + name
  {
    NameHasNoSpace(name);
    PrefixHasNoSpace();
    SpelledIsNoSpace(head, "cap:");
    SpelledIsNoSpace(tail, name);
    var core := head + gap + tail;
    assert core[0] == head[0] && core[|core| - 1] == tail[|tail| - 1];
    SpelledIsLowered(head, "cap:");
    SpelledIsLowered(tail, name);
    hide Spells, Lower, IsSpace;
    LowerConcat(head + gap, tail);
    LowerConcat(head, gap);
    SpaceIsLowered(gap);
  }

  lemma SpellsSlice(text: string, low: string, a: nat, b: nat)
    requires Spells(text, low) && a <= b <= |low|
    ensures Spells(text[a..b], low[a..b])
  {}

  lemma SpellsSpace(text: string, low: string)
    requires low == Lower(text) && AllSpace(low)
    ensures AllSpace(text)
  {
    forall i | 0 <= i < |text| ensures IsSpace(text[i]) {
      assert low[i] == LowerChar(text[i]);
      LoweredSpace(text[i]);
    }
  }

  lemma LowerSlice(text: string, a: nat, b: nat)
    requires a <= b <= |text|
    ensures Lower(text)[a..b] == Lower(text[a..b])
  {}

  lemma FoundIsTarget(to: string)
    requires CapTarget(to).Some?
    ensures Targets(to, CapTarget(to).value) && IsCapName(CapTarget(to).value)
  {
    var core := Trim(to);
    var lower := Lower(core);
    var name := Trim(lower[4..]);
    assert lower[..4] == "cap:" && IsCapName(name);
    hide CapTarget, IsCapName, Lower, Trim, Spells, AllSpace, Targets;
    TrimIs(to);
    var left, right :| AllSpace(left) && AllSpace(right) && to == left + core + right;
    TrimIs(lower[4..]);
    var gap, after :| AllSpace(gap) && AllSpace(after) && lower[4..] == gap + name + after;
    CoreIsTarget(left, core, right, gap, name, after);
    assert CapTarget(to) == Some(name) by { CapTargetIs(to); }
  }

  lemma CapTargetIs(to: string)
    requires CapTarget(to).Some?
    ensures CapTarget(to) == Some(Trim(Lower(Trim(to))[4..]))
  {}

  lemma LowerKeepsLength(text: string)
    ensures |Lower(text)| == |text|
  {}

  lemma CoreIsTarget(left: string, core: string, right: string, gap: string, name: string, after: string)
    requires AllSpace(left) && AllSpace(right) && AllSpace(gap) && AllSpace(after)
    requires |Lower(core)| >= 4 && Lower(core)[..4] == "cap:" && Lower(core)[4..] == gap + name + after
    ensures Targets(left + core + right, name)
  {
    hide Lower, Spells, AllSpace;
    LowerKeepsLength(core);
    LoweredIsSpelled(core);
    var lower, g, n := Lower(core), 4 + |gap|, 4 + |gap| + |name|;
    assert lower[..4] == lower[0..4] && lower[4..g] == gap && lower[g..n] == name && lower[n..|lower|] == after by {
      assert lower == lower[..4] + lower[4..];
    }
    SpellsSlice(core, lower, 0, 4);
    SpellsSlice(core, lower, g, n);
    LowerSlice(core, 4, g);
    SpellsSpace(core[4..g], gap);
    LowerSlice(core, n, |core|);
    SpellsSpace(core[n..|core|], after);
    AllSpaceConcat(core[n..|core|], right);
    var tail := core[n..|core|] + right;
    assert core == core[0..4] + core[4..g] + core[g..n] + core[n..|core|];
    assert left + core + right == left + core[0..4] + core[4..g] + core[g..n] + tail;
  }

  lemma AllSpaceConcat(a: string, b: string)
    requires AllSpace(a) && AllSpace(b)
    ensures AllSpace(a + b)
  {}

  /** Only white space has white space as its lower case. */
  lemma LoweredSpace(c: char)
    requires IsSpace(LowerChar(c))
    ensures IsSpace(c)
  {}

  /**
   Exactly which capability a target names: `name`, if that is well formed and the target is "cap:"
   followed by it, in any case and with any padding; otherwise none, and it is an alias.
   */
  lemma CapTargetIff(to: string, name: string)
    ensures CapTarget(to) == Some(name) <==> IsCapName(name) && Targets(to, name)
  {
    hide CapTarget, IsCapName, Spells, AllSpace;
    if CapTarget(to) == Some(name) { FoundIsTarget(to); }
    if IsCapName(name) && Targets(to, name) {
      var left, head, gap, tail, right :|
        && to == left + head + gap + tail + right
        && AllSpace(left) && AllSpace(gap) && AllSpace(right) && Spells(head, "cap:") && Spells(tail, name);
      TargetIsFound(left, head, gap, tail, right, name);
    }
  }

  // ---- messages to a capability ----

  /** The message is on its way to `p`, who is told for which capability, and the sender will be told to whom. */
  ghost predicate OnItsWay(s: State, s': State, outs: seq<Out>, from: Peer, m: Msg, name: string, p: Peer) {
    && outs == [] && s.nextToken in s'.writes
    && var w := s'.writes[s.nextToken];
    && w.DirectWrite? && w.from == RefOf(from) && w.original == m && w.target == RefOf(p)
    && w.routed.to == Some(p.alias) && w.routed.routedCap == Some(name) && w.routed.routedTo == Some(p.alias)
    && w.routedTo == Some(p.alias)
  }

  /**
   A message to a capability is accepted if and only if its sender may write to the room, the rate
   check grants it and some online member of the room that advertises the capability is admitted by
   the policy; it is then written to the least busy of these, whatever order the host puts aliases in.
   */
  lemma CapMessageGoesToBest(s: State, cfg: BrokerConfig, from: Peer, m: Msg, name: string, now: int)
    requires Agree(s.tables, cfg.maxRooms) && IsOrder(cfg.aliasLeq)
    requires !m.broadcast && m.to.Some? && IsCapName(name) && Targets(m.to.value, name)
    ensures
      var (s', outs) := RouteMsg(s, cfg, from, m, now);
      var q, members := CapRequest(cfg, from, m, name, now), Members(s.tables, MsgRoom(m));
      if MayWrite(from, m) && RateGranted(s, cfg, from, m, now)
        && exists a :: a in members && Eligible(NetOf(s), cfg.policy, q, a)
      then
        exists p :: IsOptimal(NetOf(s), cfg.policy, q, members, p) && OnItsWay(s, s', outs, from, m, name, p)
      else IsRefusal(outs)
  {
    CapTargetIff(m.to.value, name);
    CapRecipientIff(s, cfg, from, m, name, now);
    MessageAcceptedIff(s, cfg, from, m, now);
    if MayWrite(from, m) && RateGranted(s, cfg, from, m, now) {
      CapIsRouted(s, cfg, from, m, name, now);
      hide Agree, RouteMsg, RouteCap, RateGranted, HasRecipient, Eligible, OnItsWay, IsOptimal, MayWrite, IsOrder;
      CapRouteToBest(s.(nextToken := s.nextToken + 1), cfg, from, s.nextToken, m, name, now);
      SameCapView(s, cfg);
    }
  }

  lemma SameCapView(s: State, cfg: BrokerConfig)
    ensures
      var s0 := s.(nextToken := s.nextToken + 1);
      NetOf(s0) == NetOf(s) && s0.tables == s.tables && s0.(nextToken := s.nextToken) == s
  {}

  lemma CapRecipientIff(s: State, cfg: BrokerConfig, from: Peer, m: Msg, name: string, now: int)
    requires !m.broadcast && m.to.Some? && CapTarget(m.to.value) == Some(name)
    ensures
      var q, members := CapRequest(cfg, from, m, name, now), Members(s.tables, MsgRoom(m));
      HasRecipient(s, cfg, from, m, now) <==> exists a :: a in members && Eligible(NetOf(s), cfg.policy, q, a)
  {
    hide CapTarget, Eligible, DecisionFor;
  }

  lemma CapIsRouted(s: State, cfg: BrokerConfig, from: Peer, m: Msg, name: string, now: int)
    requires !m.broadcast && m.to.Some? && CapTarget(m.to.value) == Some(name) && MayWrite(from, m)
    ensures RouteMsg(s, cfg, from, m, now)
         == RouteCap(s.(nextToken := s.nextToken + 1), cfg, from, s.nextToken, m, name, now)
  {
    hide CapTarget, RouteCap;
  }

  lemma CapRouteToBest(s: State, cfg: BrokerConfig, from: Peer, token: nat, m: Msg, name: string, now: int)
    requires IsOrder(cfg.aliasLeq) && token + 1 == s.nextToken && RateGranted(s, cfg, from, m, now)
    ensures
      var (s', outs) := RouteCap(s, cfg, from, token, m, name, now);
      var q, members := CapRequest(cfg, from, m, name, now), Members(s.tables, MsgRoom(m));
      IsRefusal(outs) || exists p ::
        && IsOptimal(NetOf(s), cfg.policy, q, members, p)
        && OnItsWay(s.(nextToken := token), s', outs, from, m, name, p)
  {
    hide Check, EvaluatePolicy, Choose, IsOptimal;
    var q, members := CapRequest(cfg, from, m, name, now), Members(s.tables, MsgRoom(m));
    ChoiceIsOptimal(NetOf(s), cfg.policy, q, members);
    var (s', outs) := RouteCap(s, cfg, from, token, m, name, now);
    if !IsRefusal(outs) {
      var p := Choose(NetOf(s), cfg.policy, q, members).peer;
      assert IsOptimal(NetOf(s), cfg.policy, q, members, p);
      assert OnItsWay(s.(nextToken := token), s', outs, from, m, name, p);
    }
  }
}
