/**
 Capability routing: `cap:<name>` goes to the least busy capable member of the
 room, ties broken by alias.
 */
module CapRouting {
  import opened Common
  import opened StateTables
  import opened Rooms
  import opened Policy

  /** Half the largest safe integer: the score of a rate-limited or blocked peer. */
  const STALLED_SCORE := 4503599627370495.5

  function BusyScore(p: Peer, now: int): (score: real)
    ensures score == 0.0 <==> p.activity.Unknown? || p.activity.Idle?
    ensures score >= 0.0
  {
    match p.activity
    case Unknown => 0.0
    case Idle => 0.0
    case Busy(at) => Max(1, now - at) as real
    case Stalled => STALLED_SCORE
  }

  /** The order in which the host sorts aliases: some total preorder, which depends on its locale. */
  type AliasOrder = (Alias, Alias) -> bool

  ghost predicate IsOrder(leq: AliasOrder) {
    && (forall a, b :: leq(a, b) || leq(b, a))
    && forall a, b, c :: leq(a, b) && leq(b, c) ==> leq(a, c)
  }

  /** The order of a host that sorts by code point. */
  predicate AliasLeq(a: Alias, b: Alias) {
    if a == "" then true
    else if b == "" then false
    else if a[0] != b[0] then a[0] < b[0]
    else AliasLeq(a[1..], b[1..])
  }

  datatype Candidate = Candidate(peer: Peer, score: real)

  /** `x` sorts before or with `y`. */
  predicate Leq(leq: AliasOrder, x: Candidate, y: Candidate) {
    x.score < y.score || (x.score == y.score && leq(x.peer.alias, y.peer.alias))
  }

  datatype Request = Request(from: Alias, cap: string, room: Room, priority: Priority, now: int, leq: AliasOrder)

  datatype CapError = PolicyDenied | NoCapablePeer | CapsUnsupported

  datatype Choice = Chosen(peer: Peer) | Refused(code: CapError)

  /** The tables a routing decision reads. */
  datatype Net = Net(tables: Tables, destroyed: set<Sock>)

  predicate Online(n: Net, a: Alias) { a in n.tables.peers && n.tables.peers[a].sock !in n.destroyed }

  predicate OnlineOther(n: Net, q: Request, a: Alias) { a != q.from && Online(n, a) }

  predicate Capable(n: Net, q: Request, a: Alias) {
    && OnlineOther(n, q, a)
    && q.room in n.tables.peers[a].rooms && n.tables.peers[a].rooms[q.room] == Member
    && q.cap in n.tables.peers[a].caps
  }

  function Verdict(policy: MeshPolicy, q: Request, to: Alias): Decision {
    EvaluatePolicy(policy, Context(q.from, to, q.room, q.priority))
  }

  predicate Eligible(n: Net, policy: MeshPolicy, q: Request, a: Alias) {
    Capable(n, q, a) && !Verdict(policy, q, a).Deny?
  }

  datatype Scan = Scan(sawOnline: bool, sawAnyCaps: bool, sawCap: bool, candidates: seq<Candidate>)

  /** One member examined. */
  function Examine(s: Scan, n: Net, policy: MeshPolicy, q: Request, a: Alias): Scan {
    if !OnlineOther(n, q, a) then s
    else
      var p := n.tables.peers[a];
      var s1 := s.(sawOnline := true, sawAnyCaps := s.sawAnyCaps || |p.caps| > 0);
      if !Capable(n, q, a) then s1
      else if !Eligible(n, policy, q, a) then s1.(sawCap := true)
      else s1.(sawCap := true, candidates := s.candidates + [Candidate(p, BusyScore(p, q.now))])
  }

  function ScanMembers(n: Net, policy: MeshPolicy, q: Request, members: seq<Alias>): Scan {
    if members == [] then Scan(false, false, false, [])
    else Examine(ScanMembers(n, policy, q, members[..|members| - 1]), n, policy, q, members[|members| - 1])
  }

  /** The head of the sorted candidate list. */
  function Best(leq: AliasOrder, cs: seq<Candidate>): Candidate
    requires cs != []
  {
    if |cs| == 1 then cs[0]
    else
      var b := Best(leq, cs[..|cs| - 1]);
      if Leq(leq, b, cs[|cs| - 1]) then b else cs[|cs| - 1]
  }

  function Choose(n: Net, policy: MeshPolicy, q: Request, members: seq<Alias>): Choice {
    var s := ScanMembers(n, policy, q, members);
    if s.candidates != [] then Chosen(Best(q.leq, s.candidates).peer)
    else if s.sawCap then Refused(PolicyDenied)
    else if !s.sawOnline then Refused(NoCapablePeer)
    else if !s.sawAnyCaps then Refused(CapsUnsupported)
    else Refused(NoCapablePeer)
  }

  /** The scan over the members and the selection of the head of the order. */
  method FindTarget(n: Net, policy: MeshPolicy, q: Request, members: seq<Alias>) returns (choice: Choice)
    ensures choice == Choose(n, policy, q, members)
  {
    var sawOnline, sawAnyCaps, sawCap := false, false, false;
    var candidates: seq<Candidate> := [];
    for i := 0 to |members|
      invariant Scan(sawOnline, sawAnyCaps, sawCap, candidates) == ScanMembers(n, policy, q, members[..i])
    {
      assert members[..i + 1][..i] == members[..i];
      var a := members[i];
      if a == q.from || a !in n.tables.peers || n.tables.peers[a].sock in n.destroyed { continue; }
      var peer := n.tables.peers[a];
      sawOnline := true;
      if |peer.caps| > 0 { sawAnyCaps := true; }
      if q.room !in peer.rooms || peer.rooms[q.room] != Member { continue; }
      if q.cap !in peer.caps { continue; }
      sawCap := true;
      if Verdict(policy, q, a).Deny? { continue; }
      candidates := candidates + [Candidate(peer, BusyScore(peer, q.now))];
    }
    assert members[..|members|] == members;
    if |candidates| == 0 {
      return Refused(if sawCap then PolicyDenied else if !sawOnline then NoCapablePeer
                     else if !sawAnyCaps then CapsUnsupported else NoCapablePeer);
    }
    var best := candidates[0];
    for i := 1 to |candidates|
      invariant best == Best(q.leq, candidates[..i])
    {
      assert candidates[..i + 1][..i] == candidates[..i];
      if !Leq(q.leq, best, candidates[i]) { best := candidates[i]; }
    }
    assert candidates[..|candidates|] == candidates;
    choice := Chosen(best.peer);
  }

  // ---- the order ----

  lemma {:induction false} AliasTotal(a: Alias, b: Alias)
    ensures AliasLeq(a, b) || AliasLeq(b, a)
    ensures AliasLeq(a, b) && AliasLeq(b, a) ==> a == b
  {
    if a != "" && b != "" && a[0] == b[0] {
      AliasTotal(a[1..], b[1..]);
      assert a == [a[0]] + a[1..] && b == [b[0]] + b[1..];
    }
  }

  lemma {:induction false} AliasTransitive(a: Alias, b: Alias, c: Alias)
    requires AliasLeq(a, b) && AliasLeq(b, c)
    ensures AliasLeq(a, c)
  {
    if a != "" && b != "" && c != "" && a[0] == b[0] == c[0] { AliasTransitive(a[1..], b[1..], c[1..]); }
  }

  /** Sorting by code point is one such order. */
  lemma CodePointIsOrder()
    ensures IsOrder(AliasLeq)
  {
    forall a, b ensures AliasLeq(a, b) || AliasLeq(b, a) { AliasTotal(a, b); }
    forall a, b, c | AliasLeq(a, b) && AliasLeq(b, c) ensures AliasLeq(a, c) { AliasTransitive(a, b, c); }
  }

  lemma {:induction false} BestIsOne(leq: AliasOrder, cs: seq<Candidate>)
    requires cs != []
    ensures Best(leq, cs) in cs
  {
    if |cs| > 1 {
      BestIsOne(leq, cs[..|cs| - 1]);
      assert cs == cs[..|cs| - 1] + [cs[|cs| - 1]];
    }
  }

  lemma {:induction false} BestIsLeast(leq: AliasOrder, cs: seq<Candidate>)
    requires cs != [] && IsOrder(leq)
    ensures forall c :: c in cs ==> Leq(leq, Best(leq, cs), c)
  {
    var front, last := cs[..|cs| - 1], cs[|cs| - 1];
    assert cs == front + [last];
    assert leq(last.peer.alias, last.peer.alias);
    if |cs| > 1 {
      BestIsLeast(leq, front);
      var b := Best(leq, front);
      assert leq(b.peer.alias, last.peer.alias) || leq(last.peer.alias, b.peer.alias);
      forall c | c in cs ensures Leq(leq, Best(leq, cs), c) {
        if c in front && !Leq(leq, b, last) { assert Leq(leq, last, b) && Leq(leq, b, c); }
      }
    }
  }

  lemma {:induction false} ScanSees(n: Net, policy: MeshPolicy, q: Request, members: seq<Alias>)
    ensures
      var s := ScanMembers(n, policy, q, members);
      && (s.sawOnline <==> exists a :: a in members && OnlineOther(n, q, a))
      && (s.sawAnyCaps <==> exists a :: a in members && OnlineOther(n, q, a) && |n.tables.peers[a].caps| > 0)
      && (s.sawCap <==> exists a :: a in members && Capable(n, q, a))
      && (forall c :: c in s.candidates ==>
            exists a :: a in members && Eligible(n, policy, q, a) && c == CandidateOf(n, q, a))
      && (forall a :: a in members && Eligible(n, policy, q, a) ==> CandidateOf(n, q, a) in s.candidates)
  {
    if members != [] {
      var front, last := members[..|members| - 1], members[|members| - 1];
      ScanSees(n, policy, q, front);
      assert members == front + [last];
      assert forall a :: a in members <==> a in front || a == last;
    }
  }

  function CandidateOf(n: Net, q: Request, a: Alias): Candidate
    requires a in n.tables.peers
  {
    Candidate(n.tables.peers[a], BusyScore(n.tables.peers[a], q.now))
  }

  /** The chosen record belongs to an eligible member that sorts first among all eligible members. */
  ghost predicate IsOptimal(n: Net, policy: MeshPolicy, q: Request, members: seq<Alias>, p: Peer) {
    exists a ::
      a in members && Eligible(n, policy, q, a) && p == n.tables.peers[a] && SortsFirst(n, policy, q, members, a)
  }

  ghost predicate SortsFirst(n: Net, policy: MeshPolicy, q: Request, members: seq<Alias>, a: Alias)
    requires a in n.tables.peers
  {
    forall b :: b in members && Eligible(n, policy, q, b) ==> Leq(q.leq, CandidateOf(n, q, a), CandidateOf(n, q, b))
  }

  /**
   Somebody is chosen exactly when an eligible member exists, and is one; each refusal
   code under exactly its condition on the members: denied if the policy excludes
   every capable one, unsupported if somebody is online but nobody advertises anything.
   */
  lemma ChoiceIsEligible(n: Net, policy: MeshPolicy, q: Request, members: seq<Alias>)
    ensures
      var c := Choose(n, policy, q, members);
      && (c.Chosen? <==> exists a :: a in members && Eligible(n, policy, q, a))
      && (c.Chosen? ==> exists a :: a in members && Eligible(n, policy, q, a) && c.peer == n.tables.peers[a])
      && (c == Refused(PolicyDenied) <==>
            (exists a :: a in members && Capable(n, q, a)) && !exists a :: a in members && Eligible(n, policy, q, a))
      && (c == Refused(CapsUnsupported) <==>
            && (exists a :: a in members && OnlineOther(n, q, a))
            && !exists a :: a in members && OnlineOther(n, q, a) && |n.tables.peers[a].caps| > 0)
  {
    ScanSees(n, policy, q, members);
    var s := ScanMembers(n, policy, q, members);
    if s.candidates != [] {
      BestIsOne(q.leq, s.candidates);
      assert Best(q.leq, s.candidates) in s.candidates;
    }
    assert forall a :: Capable(n, q, a) ==> OnlineOther(n, q, a) && |n.tables.peers[a].caps| > 0;
  }

  /** Capability routing picks an optimum, in whatever order the host sorts aliases. */
  lemma ChoiceIsOptimal(n: Net, policy: MeshPolicy, q: Request, members: seq<Alias>)
    requires IsOrder(q.leq)
    ensures
      var c := Choose(n, policy, q, members);
      c.Chosen? ==> IsOptimal(n, policy, q, members, c.peer)
  {
    ScanSees(n, policy, q, members);
    var cs := ScanMembers(n, policy, q, members).candidates;
    if cs != [] {
      BestIsOne(q.leq, cs);
      BestIsLeast(q.leq, cs);
      hide ScanMembers, Best, IsOrder, Leq;
      var a :| a in members && Eligible(n, policy, q, a) && Best(q.leq, cs) == CandidateOf(n, q, a);
      assert SortsFirst(n, policy, q, members, a);
    }
  }

  /** An idle eligible member always beats a busy one, in any order of the aliases,
      and the policy never denies the chosen peer when it is asked again. */
  lemma IdleBeatsBusy(n: Net, policy: MeshPolicy, q: Request, members: seq<Alias>, a: Alias)
    requires IsOrder(q.leq)
    requires a in members && Eligible(n, policy, q, a) && BusyScore(n.tables.peers[a], q.now) == 0.0
    requires forall k :: k in n.tables.peers ==> n.tables.peers[k].alias == k
    ensures
      var c := Choose(n, policy, q, members);
      c.Chosen? && BusyScore(c.peer, q.now) == 0.0 && !Verdict(policy, q, c.peer.alias).Deny?
  {
    hide Choose, IsOrder;
    ChoiceIsEligible(n, policy, q, members);
    ChoiceIsOptimal(n, policy, q, members);
  }

  /** An eligible member, known to be ordinarily busy: since a time less than 142,000 years ago. */
  predicate BusySince(n: Net, a: Alias, now: int) {
    a in n.tables.peers && n.tables.peers[a].activity.Busy? && now - n.tables.peers[a].activity.at < 4503599627370495
  }

  /**
   Whom the choice passes over, in any order of the aliases: a busy member is chosen only if no
   eligible one is idle, and then none has been busy for less time; a stalled member (rate
   limited or blocked) is chosen only if every eligible one is stalled.
   */
  lemma ChoicePrefersFree(n: Net, policy: MeshPolicy, q: Request, members: seq<Alias>, b: Alias)
    requires IsOrder(q.leq) && b in members && Eligible(n, policy, q, b)
    ensures
      var c, rival := Choose(n, policy, q, members), n.tables.peers[b].activity;
      && c.Chosen?
      && (c.peer.activity.Busy? || c.peer.activity.Stalled? ==> !rival.Unknown? && !rival.Idle?)
      && (c.peer.activity.Stalled? ==> !BusySince(n, b, q.now))
      && (c.peer.activity.Busy? && rival.Busy? && rival.at < q.now ==> rival.at <= c.peer.activity.at)
  {
    hide Choose, IsOrder;
    ChoiceIsEligible(n, policy, q, members);
    ChoiceIsOptimal(n, policy, q, members);
    hide Eligible;
  }
}
