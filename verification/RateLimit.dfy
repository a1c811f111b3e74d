/**
 Token buckets per alias (msg / urgent / force) and the bound they enforce over
 whole runs.
 */
module RateLimit {
  import opened Common
  import opened StateTables

  datatype Kind = MsgKind | UrgentKind | ForceKind

  datatype Limits = Limits(msgPerMin: int, urgentPerMin: int, forcePerMin: int)

  const RATE_BUCKET_WINDOW_MS := 60000

  function KindOf(p: Priority): Kind {
    match p
    case Normal => MsgKind
    case Urgent => UrgentKind
    case Force => ForceKind
  }

  function Capacity(kind: Kind, limits: Limits): int {
    match kind
    case MsgKind => limits.msgPerMin
    case UrgentKind => limits.urgentPerMin
    case ForceKind => limits.forcePerMin
  }

  function BucketOf(r: PeerRates, kind: Kind): Bucket {
    match kind
    case MsgKind => r.msg
    case UrgentKind => r.urgent
    case ForceKind => r.force
  }

  /** Tokens a bucket of capacity `cap` earns in `ms` milliseconds. */
  function Gain(cap: int, ms: int): real {
    (ms as real / RATE_BUCKET_WINDOW_MS as real) * cap as real
  }

  function MinReal(a: real, b: real): real { if a <= b then a else b }

  function Refill(b: Bucket, cap: int, now: int): Bucket {
    if cap <= 0 || now <= b.lastRefillAt then b
    else Bucket(MinReal(cap as real, b.tokens + Gain(cap, now - b.lastRefillAt)), now)
  }

  function GetRates(rates: map<Alias, PeerRates>, alias: Alias, limits: Limits, now: int): PeerRates {
    if alias in rates then rates[alias]
    else PeerRates(NewBucket(limits.msgPerMin, now), NewBucket(limits.urgentPerMin, now),
        NewBucket(limits.forcePerMin, now))
  }

  function RefillAll(r: PeerRates, limits: Limits, now: int): PeerRates {
    PeerRates(Refill(r.msg, limits.msgPerMin, now), Refill(r.urgent, limits.urgentPerMin, now),
        Refill(r.force, limits.forcePerMin, now))
  }

  function Spend(b: Bucket): Bucket { b.(tokens := b.tokens - 1.0) }

  /** What one rate check does to an alias's three (refilled) buckets. */
  function Consume(r: PeerRates, kind: Kind): (PeerRates, bool) {
    if BucketOf(r, kind).tokens < 1.0 || r.msg.tokens < 1.0 then (r, false)
    else match kind
         case MsgKind => (r.(msg := Spend(r.msg)), true)
         case UrgentKind => (r.(urgent := Spend(r.urgent), msg := Spend(r.msg)), true)
         case ForceKind => (r.(force := Spend(r.force), msg := Spend(r.msg)), true)
  }

  function Check(rates: map<Alias, PeerRates>, alias: Alias, kind: Kind, limits: Limits,
      now: int): (map<Alias, PeerRates>, bool) {
    var (r, ok) := Consume(RefillAll(GetRates(rates, alias, limits, now), limits, now), kind);
    (rates[alias := r], ok)
  }

  /** In-place form of `Check` on the shared broker tables. */
  method CheckRate(state: BrokerState, alias: Alias, kind: Kind, limits: Limits, now: int) returns (ok: bool)
    modifies state`rates
    ensures (state.rates, ok) == Check(old(state.rates), alias, kind, limits, now)
  {
    if alias !in state.rates {
      state.rates := state.rates[alias :=
        PeerRates(NewBucket(limits.msgPerMin, now), NewBucket(limits.urgentPerMin, now),
            NewBucket(limits.forcePerMin, now))];
    }
    var r := state.rates[alias];
    r := r.(msg := Refill(r.msg, limits.msgPerMin, now));
    r := r.(urgent := Refill(r.urgent, limits.urgentPerMin, now));
    r := r.(force := Refill(r.force, limits.forcePerMin, now));
    state.rates := state.rates[alias := r];
    assert r == RefillAll(GetRates(old(state.rates), alias, limits, now), limits, now);
    assert state.rates == old(state.rates)[alias := r];
    if BucketOf(r, kind).tokens < 1.0 { return false; }
    if kind != MsgKind && r.msg.tokens < 1.0 { return false; }
    match kind {
      case MsgKind =>
      case UrgentKind => r := r.(urgent := Spend(r.urgent));
      case ForceKind => r := r.(force := Spend(r.force));
    }
    r := r.(msg := Spend(r.msg));
    state.rates := state.rates[alias := r];
    assert state.rates == old(state.rates)[alias := r];
    ok := true;
  }

  // ---- whole runs ----

  datatype Call = Call(alias: Alias, kind: Kind, now: int)

  /** The rate table after `calls`, starting from a fresh broker. */
  function Rates(limits: Limits, calls: seq<Call>): map<Alias, PeerRates> {
    if calls == [] then map[]
    else
      var c := calls[|calls| - 1];
      Check(Rates(limits, calls[..|calls| - 1]), c.alias, c.kind, limits, c.now).0
  }

  function GrantedLast(limits: Limits, calls: seq<Call>): bool
    requires calls != []
  {
    var c := calls[|calls| - 1];
    Check(Rates(limits, calls[..|calls| - 1]), c.alias, c.kind, limits, c.now).1
  }

  /** A granted call is charged to its own bucket and to the msg bucket. */
  predicate ChargedTo(c: Call, alias: Alias, kind: Kind) {
    c.alias == alias && (c.kind == kind || kind == MsgKind)
  }

  /** Number of grants charged to `alias`'s bucket `kind` at times in (t1, t2]. */
  function Charges(limits: Limits, calls: seq<Call>, alias: Alias, kind: Kind, t1: int, t2: int): nat {
    if calls == [] then 0
    else
      var c := calls[|calls| - 1];
      Charges(limits, calls[..|calls| - 1], alias, kind, t1, t2)
      + if GrantedLast(limits, calls) && ChargedTo(c, alias, kind) && t1 < c.now <= t2 then 1 else 0
  }

  predicate ClockNonDecreasing(calls: seq<Call>) {
    forall i, j :: 0 <= i < j < |calls| ==> calls[i].now <= calls[j].now
  }

  lemma GainAdd(cap: int, a: int, b: int)
    ensures Gain(cap, a) + Gain(cap, b) == Gain(cap, a + b)
  {
    var w := RATE_BUCKET_WINDOW_MS as real;
    assert a as real / w + b as real / w == (a + b) as real / w;
  }

  lemma GainMonotone(cap: int, a: int, b: int)
    requires cap >= 0 && a <= b
    ensures Gain(cap, a) <= Gain(cap, b)
  {
    GainAdd(cap, a, b - a);
    assert (b - a) as real / RATE_BUCKET_WINDOW_MS as real >= 0.0;
  }

  /** The bucket's capacity plus what it earns over `ms`, as an upper limit on grants. */
  function Allowance(cap: int, ms: int): real { Max(cap, 0) as real + Gain(Max(cap, 0), ms) }

  /** Invariant tying a bucket to the grants already charged to it in (t1, t2]. */
  ghost predicate Accounted(b: Bucket, cap: int, charged: nat, t1: int, t2: int) {
    if cap <= 0 then b.tokens <= 0.0 && charged == 0
    else
      && 0.0 <= b.tokens <= cap as real
      && (b.lastRefillAt <= t1 ==> charged == 0)
      && (t1 < b.lastRefillAt <= t2 ==> charged as real + b.tokens <= Allowance(cap, b.lastRefillAt - t1))
      && (t2 < b.lastRefillAt ==> charged as real <= Allowance(cap, t2 - t1))
  }

  lemma RefillAccounted(b: Bucket, cap: int, charged: nat, t1: int, t2: int, now: int)
    requires t1 <= t2 && Accounted(b, cap, charged, t1, t2)
    ensures Accounted(Refill(b, cap, now), cap, charged, t1, t2)
  {
    if cap > 0 && now > b.lastRefillAt {
      GainMonotone(cap, 0, now - b.lastRefillAt);
      GainMonotone(cap, 0, t2 - t1);
      if t1 < b.lastRefillAt {
        GainAdd(cap, b.lastRefillAt - t1, now - b.lastRefillAt);
        if b.lastRefillAt <= t2 {
          GainMonotone(cap, b.lastRefillAt - t1, t2 - t1);
        }
      } else if t1 < now {
        GainMonotone(cap, 0, now - t1);
      }
    }
  }

  lemma FreshAccounted(cap: int, t1: int, t2: int, now: int)
    requires t1 <= t2
    ensures Accounted(NewBucket(cap, now), cap, 0, t1, t2)
  {
    if cap > 0 {
      GainMonotone(cap, 0, t2 - t1);
      if t1 < now { GainMonotone(cap, 0, now - t1); }
    }
  }

  /** One rate check keeps the account of either bucket it may charge. */
  lemma ConsumeAccounted(r: PeerRates, limits: Limits, c: Call, kind: Kind, charged: nat, t1: int, t2: int)
    requires Accounted(BucketOf(r, kind), Capacity(kind, limits), charged, t1, t2)
    requires Capacity(kind, limits) > 0 ==> BucketOf(r, kind).lastRefillAt == c.now
    ensures
      var (r', ok) := Consume(r, c.kind);
      var n := charged + if ok && (c.kind == kind || kind == MsgKind) && t1 < c.now <= t2 then 1 else 0;
      && Accounted(BucketOf(r', kind), Capacity(kind, limits), n, t1, t2)
      && BucketOf(r', kind).lastRefillAt == BucketOf(r, kind).lastRefillAt
  {}

  ghost predicate RunInv(limits: Limits, calls: seq<Call>, alias: Alias, kind: Kind, t1: int, t2: int) {
    var r, n := Rates(limits, calls), Charges(limits, calls, alias, kind, t1, t2);
    if alias in r then
      && Accounted(BucketOf(r[alias], kind), Capacity(kind, limits), n, t1, t2)
      && (Capacity(kind, limits) > 0 ==> calls != [] && BucketOf(r[alias], kind).lastRefillAt <= calls[|calls| - 1].now)
    else n == 0
  }

  /** The induction behind the rate bound. */
  lemma {:induction false} RunAccounted(limits: Limits, calls: seq<Call>, alias: Alias, kind: Kind, t1: int, t2: int)
    requires t1 <= t2 && ClockNonDecreasing(calls)
    ensures RunInv(limits, calls, alias, kind, t1, t2)
  {
    if calls != [] {
      var front, c := calls[..|calls| - 1], calls[|calls| - 1];
      var cap := Capacity(kind, limits);
      RunAccounted(limits, front, alias, kind, t1, t2);
      hide Check, Accounted;
      if c.alias == alias {
        CheckAccounted(Rates(limits, front), limits, c, kind, Charges(limits, front, alias, kind, t1, t2), t1, t2);
      } else {
        CheckTouchesOne(Rates(limits, front), limits, c, alias);
      }
    }
  }

  /** One check keeps the account of the bucket of its alias, known or new. */
  lemma CheckAccounted(rates: map<Alias, PeerRates>, limits: Limits, c: Call, kind: Kind, n: nat, t1: int, t2: int)
    requires t1 <= t2
    requires
      if c.alias in rates then
        && Accounted(BucketOf(rates[c.alias], kind), Capacity(kind, limits), n, t1, t2)
        && (Capacity(kind, limits) > 0 ==> BucketOf(rates[c.alias], kind).lastRefillAt <= c.now)
      else n == 0
    ensures
      var (rates', ok) := Check(rates, c.alias, c.kind, limits, c.now);
      var n' := n + if ok && (c.kind == kind || kind == MsgKind) && t1 < c.now <= t2 then 1 else 0;
      && c.alias in rates' && Accounted(BucketOf(rates'[c.alias], kind), Capacity(kind, limits), n', t1, t2)
      && (Capacity(kind, limits) > 0 ==> BucketOf(rates'[c.alias], kind).lastRefillAt == c.now)
  {
    hide Accounted;
    var cap, r := Capacity(kind, limits), GetRates(rates, c.alias, limits, c.now);
    FreshAccounted(cap, t1, t2, c.now);
    RefillAccounted(BucketOf(r, kind), cap, n, t1, t2, c.now);
    ConsumeAccounted(RefillAll(r, limits, c.now), limits, c, kind, n, t1, t2);
  }

  lemma CheckTouchesOne(rates: map<Alias, PeerRates>, limits: Limits, c: Call, alias: Alias)
    requires c.alias != alias
    ensures
      var rates' := Check(rates, c.alias, c.kind, limits, c.now).0;
      (alias in rates' <==> alias in rates) && (alias in rates ==> rates'[alias] == rates[alias])
  {
    hide Consume, RefillAll;
  }

  lemma AccountedWithinAllowance(b: Bucket, cap: int, charged: nat, t1: int, t2: int)
    requires t1 <= t2 && Accounted(b, cap, charged, t1, t2)
    ensures charged as real <= Allowance(cap, t2 - t1)
  {
    GainMonotone(Max(cap, 0), 0, t2 - t1);
    if cap > 0 && t1 < b.lastRefillAt <= t2 {
      GainMonotone(cap, b.lastRefillAt - t1, t2 - t1);
    }
  }

  /**
   The rate bound over whole runs: in every run of rate checks under a
   non-decreasing clock, the grants charged to one bucket of one alias in the
   window (t1, t2] number at most its capacity plus what it earns in t2 - t1.
   */
  lemma {:induction false} RateBound(limits: Limits, calls: seq<Call>, alias: Alias, kind: Kind, t1: int, t2: int)
    requires t1 <= t2 && ClockNonDecreasing(calls)
    ensures Charges(limits, calls, alias, kind, t1, t2) as real <= Allowance(Capacity(kind, limits), t2 - t1)
  {
    RunAccounted(limits, calls, alias, kind, t1, t2);
    var r, n := Rates(limits, calls), Charges(limits, calls, alias, kind, t1, t2);
    if alias in r {
      AccountedWithinAllowance(BucketOf(r[alias], kind), Capacity(kind, limits), n, t1, t2);
    } else {
      GainMonotone(Max(Capacity(kind, limits), 0), 0, t2 - t1);
    }
  }

  /** Lower account: what was charged since t1 plus what is left covers
      everything earned since t1, up to the capacity. */
  ghost predicate Funded(b: Bucket, cap: int, charged: nat, t1: int) {
    cap > 0 ==>
      && 0.0 <= b.tokens <= cap as real
      && (t1 < b.lastRefillAt ==> charged as real + b.tokens >= MinReal(cap as real, Gain(cap, b.lastRefillAt - t1)))
  }

  lemma RefillFunded(b: Bucket, cap: int, charged: nat, t1: int, now: int)
    requires Funded(b, cap, charged, t1)
    ensures Funded(Refill(b, cap, now), cap, charged, t1)
  {
    if cap > 0 && now > b.lastRefillAt {
      GainMonotone(cap, 0, now - b.lastRefillAt);
      if t1 < b.lastRefillAt {
        GainAdd(cap, b.lastRefillAt - t1, now - b.lastRefillAt);
      } else {
        GainMonotone(cap, now - t1, now - b.lastRefillAt);
      }
    }
  }

  lemma ConsumeFunded(r: PeerRates, limits: Limits, c: Call, kind: Kind, charged: nat, t1: int, t2: int)
    requires Funded(BucketOf(r, kind), Capacity(kind, limits), charged, t1)
    requires Capacity(kind, limits) > 0 ==> BucketOf(r, kind).lastRefillAt == c.now <= t2
    ensures
      var (r', ok) := Consume(r, c.kind);
      var n := charged + if ok && (c.kind == kind || kind == MsgKind) && t1 < c.now <= t2 then 1 else 0;
      Funded(BucketOf(r', kind), Capacity(kind, limits), n, t1)
  {}

  lemma {:induction false} RunFunded(limits: Limits, calls: seq<Call>, alias: Alias, kind: Kind, t1: int, t2: int)
    requires t1 <= t2 && ClockNonDecreasing(calls) && (forall c :: c in calls ==> c.now <= t2)
    ensures
      var r := Rates(limits, calls);
      alias in r ==> Funded(BucketOf(r[alias], kind), Capacity(kind, limits),
          Charges(limits, calls, alias, kind, t1, t2), t1)
  {
    if calls != [] {
      var front, c := calls[..|calls| - 1], calls[|calls| - 1];
      RunFunded(limits, front, alias, kind, t1, t2);
      RunAccounted(limits, front, alias, kind, t1, t2);
      hide Check, Accounted, Funded;
      if c.alias == alias {
        CheckFunded(Rates(limits, front), limits, c, kind, Charges(limits, front, alias, kind, t1, t2), t1, t2);
      } else {
        CheckTouchesOne(Rates(limits, front), limits, c, alias);
      }
    }
  }

  lemma CheckFunded(rates: map<Alias, PeerRates>, limits: Limits, c: Call, kind: Kind, n: nat, t1: int, t2: int)
    requires t1 <= t2 && c.now <= t2
    requires
      if c.alias in rates then
        && Funded(BucketOf(rates[c.alias], kind), Capacity(kind, limits), n, t1)
        && (Capacity(kind, limits) > 0 ==> BucketOf(rates[c.alias], kind).lastRefillAt <= c.now)
      else n == 0
    ensures
      var (rates', ok) := Check(rates, c.alias, c.kind, limits, c.now);
      var n' := n + if ok && (c.kind == kind || kind == MsgKind) && t1 < c.now <= t2 then 1 else 0;
      c.alias in rates' && Funded(BucketOf(rates'[c.alias], kind), Capacity(kind, limits), n', t1)
  {
    var cap, r := Capacity(kind, limits), GetRates(rates, c.alias, limits, c.now);
    NewIsFunded(cap, t1, c.now);
    hide Funded;
    RefillFunded(BucketOf(r, kind), cap, n, t1, c.now);
    ConsumeFunded(RefillAll(r, limits, c.now), limits, c, kind, n, t1, t2);
  }

  lemma NewIsFunded(cap: int, t1: int, now: int)
    ensures Funded(NewBucket(cap, now), cap, 0, t1)
  {}

  /**
   The partner of `RateBound`: nobody is refused early. A check refused at
   `now` means that its own bucket or the msg bucket was already charged its
   full capacity within the last minute.
   */
  lemma {:induction false} RefusedOnlyAfterFullMinute(limits: Limits, calls: seq<Call>, c: Call)
    requires ClockNonDecreasing(calls + [c]) && !GrantedLast(limits, calls + [c])
    ensures
      var t1 := c.now - RATE_BUCKET_WINDOW_MS;
      || Charges(limits, calls, c.alias, c.kind, t1, c.now) >= Capacity(c.kind, limits)
      || Charges(limits, calls, c.alias, MsgKind, t1, c.now) >= Capacity(MsgKind, limits)
  {
    var all := calls + [c];
    assert all[..|all| - 1] == calls;
    assert forall i, j :: 0 <= i < j < |calls| ==> calls[i] == all[i] && calls[j] == all[j];
    assert forall i :: 0 <= i < |calls| ==> calls[i] == all[i] && all[i].now <= all[|calls|].now;
    var filled := RefillAll(GetRates(Rates(limits, calls), c.alias, limits, c.now), limits, c.now);
    var k := if BucketOf(filled, c.kind).tokens < 1.0 then c.kind else MsgKind;
    assert BucketOf(filled, k).tokens < 1.0;
    ShortBucketWasCharged(limits, calls, c, k);
  }

  lemma {:induction false} ShortBucketWasCharged(limits: Limits, calls: seq<Call>, c: Call, k: Kind)
    requires ClockNonDecreasing(calls) && forall d :: d in calls ==> d.now <= c.now
    requires BucketOf(RefillAll(GetRates(Rates(limits, calls), c.alias, limits, c.now), limits, c.now), k).tokens < 1.0
    ensures Charges(limits, calls, c.alias, k, c.now - RATE_BUCKET_WINDOW_MS, c.now) >= Capacity(k, limits)
  {
    hide Rates, Charges, Accounted;
    var cap, t1 := Capacity(k, limits), c.now - RATE_BUCKET_WINDOW_MS;
    if cap > 0 {
      var r := Rates(limits, calls);
      RunAccounted(limits, calls, c.alias, k, t1, c.now);
      RunFunded(limits, calls, c.alias, k, t1, c.now);
      if c.alias in r {
        var n := Charges(limits, calls, c.alias, k, t1, c.now);
        RefillFunded(BucketOf(r[c.alias], k), cap, n, t1, c.now);
        assert Gain(cap, RATE_BUCKET_WINDOW_MS) == cap as real;
      }
    }
  }

  /** A refused check charges nothing: every bucket keeps its refilled tokens,
      and a check is refused exactly when its own or the msg bucket is short. */
  lemma RefusalChargesNothing(rates: map<Alias, PeerRates>, alias: Alias, kind: Kind, limits: Limits, now: int)
    ensures
      var filled := RefillAll(GetRates(rates, alias, limits, now), limits, now);
      var (rates', ok) := Check(rates, alias, kind, limits, now);
      && (ok <==> BucketOf(filled, kind).tokens >= 1.0 && filled.msg.tokens >= 1.0)
      && (!ok ==> rates'[alias] == filled)
      && (forall a :: a in rates && a != alias ==> a in rates' && rates'[a] == rates[a])
  {}

  /** The clock hypothesis of `RateBound` is needed: when the clock jumps ahead
      and back, one millisecond can hold twice the capacity. */
  lemma BackwardClockBreaksBound()
    ensures
      var limits := Limits(1, 0, 0);
      var c := Call("a", MsgKind, 1);
      var calls := [c, Call("a", ForceKind, 60001), c];
      && !ClockNonDecreasing(calls)
      && Charges(limits, calls, "a", MsgKind, 0, 1) as real > Allowance(1, 1)
  {
    var limits := Limits(1, 0, 0);
    var c, jump := Call("a", MsgKind, 1), Call("a", ForceKind, 60001);
    var calls := [c, jump, c];
    assert calls[1].now > calls[2].now;
    assert calls[..2] == [c, jump] && [c, jump][..1] == [c] && [c][..0] == [];
    assert Gain(1, 60000) == 1.0;
    assert Rates(limits, []) == map[];
    assert Rates(limits, [c])["a"].msg == Bucket(0.0, 1);
    assert Rates(limits, [c])["a"].force == Bucket(0.0, 1);
    assert Rates(limits, [c, jump])["a"].msg == Bucket(1.0, 60001);
    assert GrantedLast(limits, [c]) && GrantedLast(limits, calls);
    assert Charges(limits, [c], "a", MsgKind, 0, 1) == 1;
    assert Charges(limits, [c, jump], "a", MsgKind, 0, 1) == 1;
  }
}
