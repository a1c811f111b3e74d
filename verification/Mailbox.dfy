/**
 The offline mailbox: one queue per alias with a TTL and a cap. Everything that
 leaves a queue undelivered is handed back to the caller, so that its sender
 can be told.
 */
module Mailbox {
  import opened Common
  import opened StateTables

  datatype Config = Config(mailboxCap: int, mailboxTtlMs: int)

  /** The mailbox part of the broker tables. */
  datatype Box = Box(queues: map<Alias, seq<Stored>>, delivered: nat, dropped: nat)

  ghost function BoxOf(state: BrokerState): Box
    reads state
  {
    Box(state.mailbox, state.mailboxDelivered, state.mailboxDropped)
  }

  function Queue(b: Box, alias: Alias): seq<Stored> {
    if alias in b.queues then b.queues[alias] else []
  }

  predicate IsFresh(m: Stored, ttlMs: int, now: int) { now - m.enqueuedAt <= ttlMs }

  function FreshPart(q: seq<Stored>, ttlMs: int, now: int): seq<Stored> {
    if q == [] then []
    else
      var rest, m := FreshPart(q[..|q| - 1], ttlMs, now), q[|q| - 1];
      if IsFresh(m, ttlMs, now) then rest + [m] else rest
  }

  function ExpiredPart(q: seq<Stored>, ttlMs: int, now: int): seq<Stored> {
    if q == [] then []
    else
      var rest, m := ExpiredPart(q[..|q| - 1], ttlMs, now), q[|q| - 1];
      if IsFresh(m, ttlMs, now) then rest else rest + [m]
  }

  function SetQueue(b: Box, alias: Alias, q: seq<Stored>): map<Alias, seq<Stored>> {
    if q == [] then b.queues - {alias} else b.queues[alias := q]
  }

  /** Split one queue at the TTL boundary; the expired part is counted as dropped. */
  function Expire(b: Box, cfg: Config, alias: Alias, now: int): Box {
    var q := Queue(b, alias);
    Box(SetQueue(b, alias, FreshPart(q, cfg.mailboxTtlMs, now)),
        b.delivered,
        b.dropped + |ExpiredPart(q, cfg.mailboxTtlMs, now)|)
  }

  /** How many of `n` queued entries the cap evicts from the front. */
  function Excess(n: nat, cap: int): (e: nat)
    ensures e <= n
  {
    if n <= Max(cap, 0) then 0 else n - Max(cap, 0)
  }

  /** Queue after an enqueue and the entries it dropped (expired, then evicted). */
  function EnqueueQueue(q: seq<Stored>, cfg: Config, m: Stored, now: int): (seq<Stored>, seq<Stored>) {
    var all := FreshPart(q, cfg.mailboxTtlMs, now) + [m];
    var e := Excess(|all|, cfg.mailboxCap);
    (all[e..], ExpiredPart(q, cfg.mailboxTtlMs, now) + all[..e])
  }

  function Enqueue(b: Box, cfg: Config, alias: Alias, frame: Msg, now: int): (Box, seq<Stored>) {
    var (kept, dropped) := EnqueueQueue(Queue(b, alias), cfg, Stored(frame, now), now);
    (Box(b.queues[alias := kept], b.delivered, b.dropped + |dropped|), dropped)
  }

  /** Drain one queue at hello: (new tables, frames to deliver, expired entries). */
  function Flush(b: Box, cfg: Config, alias: Alias, now: int): (Box, seq<Stored>, seq<Stored>) {
    var q := Queue(b, alias);
    var live, dropped := FreshPart(q, cfg.mailboxTtlMs, now), ExpiredPart(q, cfg.mailboxTtlMs, now);
    (Box(b.queues - {alias}, b.delivered + |live|, b.dropped + |dropped|), live, dropped)
  }

  /** Expiry of several queues, one after the other. */
  function ExpireAll(b: Box, cfg: Config, aliases: seq<Alias>, now: int): Box {
    if aliases == [] then b
    else Expire(ExpireAll(b, cfg, aliases[..|aliases| - 1], now), cfg, aliases[|aliases| - 1], now)
  }

  // ---- in-place operations on the broker tables ----

  method PartitionExpired(state: BrokerState, cfg: Config, alias: Alias, now: int)
      returns (live: seq<Stored>, dropped: seq<Stored>)
    modifies state`mailbox, state`mailboxDropped
    ensures BoxOf(state) == Expire(old(BoxOf(state)), cfg, alias, now)
    ensures live == FreshPart(Queue(old(BoxOf(state)), alias), cfg.mailboxTtlMs, now)
    ensures dropped == ExpiredPart(Queue(old(BoxOf(state)), alias), cfg.mailboxTtlMs, now)
  {
    var queue := if alias in state.mailbox then state.mailbox[alias] else [];
    live, dropped := [], [];
    for i := 0 to |queue|
      invariant live == FreshPart(queue[..i], cfg.mailboxTtlMs, now)
      invariant dropped == ExpiredPart(queue[..i], cfg.mailboxTtlMs, now)
    {
      assert queue[..i + 1][..i] == queue[..i];
      if IsFresh(queue[i], cfg.mailboxTtlMs, now) {
        live := live + [queue[i]];
      } else {
        dropped := dropped + [queue[i]];
      }
    }
    assert queue[..|queue|] == queue;
    if |dropped| > 0 { state.mailboxDropped := state.mailboxDropped + |dropped|; }
    if |live| == 0 {
      state.mailbox := state.mailbox - {alias};
    } else {
      state.mailbox := state.mailbox[alias := live];
    }
  }

  method EnqueueMailbox(state: BrokerState, cfg: Config, alias: Alias, frame: Msg, now: int)
      returns (dropped: seq<Stored>)
    modifies state`mailbox, state`mailboxDropped
    ensures (BoxOf(state), dropped) == Enqueue(old(BoxOf(state)), cfg, alias, frame, now)
  {
    hide FreshPart, ExpiredPart;
    var live;
    live, dropped := PartitionExpired(state, cfg, alias, now);
    ghost var expired, box, kept := dropped, BoxOf(state), live;
    live := live + [Stored(frame, now)];
    ghost var all := live;
    ghost var e := 0;
    while |live| > cfg.mailboxCap && |live| > 0
      invariant e <= Excess(|all|, cfg.mailboxCap) && live == all[e..]
      invariant dropped == expired + all[..e]
      invariant state.mailboxDropped == box.dropped + e
      modifies state`mailboxDropped
    {
      var evicted := live[0];
      live := live[1..];
      dropped := dropped + [evicted];
      state.mailboxDropped := state.mailboxDropped + 1;
      assert all[..e + 1] == all[..e] + [all[e]];
      e := e + 1;
    }
    state.mailbox := state.mailbox[alias := live];
    SetThenPut(old(BoxOf(state)), alias, kept, live);
  }

  lemma SetThenPut(b: Box, alias: Alias, q: seq<Stored>, q': seq<Stored>)
    ensures SetQueue(b, alias, q)[alias := q'] == b.queues[alias := q']
  {}

  /** Periodic purge: every queue is expired, in some order of the aliases. */
  method PurgeAllExpired(state: BrokerState, cfg: Config, now: int)
      returns (dropped: seq<Stored>, ghost order: seq<Alias>)
    modifies state`mailbox, state`mailboxDropped
    ensures NoDup(order) && forall a :: a in order <==> a in old(state.mailbox)
    ensures BoxOf(state) == ExpireAll(old(BoxOf(state)), cfg, order, now)
    ensures dropped == ExpiredOver(old(BoxOf(state)), cfg, order, now)
  {
    dropped, order := [], [];
    var keys := state.mailbox.Keys;
    while keys != {}
      invariant NoDup(order) && forall a :: a in old(state.mailbox) <==> a in keys || a in order
      invariant forall a :: a in keys ==> a !in order
      invariant BoxOf(state) == ExpireAll(old(BoxOf(state)), cfg, order, now)
      invariant dropped == ExpiredOver(old(BoxOf(state)), cfg, order, now)
    {
      var alias :| alias in keys;
      var _, gone := PartitionExpired(state, cfg, alias, now);
      dropped := dropped + gone;
      keys := keys - {alias};
      ghost var longer := order + [alias];
      AppendNoDup(order, alias);
      assert longer[..|longer| - 1] == order;
      order := longer;
    }
  }

  function ExpiredOver(b: Box, cfg: Config, aliases: seq<Alias>, now: int): seq<Stored> {
    if aliases == [] then []
    else
      var front, a := aliases[..|aliases| - 1], aliases[|aliases| - 1];
      ExpiredOver(b, cfg, front, now) + ExpiredPart(Queue(ExpireAll(b, cfg, front, now), a), cfg.mailboxTtlMs, now)
  }

  method FlushMailbox(state: BrokerState, cfg: Config, alias: Alias, now: int)
      returns (frames: seq<Stored>, dropped: seq<Stored>)
    modifies state`mailbox, state`mailboxDropped, state`mailboxDelivered
    ensures (BoxOf(state), frames, dropped) == Flush(old(BoxOf(state)), cfg, alias, now)
  {
    frames, dropped := PartitionExpired(state, cfg, alias, now);
    state.mailbox := state.mailbox - {alias};
    state.mailboxDelivered := state.mailboxDelivered + |frames|;
    assert state.mailbox == old(state.mailbox) - {alias};
  }

  /** Reports a queue's length, discarding what it finds expired. */
  method MailboxSize(state: BrokerState, cfg: Config, alias: Alias, now: int) returns (n: nat)
    modifies state`mailbox, state`mailboxDropped
    ensures BoxOf(state) == Expire(old(BoxOf(state)), cfg, alias, now)
    ensures n == |Queue(BoxOf(state), alias)|
  {
    var live, _ := PartitionExpired(state, cfg, alias, now);
    n := |live|;
  }

  // ---- runs ----

  datatype Step =
    | EnqueueStep(alias: Alias, frame: Msg, now: int)
    | ExpireStep(alias: Alias, now: int)
    | FlushStep(alias: Alias, now: int)
    | SizeStep(alias: Alias, now: int)

  /** What one step puts into the queue of its alias, hands back as dropped,
      hands out for delivery, and discards without telling anyone. */
  datatype Effect = Effect(box: Box, entered: seq<Stored>, dropped: seq<Stored>, delivered: seq<Stored>,
      discarded: seq<Stored>)

  function Apply(b: Box, cfg: Config, s: Step): Effect {
    match s
    case EnqueueStep(a, f, now) =>
      var (b', d) := Enqueue(b, cfg, a, f, now);
      Effect(b', [Stored(f, now)], d, [], [])
    case ExpireStep(a, now) =>
      Effect(Expire(b, cfg, a, now), [], ExpiredPart(Queue(b, a), cfg.mailboxTtlMs, now), [], [])
    case FlushStep(a, now) =>
      var (b', frames, d) := Flush(b, cfg, a, now);
      Effect(b', [], d, frames, [])
    case SizeStep(a, now) =>
      Effect(Expire(b, cfg, a, now), [], [], [], ExpiredPart(Queue(b, a), cfg.mailboxTtlMs, now))
  }

  const EMPTY := Box(map[], 0, 0)

  function Run(cfg: Config, steps: seq<Step>): Box {
    if steps == [] then EMPTY
    else Apply(Run(cfg, steps[..|steps| - 1]), cfg, steps[|steps| - 1]).box
  }

  function LastEffect(cfg: Config, steps: seq<Step>): Effect
    requires steps != []
  {
    Apply(Run(cfg, steps[..|steps| - 1]), cfg, steps[|steps| - 1])
  }

  /** What happened to the entries of one alias during a run: those that
      entered, and those that were handed back as dropped, delivered or
      discarded; `left` lists the last three in the order in which they left. */
  datatype Ledger = Ledger(entered: seq<Stored>, dropped: seq<Stored>, delivered: seq<Stored>, discarded: seq<Stored>,
      left: seq<Stored>)

  /** Everything a step removed from its queue, in the order it left. */
  function Gone(e: Effect): seq<Stored> { e.discarded + e.dropped + e.delivered }

  function Record(l: Ledger, e: Effect): Ledger {
    Ledger(l.entered + e.entered, l.dropped + e.dropped, l.delivered + e.delivered, l.discarded + e.discarded,
        l.left + Gone(e))
  }

  function History(cfg: Config, steps: seq<Step>, alias: Alias): Ledger {
    if steps == [] then Ledger([], [], [], [], [])
    else
      var before := History(cfg, steps[..|steps| - 1], alias);
      if steps[|steps| - 1].alias == alias then Record(before, LastEffect(cfg, steps)) else before
  }

  lemma {:induction false} PartitionKeepsAll(q: seq<Stored>, ttlMs: int, now: int)
    ensures multiset(FreshPart(q, ttlMs, now)) + multiset(ExpiredPart(q, ttlMs, now)) == multiset(q)
    ensures |FreshPart(q, ttlMs, now)| + |ExpiredPart(q, ttlMs, now)| == |q|
  {
    if q != [] {
      PartitionKeepsAll(q[..|q| - 1], ttlMs, now);
      assert q == q[..|q| - 1] + [q[|q| - 1]];
    }
  }

  /** Occurrences of one entry. */
  ghost function Count(s: seq<Stored>, x: Stored): nat { multiset(s)[x] }

  lemma CountConcat(a: seq<Stored>, b: seq<Stored>, x: Stored)
    ensures Count(a + b, x) == Count(a, x) + Count(b, x)
  {}

  lemma PartitionCount(q: seq<Stored>, ttlMs: int, now: int, x: Stored)
    ensures Count(FreshPart(q, ttlMs, now), x) + Count(ExpiredPart(q, ttlMs, now), x) == Count(q, x)
  {
    PartitionKeepsAll(q, ttlMs, now);
    assert multiset(q)[x] == (multiset(FreshPart(q, ttlMs, now)) + multiset(ExpiredPart(q, ttlMs, now)))[x];
  }

  lemma EnqueueCounts(q: seq<Stored>, cfg: Config, m: Stored, now: int, x: Stored)
    ensures
      var (kept, dropped) := EnqueueQueue(q, cfg, m, now);
      && Count(kept, x) + Count(dropped, x) == Count(q, x) + Count([m], x)
      && |kept| + |dropped| == |q| + 1
  {
    PartitionKeepsAll(q, cfg.mailboxTtlMs, now);
    PartitionCount(q, cfg.mailboxTtlMs, now, x);
    var live := FreshPart(q, cfg.mailboxTtlMs, now);
    var all := live + [m];
    var e := Excess(|all|, cfg.mailboxCap);
    assert all == all[..e] + all[e..];
    CountConcat(live, [m], x);
    CountConcat(all[..e], all[e..], x);
    CountConcat(ExpiredPart(q, cfg.mailboxTtlMs, now), all[..e], x);
  }

  /** Right after an enqueue the queue ends with the new message, exactly when the
      cap is positive; no other queue changes. */
  lemma NewestSurvives(b: Box, cfg: Config, alias: Alias, frame: Msg, now: int)
    ensures
      var q := Queue(Enqueue(b, cfg, alias, frame, now).0, alias);
      && (cfg.mailboxCap >= 1 <==> q != [] && q[|q| - 1] == Stored(frame, now))
      && (cfg.mailboxCap < 1 ==> q == [])
    ensures forall a :: a != alias ==> Queue(Enqueue(b, cfg, alias, frame, now).0, a) == Queue(b, a)
  {
    var all := FreshPart(Queue(b, alias), cfg.mailboxTtlMs, now) + [Stored(frame, now)];
    assert all[|all| - 1] == Stored(frame, now);
  }

  lemma ExpireTouchesOneQueue(b: Box, cfg: Config, a: Alias, now: int, alias: Alias)
    ensures Queue(Expire(b, cfg, a, now), alias)
         == if alias == a then FreshPart(Queue(b, a), cfg.mailboxTtlMs, now) else Queue(b, alias)
  {}

  lemma StepTouchesOneQueue(b: Box, cfg: Config, s: Step, alias: Alias)
    requires alias != s.alias
    ensures Queue(Apply(b, cfg, s).box, alias) == Queue(b, alias)
  {}

  /** One step neither creates nor destroys an occurrence of any entry. */
  lemma StepConserves(b: Box, cfg: Config, s: Step, x: Stored)
    ensures
      var e := Apply(b, cfg, s);
      Count(Queue(b, s.alias), x) + Count(e.entered, x)
        == Count(Queue(e.box, s.alias), x) + Count(e.dropped, x) + Count(e.delivered, x) + Count(e.discarded, x)
  {
    var q := Queue(b, s.alias);
    PartitionCount(q, cfg.mailboxTtlMs, s.now, x);
    match s {
      case EnqueueStep(a, f, now) => EnqueueCounts(q, cfg, Stored(f, now), now, x);
      case ExpireStep(a, now) => ExpireTouchesOneQueue(b, cfg, a, now, a);
      case FlushStep(a, now) => assert Queue(Flush(b, cfg, a, now).0, a) == [];
      case SizeStep(a, now) => ExpireTouchesOneQueue(b, cfg, a, now, a);
    }
  }

  /** The ledger accounts for every occurrence of `x` given what is still queued. */
  ghost predicate Balanced(l: Ledger, queued: seq<Stored>, x: Stored) {
    Count(l.entered, x) == Count(queued, x) + Count(l.delivered, x) + Count(l.dropped, x) + Count(l.discarded, x)
  }

  lemma RecordBalances(l: Ledger, b: Box, cfg: Config, s: Step, x: Stored)
    requires Balanced(l, Queue(b, s.alias), x)
    ensures Balanced(Record(l, Apply(b, cfg, s)), Queue(Apply(b, cfg, s).box, s.alias), x)
  {
    var e := Apply(b, cfg, s);
    StepConserves(b, cfg, s, x);
    CountConcat(l.entered, e.entered, x);
    CountConcat(l.dropped, e.dropped, x);
    CountConcat(l.delivered, e.delivered, x);
    CountConcat(l.discarded, e.discarded, x);
  }

  lemma {:induction false} EntryConserved(cfg: Config, steps: seq<Step>, alias: Alias, x: Stored)
    ensures Balanced(History(cfg, steps, alias), Queue(Run(cfg, steps), alias), x)
  {
    if steps != [] {
      var front, s := steps[..|steps| - 1], steps[|steps| - 1];
      EntryConserved(cfg, front, alias, x);
      if s.alias == alias {
        RecordBalances(History(cfg, front, alias), Run(cfg, front), cfg, s, x);
      } else {
        StepTouchesOneQueue(Run(cfg, front), cfg, s, alias);
      }
    }
  }

  /**
   Conservation, for every interleaving and every clock: the entries ever put
   into a queue are exactly those still queued, those delivered, those handed
   back as dropped and those discarded by a size query, each once.
   */
  lemma Conservation(cfg: Config, steps: seq<Step>, alias: Alias)
    ensures
      var h := History(cfg, steps, alias);
      multiset(h.entered)
        == multiset(Queue(Run(cfg, steps), alias)) + multiset(h.delivered) + multiset(h.dropped) + multiset(h.discarded)
  {
    var h := History(cfg, steps, alias);
    var queued := multiset(Queue(Run(cfg, steps), alias));
    var all := queued + multiset(h.delivered) + multiset(h.dropped) + multiset(h.discarded);
    forall x: Stored
      ensures multiset(h.entered)[x] == all[x]
    {
      EntryConserved(cfg, steps, alias, x);
    }
  }

  /** Step `k` of the run is a size query on `alias` that meets an expired entry. */
  ghost predicate QueryMeetsExpired(cfg: Config, steps: seq<Step>, alias: Alias, k: nat)
    requires k < |steps|
  {
    && steps[k].SizeStep? && steps[k].alias == alias
    && ExpiredPart(Queue(Run(cfg, steps[..k]), alias), cfg.mailboxTtlMs, steps[k].now) != []
  }

  lemma LastDiscards(cfg: Config, steps: seq<Step>, alias: Alias)
    requires steps != []
    ensures
      var n := |steps| - 1;
      (History(cfg, steps, alias).discarded != [])
        == (History(cfg, steps[..n], alias).discarded != [] || QueryMeetsExpired(cfg, steps, alias, n))
  {
    hide FreshPart, ExpiredPart, Run;
  }

  /** An entry of `alias` is lost without a receipt exactly when some size query
      met an expired entry; the broker's own steps never lose one. */
  lemma {:induction false} SilentLossOnlyBySizeQuery(cfg: Config, steps: seq<Step>, alias: Alias)
    ensures History(cfg, steps, alias).discarded != []
       <==> exists k: nat :: k < |steps| && QueryMeetsExpired(cfg, steps, alias, k)
  {
    if steps != [] {
      hide History, Run, ExpiredPart;
      var n := |steps| - 1;
      var front := steps[..n];
      SilentLossOnlyBySizeQuery(cfg, front, alias);
      forall k: nat | k < n
        ensures QueryMeetsExpired(cfg, steps, alias, k) == QueryMeetsExpired(cfg, front, alias, k)
      {
        assert front[..k] == steps[..k];
      }
      LastDiscards(cfg, steps, alias);
      if History(cfg, front, alias).discarded != [] {
        var k: nat :| k < n && QueryMeetsExpired(cfg, front, alias, k);
        assert QueryMeetsExpired(cfg, steps, alias, k);
      }
    }
  }

  /** Such a run: an entry is queued, expires, and a size query makes it vanish. */
  lemma SizeQueryLoses(frame: Msg)
    ensures
      var cfg, steps := Config(10, 1000), [EnqueueStep("b", frame, 0), SizeStep("b", 1001)];
      var h := History(cfg, steps, "b");
      h.discarded == [Stored(frame, 0)] && h.dropped == [] && h.delivered == [] && Queue(Run(cfg, steps), "b") == []
  {
    var cfg, steps := Config(10, 1000), [EnqueueStep("b", frame, 0), SizeStep("b", 1001)];
    var x, one := Stored(frame, 0), [EnqueueStep("b", frame, 0)];
    assert steps[..1] == one && one[..0] == [] && [x][..0] == [] && [x][0..] == [x];
    assert FreshPart([], 1000, 0) == [] && ExpiredPart([], 1000, 0) == [];
    assert FreshPart([], 1000, 1001) == [] && ExpiredPart([], 1000, 1001) == [] && !IsFresh(x, 1000, 1001);
    assert FreshPart([x], 1000, 1001) == [] && ExpiredPart([x], 1000, 1001) == [] + [x] == [x];
    hide FreshPart, ExpiredPart;
    assert Run(cfg, []) == EMPTY && History(cfg, [], "b") == Ledger([], [], [], [], []);
    assert Queue(Run(cfg, one), "b") == [x];
    assert History(cfg, one, "b") == Ledger([x], [], [], [], []);
  }

  // ---- the counters ----

  ghost function AnyKey(m: map<Alias, seq<Stored>>): (a: Alias)
    requires |m| != 0
    ensures a in m
  {
    assert m.Keys != {};
    var a :| a in m; a
  }

  /** Total number of entries in all queues. */
  ghost function QueuedIn(m: map<Alias, seq<Stored>>): nat
    decreases |m|
  {
    if |m| == 0 then 0 else |m[AnyKey(m)]| + QueuedIn(m - {AnyKey(m)})
  }

  lemma {:induction false} QueuedInSplit(m: map<Alias, seq<Stored>>, a: Alias)
    requires a in m
    ensures QueuedIn(m) == |m[a]| + QueuedIn(m - {a})
    decreases |m|
  {
    var b := AnyKey(m);
    if b != a {
      QueuedInSplit(m - {b}, a);
      QueuedInSplit(m - {a}, b);
      assert m - {b} - {a} == m - {a} - {b};
    }
  }

  lemma QueuedInUpdate(m: map<Alias, seq<Stored>>, m': map<Alias, seq<Stored>>, a: Alias)
    requires m - {a} == m' - {a}
    ensures QueuedIn(m') - (if a in m' then |m'[a]| else 0) == QueuedIn(m) - (if a in m then |m[a]| else 0)
  {
    hide QueuedIn;
    if a in m { QueuedInSplit(m, a); } else { assert m - {a} == m; }
    if a in m' { QueuedInSplit(m', a); } else { assert m' - {a} == m'; }
  }

  function EnqueueCount(steps: seq<Step>): nat {
    if steps == [] then 0
    else EnqueueCount(steps[..|steps| - 1]) + if steps[|steps| - 1].EnqueueStep? then 1 else 0
  }

  /** What one step does to the counters and to the length of its queue. */
  lemma StepCounts(b: Box, cfg: Config, s: Step)
    ensures
      var b' := Apply(b, cfg, s).box;
      && b'.queues - {s.alias} == b.queues - {s.alias}
      && |Queue(b', s.alias)| + b'.delivered + b'.dropped
           == |Queue(b, s.alias)| + b.delivered + b.dropped + if s.EnqueueStep? then 1 else 0
  {
    PartitionKeepsAll(Queue(b, s.alias), cfg.mailboxTtlMs, s.now);
    if s.EnqueueStep? {
      var m := Stored(s.frame, s.now);
      EnqueueCounts(Queue(b, s.alias), cfg, m, s.now, m);
    }
  }

  /** The two broker counters plus the queue lengths always account for every
      message ever enqueued. */
  lemma {:induction false} CountersBalance(cfg: Config, steps: seq<Step>)
    ensures
      var b := Run(cfg, steps);
      EnqueueCount(steps) == QueuedIn(b.queues) + b.delivered + b.dropped
  {
    if steps != [] {
      var front, s := steps[..|steps| - 1], steps[|steps| - 1];
      CountersBalance(cfg, front);
      StepCounts(Run(cfg, front), cfg, s);
      QueuedInUpdate(Run(cfg, front).queues, Run(cfg, steps).queues, s.alias);
    }
  }

  // ---- order, cap and age under a non-decreasing clock ----

  predicate ClockNonDecreasing(steps: seq<Step>) {
    forall i, j :: 0 <= i < j < |steps| ==> steps[i].now <= steps[j].now
  }

  predicate SortedByAge(q: seq<Stored>) {
    forall i, j :: 0 <= i < j < |q| ==> q[i].enqueuedAt <= q[j].enqueuedAt
  }

  /** In a sorted queue expiry takes a prefix and leaves the rest in order. */
  lemma {:induction false} ExpiryTakesPrefix(q: seq<Stored>, ttlMs: int, now: int)
    requires SortedByAge(q)
    ensures ExpiredPart(q, ttlMs, now) + FreshPart(q, ttlMs, now) == q
    ensures FreshPart(q, ttlMs, now) != [] ==> q != [] && IsFresh(q[|q| - 1], ttlMs, now)
  {
    if q != [] {
      var front, m := q[..|q| - 1], q[|q| - 1];
      ExpiryTakesPrefix(front, ttlMs, now);
      assert q == front + [m];
      if !IsFresh(m, ttlMs, now) && front != [] {
        assert q[|q| - 2].enqueuedAt <= m.enqueuedAt;
      }
    }
  }

  lemma CutInTwo(gone: seq<Stored>, live: seq<Stored>, m: Stored, e: nat)
    requires e <= |live| + 1
    ensures
      var all := live + [m];
      && (gone + all[..e]) + all[e..] == gone + live + [m]
      && (e < |all| ==> all[e..][|all| - e - 1] == m)
  {
    var all := live + [m];
    assert all[..e] + all[e..] == all;
  }

  /** An enqueue cuts `queue + [new]` in two: a dropped prefix and a kept suffix
      of at most the cap, which holds the new message exactly when the cap is positive. */
  lemma EnqueueCutsInOrder(q: seq<Stored>, cfg: Config, m: Stored, now: int)
    requires SortedByAge(q)
    ensures
      var (kept, dropped) := EnqueueQueue(q, cfg, m, now);
      && dropped + kept == q + [m]
      && |kept| <= Max(cfg.mailboxCap, 0)
      && (cfg.mailboxCap >= 1 <==> kept != [] && kept[|kept| - 1] == m)
  {
    hide FreshPart, ExpiredPart, SortedByAge;
    ExpiryTakesPrefix(q, cfg.mailboxTtlMs, now);
    var live := FreshPart(q, cfg.mailboxTtlMs, now);
    CutInTwo(ExpiredPart(q, cfg.mailboxTtlMs, now), live, m, Excess(|live| + 1, cfg.mailboxCap));
  }

  /** An entry expires when it is older than the limit, in milliseconds, and not before. */
  lemma {:induction false} ExpiresIff(q: seq<Stored>, ttlMs: int, now: int, x: Stored)
    ensures x in FreshPart(q, ttlMs, now) <==> x in q && now - x.enqueuedAt <= ttlMs
    ensures x in ExpiredPart(q, ttlMs, now) <==> x in q && now - x.enqueuedAt > ttlMs
  {
    if q != [] {
      var front, last := q[..|q| - 1], q[|q| - 1];
      assert q == front + [last];
      ExpiresIff(front, ttlMs, now, x);
    }
  }

  ghost predicate QueueInv(q: seq<Stored>, cfg: Config, now: int) {
    && SortedByAge(q)
    && (q != [] ==> q[|q| - 1].enqueuedAt <= now)
    && |q| <= Max(cfg.mailboxCap, 0)
  }

  lemma SuffixSorted(whole: seq<Stored>, left: seq<Stored>, rest: seq<Stored>)
    requires SortedByAge(whole) && left + rest == whole
    ensures SortedByAge(rest)
    ensures rest != [] ==> whole != [] && rest[|rest| - 1] == whole[|whole| - 1]
  {
    assert forall i :: 0 <= i < |rest| ==> rest[i] == whole[|left| + i];
  }

  lemma StepCutsInOrder(b: Box, cfg: Config, s: Step)
    requires SortedByAge(Queue(b, s.alias))
    ensures
      var e := Apply(b, cfg, s);
      && Gone(e) + Queue(e.box, s.alias) == Queue(b, s.alias) + e.entered
      && |Queue(e.box, s.alias)| <= if s.EnqueueStep? then Max(cfg.mailboxCap, 0) else |Queue(b, s.alias)|
  {
    hide FreshPart, ExpiredPart, SortedByAge;
    var q := Queue(b, s.alias);
    ExpiryTakesPrefix(q, cfg.mailboxTtlMs, s.now);
    var e := Apply(b, cfg, s);
    match s {
      case EnqueueStep(a, f, now) =>
        EnqueueCutsInOrder(q, cfg, Stored(f, now), now);
        assert Gone(e) == e.dropped;
      case ExpireStep(a, now) =>
        assert Gone(e) == ExpiredPart(q, cfg.mailboxTtlMs, now);
        ExpireTouchesOneQueue(b, cfg, a, now, a);
      case FlushStep(a, now) =>
        assert Gone(e) == ExpiredPart(q, cfg.mailboxTtlMs, now) + FreshPart(q, cfg.mailboxTtlMs, now);
        assert Queue(e.box, a) == [];
      case SizeStep(a, now) =>
        assert Gone(e) == ExpiredPart(q, cfg.mailboxTtlMs, now);
        ExpireTouchesOneQueue(b, cfg, a, now, a);
    }
  }

  lemma StepEnters(b: Box, cfg: Config, s: Step)
    ensures Apply(b, cfg, s).entered == if s.EnqueueStep? then [Stored(s.frame, s.now)] else []
  {}

  lemma StepKeepsQueueInv(b: Box, cfg: Config, s: Step, before: int)
    requires QueueInv(Queue(b, s.alias), cfg, before) && before <= s.now
    ensures QueueInv(Queue(Apply(b, cfg, s).box, s.alias), cfg, s.now)
  {
    var q, e := Queue(b, s.alias), Apply(b, cfg, s);
    StepCutsInOrder(b, cfg, s);
    StepEnters(b, cfg, s);
    hide Apply;
    assert SortedByAge(q + e.entered);
    SuffixSorted(q + e.entered, Gone(e), Queue(e.box, s.alias));
  }

  lemma Regroup(left: seq<Stored>, q: seq<Stored>, entered: seq<Stored>, gone: seq<Stored>, q': seq<Stored>)
    requires gone + q' == q + entered
    ensures left + q + entered == left + gone + q'
  {
    assert left + q + entered == left + (q + entered);
    assert left + gone + q' == left + (gone + q');
  }

  /**
   Order, cap and age over whole runs under a non-decreasing clock: every
   queue is sorted by age and within its cap, and what ever entered it is, in
   this order, what has left it followed by what it still holds.
   */
  lemma {:induction false} FirstInFirstOut(cfg: Config, steps: seq<Step>, alias: Alias)
    requires ClockNonDecreasing(steps)
    ensures History(cfg, steps, alias).entered == History(cfg, steps, alias).left + Queue(Run(cfg, steps), alias)
    ensures SortedByAge(Queue(Run(cfg, steps), alias))
    ensures |Queue(Run(cfg, steps), alias)| <= Max(cfg.mailboxCap, 0)
    ensures steps != [] ==> QueueInv(Queue(Run(cfg, steps), alias), cfg, steps[|steps| - 1].now)
  {
    if steps != [] {
      var front, s := steps[..|steps| - 1], steps[|steps| - 1];
      FirstInFirstOut(cfg, front, alias);
      var b := Run(cfg, front);
      var e := Apply(b, cfg, s);
      if s.alias == alias {
        StepCutsInOrder(b, cfg, s);
        StepKeepsQueueInv(b, cfg, s, if front == [] then s.now else front[|front| - 1].now);
        Regroup(History(cfg, front, alias).left, Queue(b, alias), e.entered, Gone(e), Queue(e.box, alias));
      } else {
        StepTouchesOneQueue(b, cfg, s, alias);
      }
    }
  }

  /** A purge leaves every queue with exactly its unexpired entries, whatever
      the order in which the queues are visited. */
  lemma {:induction false} PurgeExpiresEveryQueue(b: Box, cfg: Config, order: seq<Alias>, now: int, alias: Alias)
    requires NoDup(order)
    ensures Queue(ExpireAll(b, cfg, order, now), alias)
         == if alias in order then FreshPart(Queue(b, alias), cfg.mailboxTtlMs, now) else Queue(b, alias)
  {
    if order != [] {
      var front, last := order[..|order| - 1], order[|order| - 1];
      PurgeExpiresEveryQueue(b, cfg, front, now, alias);
      assert order == front + [last];
    }
  }
}
