/**
 One-writer task leases. A lease carries an epoch (one per broker lifetime,
 persisted) and a fence (monotonic within the epoch); together they let a late
 worker be told apart from the current owner.
 */
module Lease {
  import opened Common

  datatype LeaseRecord = LeaseRecord(
    leaseId: string, task: string, owner: Alias, paths: seq<string>, fence: nat, epoch: int, expiresAt: int)

  const MIN_LEASE_TTL_MS := 1000
  const MAX_LEASE_TTL_MS := 86400000

  datatype InvalidReason = TaskRequired | PathsRequired | TtlOutOfRange

  datatype ClaimOutcome =
    | Granted(lease: LeaseRecord, reused: bool)
    | Held(holder: Alias)
    | Invalid(reason: InvalidReason)

  datatype Table = Table(epoch: int, byTask: map<string, LeaseRecord>, counter: nat)

  predicate IsLive(l: LeaseRecord, now: int) { l.expiresAt > now }

  function Pruned(m: map<string, LeaseRecord>, now: int): map<string, LeaseRecord> {
    map k | k in m && IsLive(m[k], now) :: m[k]
  }

  function GetTable(t: Table, task: string, now: int): Table {
    if task in t.byTask && !IsLive(t.byTask[task], now) then t.(byTask := t.byTask - {task}) else t
  }

  function Current(t: Table, task: string, now: int): Option<LeaseRecord> {
    if task in t.byTask && IsLive(t.byTask[task], now) then Some(t.byTask[task]) else None
  }

  function ClaimCheck(task: string, paths: seq<string>, ttlMs: int): Option<InvalidReason> {
    if IsBlank(task) then Some(TaskRequired)
    else if |paths| == 0 then Some(PathsRequired)
    else if ttlMs < MIN_LEASE_TTL_MS || ttlMs > MAX_LEASE_TTL_MS then Some(TtlOutOfRange)
    else None
  }

  function Claimed(t: Table, task: string, owner: Alias, paths: seq<string>, ttlMs: int, leaseId: string,
      now: int): (Table, ClaimOutcome) {
    match ClaimCheck(task, paths, ttlMs)
    case Some(reason) => (t, Invalid(reason))
    case None =>
      var m := Pruned(t.byTask, now);
      if task in m then
        (t.(byTask := m), if m[task].owner != owner then Held(m[task].owner) else Granted(m[task], true))
      else
        var l := LeaseRecord(leaseId, task, owner, paths, t.counter + 1, t.epoch, now + ttlMs);
        (Table(t.epoch, m[task := l], t.counter + 1), Granted(l, false))
  }

  function Released(t: Table, task: string, owner: Alias, leaseId: string, now: int): (Table, Option<LeaseRecord>) {
    match Current(t, task, now)
    case None => (GetTable(t, task, now), None)
    case Some(l) =>
      if l.owner != owner || l.leaseId != leaseId then (t, None)
      else (t.(byTask := t.byTask - {task}), Some(l))
  }

  function Verified(t: Table, task: string, owner: Alias, epoch: int, fence: int, now: int): bool {
    match Current(t, task, now)
    case None => false
    case Some(l) => l.owner == owner && l.epoch == epoch && l.fence == fence
  }

  class LeaseTable {
    const epoch: int
    var byTask: map<string, LeaseRecord>
    var counter: nat

    ghost function View(): Table
      reads this
    {
      Table(epoch, byTask, counter)
    }

    constructor (epoch: int)
      ensures View() == Table(epoch, map[], 0)
    {
      this.epoch := epoch;
      byTask, counter := map[], 0;
    }

    method Prune(now: int)
      modifies this`byTask
      ensures byTask == Pruned(old(byTask), now)
    {
      var tasks := byTask.Keys;
      while tasks != {}
        invariant tasks <= byTask.Keys <= old(byTask).Keys
        invariant forall k :: k in byTask ==> byTask[k] == old(byTask)[k]
        invariant forall k :: k in old(byTask) && k !in tasks ==> (k in byTask <==> IsLive(old(byTask)[k], now))
      {
        var task :| task in tasks;
        tasks := tasks - {task};
        if !IsLive(byTask[task], now) { byTask := byTask - {task}; }
      }
    }

    method Get(task: string, now: int) returns (lease: Option<LeaseRecord>)
      modifies this`byTask
      ensures View() == GetTable(old(View()), task, now)
      ensures lease == Current(old(View()), task, now)
    {
      if task !in byTask { return None; }
      var l := byTask[task];
      if !IsLive(l, now) {
        byTask := byTask - {task};
        return None;
      }
      lease := Some(l);
    }

    method Claim(task: string, owner: Alias, paths: seq<string>, ttlMs: int, leaseId: string, now: int)
        returns (outcome: ClaimOutcome)
      modifies this`byTask, this`counter
      ensures (View(), outcome) == Claimed(old(View()), task, owner, paths, ttlMs, leaseId, now)
    {
      if IsBlank(task) { return Invalid(TaskRequired); }
      if |paths| == 0 { return Invalid(PathsRequired); }
      if ttlMs < MIN_LEASE_TTL_MS || ttlMs > MAX_LEASE_TTL_MS { return Invalid(TtlOutOfRange); }
      Prune(now);
      if task in byTask {
        var existing := byTask[task];
        if existing.owner != owner { return Held(existing.owner); }
        return Granted(existing, true);
      }
      counter := counter + 1;
      var lease := LeaseRecord(leaseId, task, owner, paths, counter, epoch, now + ttlMs);
      byTask := byTask[task := lease];
      outcome := Granted(lease, false);
    }

    method Release(task: string, owner: Alias, leaseId: string, now: int) returns (released: Option<LeaseRecord>)
      modifies this`byTask
      ensures (View(), released) == Released(old(View()), task, owner, leaseId, now)
    {
      var lease := Get(task, now);
      if lease.None? { return None; }
      if lease.value.owner != owner || lease.value.leaseId != leaseId { return None; }
      byTask := byTask - {task};
      released := lease;
    }

    method Verify(task: string, owner: Alias, epoch: int, fence: int, now: int) returns (ok: bool)
      modifies this`byTask
      ensures View() == GetTable(old(View()), task, now)
      ensures ok == Verified(old(View()), task, owner, epoch, fence, now)
    {
      var lease := Get(task, now);
      ok := lease.Some? && lease.value.owner == owner && lease.value.epoch == epoch && lease.value.fence == fence;
    }
  }

  // ---- runs of one broker lifetime ----

  datatype Op =
    | ClaimOp(task: string, owner: Alias, paths: seq<string>, ttlMs: int, leaseId: string, now: int)
    | ReleaseOp(task: string, owner: Alias, leaseId: string, now: int)
    | GetOp(task: string, now: int)
    | VerifyOp(task: string, owner: Alias, epoch: int, fence: int, now: int)
    | SnapshotOp(now: int)

  datatype Event =
    | ClaimEvent(outcome: ClaimOutcome)
    | ReleaseEvent(released: Option<LeaseRecord>)
    | GetEvent(lease: Option<LeaseRecord>)
    | VerifyEvent(ok: bool)
    | SnapshotEvent

  function Apply(t: Table, op: Op): (Table, Event) {
    match op
    case ClaimOp(task, owner, paths, ttlMs, leaseId, now) =>
      var (t', o) := Claimed(t, task, owner, paths, ttlMs, leaseId, now);
      (t', ClaimEvent(o))
    case ReleaseOp(task, owner, leaseId, now) =>
      var (t', r) := Released(t, task, owner, leaseId, now);
      (t', ReleaseEvent(r))
    case GetOp(task, now) => (GetTable(t, task, now), GetEvent(Current(t, task, now)))
    case VerifyOp(task, owner, epoch, fence, now) =>
      (GetTable(t, task, now), VerifyEvent(Verified(t, task, owner, epoch, fence, now)))
    case SnapshotOp(now) => (t.(byTask := Pruned(t.byTask, now)), SnapshotEvent)
  }

  function Run(epoch: int, ops: seq<Op>): Table {
    if ops == [] then Table(epoch, map[], 0)
    else Apply(Run(epoch, ops[..|ops| - 1]), ops[|ops| - 1]).0
  }

  function EventAt(epoch: int, ops: seq<Op>, i: nat): Event
    requires i < |ops|
  {
    Apply(Run(epoch, ops[..i]), ops[i]).1
  }

  predicate ClockNonDecreasing(ops: seq<Op>) {
    forall i, j :: 0 <= i < j < |ops| ==> ops[i].now <= ops[j].now
  }

  lemma RunStep(epoch: int, ops: seq<Op>, i: nat)
    requires i < |ops|
    ensures Run(epoch, ops[..i + 1]) == Apply(Run(epoch, ops[..i]), ops[i]).0
  {
    assert ops[..i + 1][..i] == ops[..i];
  }

  /** Every stored lease sits under its own task, carries the table's epoch and a
      fence already drawn from the counter, and no two tasks share a fence. */
  ghost predicate Inv(t: Table) {
    && (forall k :: k in t.byTask ==>
          t.byTask[k].task == k && t.byTask[k].epoch == t.epoch && 1 <= t.byTask[k].fence <= t.counter)
    && (forall k, l :: k in t.byTask && l in t.byTask && t.byTask[k].fence == t.byTask[l].fence ==> k == l)
  }

  lemma ClaimKeepsInv(t: Table, op: Op)
    requires Inv(t) && op.ClaimOp?
    ensures Inv(Apply(t, op).0) && Apply(t, op).0.epoch == t.epoch
  {
    PruneKeepsInv(t, op.now);
    hide ClaimCheck;
  }

  lemma PruneKeepsInv(t: Table, now: int)
    requires Inv(t)
    ensures Inv(t.(byTask := Pruned(t.byTask, now)))
  {}

  lemma StepKeepsInv(t: Table, op: Op)
    requires Inv(t)
    ensures Inv(Apply(t, op).0) && Apply(t, op).0.epoch == t.epoch
  {
    if op.ClaimOp? {
      hide Apply, Inv;
      ClaimKeepsInv(t, op);
    } else {
      PruneKeepsInv(t, op.now);
      hide Pruned, Claimed;
    }
  }

  lemma {:induction false} RunInv(epoch: int, ops: seq<Op>)
    ensures Inv(Run(epoch, ops)) && Run(epoch, ops).epoch == epoch
  {
    if ops != [] {
      hide Apply, Inv;
      RunInv(epoch, ops[..|ops| - 1]);
      StepKeepsInv(Run(epoch, ops[..|ops| - 1]), ops[|ops| - 1]);
    }
  }

  /** Event `i` of the run grants `l`, freshly or again. */
  ghost predicate GrantedAt(epoch: int, ops: seq<Op>, i: nat, l: LeaseRecord) {
    i < |ops| && EventAt(epoch, ops, i).ClaimEvent? && EventAt(epoch, ops, i).outcome.Granted?
    && EventAt(epoch, ops, i).outcome.lease == l
  }

  ghost predicate FreshAt(epoch: int, ops: seq<Op>, i: nat) {
    i < |ops| && EventAt(epoch, ops, i).ClaimEvent? && EventAt(epoch, ops, i).outcome.Granted?
    && !EventAt(epoch, ops, i).outcome.reused
  }

  /** `l` is released by some operation strictly between `i` and `j`. */
  ghost predicate ReleasedBetween(epoch: int, ops: seq<Op>, i: nat, j: nat, l: LeaseRecord) {
    exists k: nat :: i < k < j && k < |ops| && EventAt(epoch, ops, k) == ReleaseEvent(Some(l))
  }

  ghost predicate Holds(t: Table, l: LeaseRecord) { l.task in t.byTask && t.byTask[l.task] == l }

  /** The lease is gone for good: its fence is spent and only an expired record may carry it. */
  ghost predicate Dead(t: Table, l: LeaseRecord, now: int) {
    l.fence <= t.counter && (Holds(t, l) ==> !IsLive(l, now))
    && forall k :: k in t.byTask && t.byTask[k].fence == l.fence ==> t.byTask[k] == l
  }

  /** One operation keeps an unreleased, unexpired lease in the table. */
  lemma StepKeepsLease(t: Table, op: Op, l: LeaseRecord)
    requires Inv(t) && Holds(t, l) && IsLive(l, op.now)
    ensures Apply(t, op).1 == ReleaseEvent(Some(l)) || Holds(Apply(t, op).0, l)
  {}

  /** One operation never brings a dead lease back. */
  lemma StepKeepsDead(t: Table, op: Op, l: LeaseRecord, now: int)
    requires Inv(t) && Dead(t, l, now) && now <= op.now
    ensures Dead(Apply(t, op).0, l, op.now)
  {}

  lemma GrantHolds(t: Table, op: Op, l: LeaseRecord)
    requires Inv(t) && Apply(t, op).1.ClaimEvent? && Apply(t, op).1.outcome.Granted?
      && Apply(t, op).1.outcome.lease == l
    ensures Holds(Apply(t, op).0, l)
  {}

  /** A held lease is dead once its time has passed, and a dead one stays so. */
  lemma Later(t: Table, l: LeaseRecord, now: int, later: int)
    requires Inv(t) && now <= later
    ensures Holds(t, l) && !IsLive(l, later) ==> Dead(t, l, later)
    ensures Dead(t, l, now) ==> Dead(t, l, later)
  {}

  lemma ReleasedUpTo(epoch: int, ops: seq<Op>, i: nat, j: nat, l: LeaseRecord)
    requires i < j < |ops|
    ensures ReleasedBetween(epoch, ops, i, j, l)
       <==> (i < j - 1 && (ReleasedBetween(epoch, ops, i, j - 1, l)
           || EventAt(epoch, ops, j - 1) == ReleaseEvent(Some(l))))
  {
    hide EventAt;
    if i < j - 1 && EventAt(epoch, ops, j - 1) == ReleaseEvent(Some(l)) {
      var k := j - 1;
      assert i < k < j && EventAt(epoch, ops, k) == ReleaseEvent(Some(l));
    }
  }

  lemma ReleaseKills(t: Table, op: Op, l: LeaseRecord)
    requires Inv(t) && Apply(t, op).1 == ReleaseEvent(Some(l))
    ensures Dead(Apply(t, op).0, l, op.now)
  {}

  /** From the grant on, the lease is held until it is released or expires, and dead from then on. */
  lemma {:induction false} LeaseLife(epoch: int, ops: seq<Op>, i: nat, j: nat, l: LeaseRecord)
    requires ClockNonDecreasing(ops) && GrantedAt(epoch, ops, i, l) && i < j < |ops|
    ensures
      var t := Run(epoch, ops[..j]);
      if IsLive(l, ops[j].now) && !ReleasedBetween(epoch, ops, i, j, l) then Holds(t, l)
      else Dead(t, l, ops[j].now)
  {
    hide Apply, Inv, Run, Dead, ReleasedBetween;
    RunStep(epoch, ops, j - 1);
    RunInv(epoch, ops[..j - 1]);
    RunInv(epoch, ops[..j]);
    var t, op := Run(epoch, ops[..j - 1]), ops[j - 1];
    Later(Run(epoch, ops[..j]), l, op.now, ops[j].now);
    ReleasedUpTo(epoch, ops, i, j, l);
    if j == i + 1 {
      GrantHolds(t, op, l);
    } else {
      LeaseLife(epoch, ops, i, j - 1, l);
      if EventAt(epoch, ops, j - 1) == ReleaseEvent(Some(l)) {
        ReleaseKills(t, op, l);
      } else {
        if IsLive(l, op.now) && !ReleasedBetween(epoch, ops, i, j - 1, l) {
          StepKeepsLease(t, op, l);
        } else {
          StepKeepsDead(t, op, l, op.now);
        }
      }
    }
  }

  /**
   Fencing, exactly: after `l` was granted, a verification of its epoch and
   fence succeeds if and only if the lease has neither expired nor been
   released. In particular a verdict that turned negative stays negative.
   */
  lemma FenceHoldsExactlyWhileLeased(epoch: int, ops: seq<Op>, i: nat, j: nat, l: LeaseRecord)
    requires ClockNonDecreasing(ops) && GrantedAt(epoch, ops, i, l) && i < j < |ops|
    requires ops[j] == VerifyOp(l.task, l.owner, l.epoch, l.fence, ops[j].now)
    ensures EventAt(epoch, ops, j) == VerifyEvent(true)
       <==> ops[j].now < l.expiresAt && !ReleasedBetween(epoch, ops, i, j, l)
  {
    LeaseLife(epoch, ops, i, j, l);
  }

  /** No owner at all is accepted on the epoch and fence of a dead lease. */
  lemma DeadFenceIsRefused(epoch: int, ops: seq<Op>, i: nat, j: nat, l: LeaseRecord)
    requires ClockNonDecreasing(ops) && GrantedAt(epoch, ops, i, l) && i < j < |ops|
    requires ops[j].VerifyOp? && ops[j].epoch == l.epoch && ops[j].fence == l.fence
    requires l.expiresAt <= ops[j].now || ReleasedBetween(epoch, ops, i, j, l)
    ensures EventAt(epoch, ops, j) == VerifyEvent(false)
  {
    RunInv(epoch, ops[..j]);
    LeaseLife(epoch, ops, i, j, l);
  }

  /**
   Mutual exclusion: a fresh grant of a task after an earlier grant happens
   only once the earlier lease was released or its expiry has passed.
   */
  lemma FreshGrantNeedsFreeTask(epoch: int, ops: seq<Op>, i: nat, j: nat, l: LeaseRecord)
    requires ClockNonDecreasing(ops) && GrantedAt(epoch, ops, i, l) && i < j
    requires FreshAt(epoch, ops, j) && ops[j].task == l.task
    ensures l.expiresAt <= ops[j].now || ReleasedBetween(epoch, ops, i, j, l)
  {
    LeaseLife(epoch, ops, i, j, l);
  }

  /** While a lease is live and unreleased, a claim by its owner returns that very
      lease again and a claim by anyone else reports the owner. */
  lemma LiveLeaseAnswersClaims(epoch: int, ops: seq<Op>, i: nat, j: nat, l: LeaseRecord)
    requires ClockNonDecreasing(ops) && GrantedAt(epoch, ops, i, l) && i < j < |ops|
    requires ops[j].ClaimOp? && ops[j].task == l.task && ClaimCheck(ops[j].task, ops[j].paths, ops[j].ttlMs).None?
    requires ops[j].now < l.expiresAt && !ReleasedBetween(epoch, ops, i, j, l)
    ensures EventAt(epoch, ops, j) == ClaimEvent(if ops[j].owner == l.owner then Granted(l, true) else Held(l.owner))
  {
    LeaseLife(epoch, ops, i, j, l);
  }

  // ---- broker restarts ----

  /** The stored epoch as a restarting broker reads it. */
  function ReadEpoch(stored: Option<int>): (n: nat) {
    match stored
    case Some(n) => if n > 0 then n else 0
    case None => 0
  }

  function NextEpochOf(stored: Option<int>, now: int): int { Max(ReadEpoch(stored) + 1, now) }

  /** How writing the new epoch went: a torn write leaves nothing readable, the old
      number or some other one smaller than the new one. */
  datatype EpochWrite = Written | Torn(left: Option<int>)

  function AfterWrite(before: Option<int>, next: int, write: EpochWrite): Option<int> {
    match write
    case Written => Some(next)
    case Torn(left) => if ReadEpoch(left) < next then left else before
  }

  /** The state directory of one broker installation. */
  class StateDir {
    var brokerEpoch: Option<int>

    /** Draws the epoch of a new broker lifetime; the write back may fail. */
    method NextEpoch(now: int, write: EpochWrite) returns (next: int)
      modifies this
      ensures next == NextEpochOf(old(brokerEpoch), now) > ReadEpoch(old(brokerEpoch))
      ensures brokerEpoch == AfterWrite(old(brokerEpoch), next, write)
      ensures if write.Written? then ReadEpoch(brokerEpoch) == next else ReadEpoch(brokerEpoch) < next
    {
      var previous := ReadEpoch(brokerEpoch);
      next := if previous + 1 >= now then previous + 1 else now;
      brokerEpoch := AfterWrite(brokerEpoch, next, write);
    }
  }

  /** One broker lifetime: the clock at start, how the epoch write went, and its operations. */
  datatype Lifetime = Lifetime(clock: int, write: EpochWrite, ops: seq<Op>)

  function StoredAfter(stored: Option<int>, lives: seq<Lifetime>): Option<int> {
    if lives == [] then stored
    else
      var l := lives[|lives| - 1];
      var before := StoredAfter(stored, lives[..|lives| - 1]);
      AfterWrite(before, NextEpochOf(before, l.clock), l.write)
  }

  function EpochOf(stored: Option<int>, lives: seq<Lifetime>, i: nat): int
    requires i < |lives|
  {
    NextEpochOf(StoredAfter(stored, lives[..i]), lives[i].clock)
  }

  /** Each restart either finds the previous epoch on disk or a clock beyond it. */
  predicate RestartsSafe(stored: Option<int>, lives: seq<Lifetime>) {
    forall i: nat :: i + 1 < |lives| ==> lives[i].write.Written? || lives[i + 1].clock > EpochOf(stored, lives, i)
  }

  lemma AdjacentEpochs(stored: Option<int>, lives: seq<Lifetime>, i: nat)
    requires i + 1 < |lives|
    ensures EpochOf(stored, lives, i) < EpochOf(stored, lives, i + 1)
       <==> lives[i].write.Written? || lives[i + 1].clock > EpochOf(stored, lives, i)
  {
    assert lives[..i + 1][..i] == lives[..i];
  }

  lemma {:induction false} EpochsOrdered(stored: Option<int>, lives: seq<Lifetime>, i: nat, j: nat)
    requires RestartsSafe(stored, lives) && i < j < |lives|
    ensures EpochOf(stored, lives, i) < EpochOf(stored, lives, j)
  {
    AdjacentEpochs(stored, lives, j - 1);
    if i < j - 1 { EpochsOrdered(stored, lives, i, j - 1); }
  }

  /** Epochs grow strictly over all restarts, even when the clock moves backwards,
      exactly when every restart is safe; successful writes alone suffice. */
  lemma EpochsIncreaseIff(stored: Option<int>, lives: seq<Lifetime>)
    ensures (forall i: nat, j: nat :: i < j < |lives| ==> EpochOf(stored, lives, i) < EpochOf(stored, lives, j))
       <==> RestartsSafe(stored, lives)
    ensures (forall l :: l in lives ==> l.write.Written?) ==> RestartsSafe(stored, lives)
  {
    if RestartsSafe(stored, lives) {
      forall i: nat, j: nat | i < j < |lives|
        ensures EpochOf(stored, lives, i) < EpochOf(stored, lives, j)
      {
        EpochsOrdered(stored, lives, i, j);
      }
    } else {
      var i: nat :| i + 1 < |lives| && !(lives[i].write.Written? || lives[i + 1].clock > EpochOf(stored, lives, i));
      AdjacentEpochs(stored, lives, i);
    }
  }

  datatype Stamp = Stamp(epoch: int, fence: nat)

  predicate Before(a: Stamp, b: Stamp) { a.epoch < b.epoch || (a.epoch == b.epoch && a.fence < b.fence) }

  lemma {:induction false} FencesOrdered(epoch: int, ops: seq<Op>, i: nat, j: nat)
    requires FreshAt(epoch, ops, i) && FreshAt(epoch, ops, j) && i < j
    ensures EventAt(epoch, ops, i).outcome.lease.fence < EventAt(epoch, ops, j).outcome.lease.fence
  {
    CounterGrows(epoch, ops, i + 1, j);
    RunStep(epoch, ops, i);
  }

  lemma {:induction false} CounterGrows(epoch: int, ops: seq<Op>, i: nat, j: nat)
    requires i <= j <= |ops|
    ensures Run(epoch, ops[..i]).counter <= Run(epoch, ops[..j]).counter
  {
    if i < j {
      CounterGrows(epoch, ops, i, j - 1);
      RunStep(epoch, ops, j - 1);
    }
  }

  lemma FreshCarriesEpoch(epoch: int, ops: seq<Op>, i: nat)
    requires FreshAt(epoch, ops, i)
    ensures EventAt(epoch, ops, i).outcome.lease.epoch == epoch
  {
    RunInv(epoch, ops[..i]);
    hide Run;
  }

  /** The stamp of the fresh grant at operation `i` of lifetime `k`. */
  ghost function StampAt(stored: Option<int>, lives: seq<Lifetime>, k: nat, i: nat): Stamp
    requires k < |lives| && FreshAt(EpochOf(stored, lives, k), lives[k].ops, i)
  {
    var l := EventAt(EpochOf(stored, lives, k), lives[k].ops, i).outcome.lease;
    Stamp(l.epoch, l.fence)
  }

  /**
   Fence order across restarts: over any sequence of broker lifetimes with safe
   restarts, every fresh grant carries a strictly larger (epoch, fence) than all
   earlier ones, so no pair is issued twice.
   */
  lemma FencesIncreaseAcrossRestarts(stored: Option<int>, lives: seq<Lifetime>, k: nat, i: nat, k': nat, i': nat)
    requires RestartsSafe(stored, lives) && k <= k' < |lives| && (k == k' ==> i < i')
    requires FreshAt(EpochOf(stored, lives, k), lives[k].ops, i)
    requires FreshAt(EpochOf(stored, lives, k'), lives[k'].ops, i')
    ensures Before(StampAt(stored, lives, k, i), StampAt(stored, lives, k', i'))
  {
    hide RestartsSafe, EpochOf, Run;
    var e, e' := EpochOf(stored, lives, k), EpochOf(stored, lives, k');
    FreshCarriesEpoch(e, lives[k].ops, i);
    FreshCarriesEpoch(e', lives[k'].ops, i');
    hide EventAt;
    if k < k' {
      EpochsOrdered(stored, lives, k, k');
    } else {
      FencesOrdered(e, lives[k].ops, i, i');
    }
  }

  /** A lease of an earlier lifetime is refused by every later one. */
  lemma OldEpochIsRefused(stored: Option<int>, lives: seq<Lifetime>, k: nat, k': nat, j: nat)
    requires RestartsSafe(stored, lives) && k < k' < |lives| && j < |lives[k'].ops|
    requires lives[k'].ops[j].VerifyOp? && lives[k'].ops[j].epoch == EpochOf(stored, lives, k)
    ensures EventAt(EpochOf(stored, lives, k'), lives[k'].ops, j) == VerifyEvent(false)
  {
    EpochsOrdered(stored, lives, k, k');
    RunInv(EpochOf(stored, lives, k'), lives[k'].ops[..j]);
  }

  /** A failed epoch write followed by a clock that did not advance re-issues a stamp. */
  lemma UnsafeRestartReissuesStamp()
    ensures
      var claim := (owner: string) => ClaimOp("t", owner, ["p"], 1000, owner, 5);
      var lives := [Lifetime(5, Torn(None), [claim("a")]), Lifetime(5, Written, [claim("b")])];
      && !RestartsSafe(None, lives)
      && FreshAt(EpochOf(None, lives, 0), lives[0].ops, 0)
      && FreshAt(EpochOf(None, lives, 1), lives[1].ops, 0)
      && StampAt(None, lives, 0, 0) == StampAt(None, lives, 1, 0)
  {
    var claim := (owner: string) => ClaimOp("t", owner, ["p"], 1000, owner, 5);
    var lives := [Lifetime(5, Torn(None), [claim("a")]), Lifetime(5, Written, [claim("b")])];
    assert lives[..1] == [lives[0]] && lives[..1][..0] == [] && lives[..0] == [];
    assert EpochOf(None, lives, 0) == 5 && EpochOf(None, lives, 1) == 5;
    assert !IsSpace("t"[0]);
    assert lives[0].ops[..0] == [] && lives[1].ops[..0] == [];
    var i: nat := 0;
    assert !(lives[i].write.Written? || lives[i + 1].clock > EpochOf(None, lives, i));
  }
}
