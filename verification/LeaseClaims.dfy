/**
 Leases in terms of the claims that were made: what a claim is granted, exactly when,
 and for how long its stamp holds.
 */
module LeaseClaims {
  import opened Common
  import opened Lease

  /** Operation `i` claims `task`. */
  predicate Claims(ops: seq<Op>, i: nat, task: string) { i < |ops| && ops[i].ClaimOp? && ops[i].task == task }

  /** A claim must name a task and paths and ask for between one second and a day. */
  lemma ClaimIsInvalidIff(epoch: int, ops: seq<Op>, i: nat)
    requires i < |ops| && ops[i].ClaimOp?
    ensures EventAt(epoch, ops, i).ClaimEvent?
    ensures EventAt(epoch, ops, i).outcome.Invalid?
       <==> (forall k :: 0 <= k < |ops[i].task| ==> IsSpace(ops[i].task[k])) || ops[i].paths == []
            || ops[i].ttlMs < 1000 || ops[i].ttlMs > 86400000
  {
    hide Run;
  }

  /** What a fresh grant contains: just what was claimed, until the time that was asked for. */
  lemma FreshGrantIsTheClaim(epoch: int, ops: seq<Op>, i: nat)
    requires FreshAt(epoch, ops, i)
    ensures
      var l := EventAt(epoch, ops, i).outcome.lease;
      && ops[i].ClaimOp?
      && l.task == ops[i].task && l.owner == ops[i].owner && l.paths == ops[i].paths && l.leaseId == ops[i].leaseId
      && l.expiresAt == ops[i].now + ops[i].ttlMs && l.epoch == epoch
  {
    RunInv(epoch, ops[..i]);
    hide Run;
  }

  /** The claimant of `i` gave the task back between `i` and `j`. */
  ghost predicate GivenBack(epoch: int, ops: seq<Op>, i: nat, j: nat)
    requires i < |ops| && ops[i].ClaimOp?
  {
    exists k: nat :: i < k < j && k < |ops| && GivesBack(epoch, ops, i, k)
  }

  /** Operation `k` is an accepted release of the task by the claimant of `i` under its lease id. */
  ghost predicate GivesBack(epoch: int, ops: seq<Op>, i: nat, k: nat)
    requires i < |ops| && ops[i].ClaimOp? && k < |ops|
  {
    && ops[k].ReleaseOp? && ops[k].task == ops[i].task && ops[k].owner == ops[i].owner
    && ops[k].leaseId == ops[i].leaseId
    && EventAt(epoch, ops, k) != ReleaseEvent(None)
  }

  /** The lease freshly granted at `i` is still in force at operation `j`. */
  ghost predicate InForce(epoch: int, ops: seq<Op>, i: nat, j: nat)
    requires i < |ops| && ops[i].ClaimOp? && j < |ops|
  {
    ops[j].now < ops[i].now + ops[i].ttlMs && !GivenBack(epoch, ops, i, j)
  }

  lemma ReleaseFitsLease(t: Table, op: Op, l: LeaseRecord)
    requires Apply(t, op).1 == ReleaseEvent(Some(l)) && Inv(t)
    ensures op.ReleaseOp? && op.task == l.task && op.owner == l.owner && op.leaseId == l.leaseId && Holds(t, l)
  {}

  lemma AcceptedReleaseIsOf(t: Table, op: Op)
    requires op.ReleaseOp? && Apply(t, op).1 != ReleaseEvent(None)
    ensures op.task in t.byTask && Apply(t, op).1 == ReleaseEvent(Some(t.byTask[op.task]))
  {}

  /** In force means: not expired, and the granted record not released. */
  lemma InForceIff(epoch: int, ops: seq<Op>, i: nat, j: nat, l: LeaseRecord)
    requires ClockNonDecreasing(ops) && FreshAt(epoch, ops, i) && i < j < |ops|
    requires l == EventAt(epoch, ops, i).outcome.lease && ops[i].ClaimOp?
    ensures InForce(epoch, ops, i, j) <==> ops[j].now < l.expiresAt && !ReleasedBetween(epoch, ops, i, j, l)
  {
    FreshGrantIsTheClaim(epoch, ops, i);
    hide EventAt, FreshAt, Run, Apply;
    if ReleasedBetween(epoch, ops, i, j, l) {
      var k: nat :| i < k < j && k < |ops| && EventAt(epoch, ops, k) == ReleaseEvent(Some(l));
      EventIs(epoch, ops, k);
      RunInv(epoch, ops[..k]);
      ReleaseFitsLease(Run(epoch, ops[..k]), ops[k], l);
      assert GivesBack(epoch, ops, i, k);
    }
    if ops[j].now < l.expiresAt && !ReleasedBetween(epoch, ops, i, j, l) && GivenBack(epoch, ops, i, j) {
      var k: nat :| i < k < j && k < |ops| && GivesBack(epoch, ops, i, k);
      EventIs(epoch, ops, k);
      AcceptedReleaseIsOf(Run(epoch, ops[..k]), ops[k]);
      EarlierUnreleased(epoch, ops, i, k, j, l);
      GrantIs(epoch, ops, i, l);
      LeaseLife(epoch, ops, i, k, l);
      assert false;
    }
  }

  lemma EventIs(epoch: int, ops: seq<Op>, k: nat)
    requires k < |ops|
    ensures EventAt(epoch, ops, k) == Apply(Run(epoch, ops[..k]), ops[k]).1
  {}

  lemma GrantIs(epoch: int, ops: seq<Op>, i: nat, l: LeaseRecord)
    requires FreshAt(epoch, ops, i) && l == EventAt(epoch, ops, i).outcome.lease
    ensures GrantedAt(epoch, ops, i, l)
  {}

  lemma EarlierUnreleased(epoch: int, ops: seq<Op>, i: nat, k: nat, j: nat, l: LeaseRecord)
    requires k <= j && !ReleasedBetween(epoch, ops, i, j, l)
    ensures !ReleasedBetween(epoch, ops, i, k, l)
  {}

  /** Everything in the table was freshly granted by an earlier operation. */
  lemma {:induction false} TableComesFromGrants(epoch: int, ops: seq<Op>, n: nat, task: string)
    requires n <= |ops| && task in Run(epoch, ops[..n]).byTask
    ensures
      var l := Run(epoch, ops[..n]).byTask[task];
      exists i: nat :: i < n && FreshAt(epoch, ops, i) && EventAt(epoch, ops, i).outcome.lease == l
  {
    if n > 0 {
      RunStep(epoch, ops, n - 1);
      var t, op := Run(epoch, ops[..n - 1]), ops[n - 1];
      if task in t.byTask && t.byTask[task] == Run(epoch, ops[..n]).byTask[task] {
        TableComesFromGrants(epoch, ops, n - 1, task);
      } else {
        NewEntryIsFresh(t, op, task);
        assert FreshAt(epoch, ops, n - 1);
      }
    }
  }

  lemma NewEntryIsFresh(t: Table, op: Op, task: string)
    requires
      var t' := Apply(t, op).0;
      task in t'.byTask && !(task in t.byTask && t.byTask[task] == t'.byTask[task])
    ensures Apply(t, op).1 == ClaimEvent(Granted(Apply(t, op).0.byTask[task], false))
  {}

  /** Somebody's earlier fresh grant of the task is in force at `j`. */
  ghost predicate TaskIsLeased(epoch: int, ops: seq<Op>, j: nat)
    requires j < |ops| && ops[j].ClaimOp?
  {
    exists i: nat :: i < j && Blocks(epoch, ops, i, j)
  }

  ghost predicate Blocks(epoch: int, ops: seq<Op>, i: nat, j: nat)
    requires j < |ops| && ops[j].ClaimOp?
  {
    FreshAt(epoch, ops, i) && Claims(ops, i, ops[j].task) && InForce(epoch, ops, i, j)
  }

  lemma BlocksMeansHeld(epoch: int, ops: seq<Op>, i: nat, j: nat)
    requires ClockNonDecreasing(ops) && j < |ops| && ops[j].ClaimOp? && i < j && Blocks(epoch, ops, i, j)
    ensures
      var t, l := Run(epoch, ops[..j]), EventAt(epoch, ops, i).outcome.lease;
      Current(t, ops[j].task, ops[j].now) == Some(l) && l.owner == ops[i].owner
  {
    hide Run, Apply;
    var l := EventAt(epoch, ops, i).outcome.lease;
    FreshGrantIsTheClaim(epoch, ops, i);
    InForceIff(epoch, ops, i, j, l);
    GrantIs(epoch, ops, i, l);
    LeaseLife(epoch, ops, i, j, l);
  }

  lemma HeldMeansBlocked(epoch: int, ops: seq<Op>, j: nat)
    requires ClockNonDecreasing(ops) && j < |ops| && ops[j].ClaimOp?
    requires Current(Run(epoch, ops[..j]), ops[j].task, ops[j].now).Some?
    ensures TaskIsLeased(epoch, ops, j)
  {
    hide Run, Apply, Inv;
    var task := ops[j].task;
    TableComesFromGrants(epoch, ops, j, task);
    var i: nat :| i < j && FreshAt(epoch, ops, i)
      && EventAt(epoch, ops, i).outcome.lease == Run(epoch, ops[..j]).byTask[task];
    var l := EventAt(epoch, ops, i).outcome.lease;
    TableKeys(epoch, ops, j, task);
    FreshGrantIsTheClaim(epoch, ops, i);
    InForceIff(epoch, ops, i, j, l);
    GrantIs(epoch, ops, i, l);
    LeaseLife(epoch, ops, i, j, l);
    assert Blocks(epoch, ops, i, j);
  }

  lemma TableKeys(epoch: int, ops: seq<Op>, j: nat, task: string)
    requires j <= |ops| && task in Run(epoch, ops[..j]).byTask
    ensures Run(epoch, ops[..j]).byTask[task].task == task
  {
    RunInv(epoch, ops[..j]);
  }

  /**
   Exclusion, exactly and in terms of claims: a valid claim is granted freshly if and only if no
   earlier fresh grant of its task is in force, that is, has neither reached the time its claimant
   asked for nor been given back by it.
   */
  lemma FreshGrantIff(epoch: int, ops: seq<Op>, j: nat)
    requires ClockNonDecreasing(ops) && j < |ops| && ops[j].ClaimOp? && !EventAt(epoch, ops, j).outcome.Invalid?
    ensures FreshAt(epoch, ops, j) <==> !TaskIsLeased(epoch, ops, j)
  {
    ClaimOutcomeIs(Run(epoch, ops[..j]), ops[j]);
    EventIs(epoch, ops, j);
    hide Run, Apply, EventAt;
    if TaskIsLeased(epoch, ops, j) {
      var i: nat :| i < j && Blocks(epoch, ops, i, j);
      BlocksMeansHeld(epoch, ops, i, j);
    } else if Current(Run(epoch, ops[..j]), ops[j].task, ops[j].now).Some? {
      HeldMeansBlocked(epoch, ops, j);
    }
  }

  lemma ClaimOutcomeIs(t: Table, op: Op)
    requires op.ClaimOp? && !Apply(t, op).1.outcome.Invalid?
    ensures
      var o := Apply(t, op).1.outcome;
      match Current(t, op.task, op.now)
      case Some(l) => o == if l.owner == op.owner then Granted(l, true) else Held(l.owner)
      case None => o.Granted? && !o.reused
  {}

  /** While a grant is in force, its claimant is given it again and everybody else is told who holds it. */
  lemma ClaimWhileLeased(epoch: int, ops: seq<Op>, i: nat, j: nat)
    requires ClockNonDecreasing(ops) && i < j < |ops| && ops[j].ClaimOp? && Blocks(epoch, ops, i, j)
    requires !EventAt(epoch, ops, j).outcome.Invalid?
    ensures EventAt(epoch, ops, j) == ClaimEvent(
        if ops[j].owner == ops[i].owner then Granted(EventAt(epoch, ops, i).outcome.lease, true)
        else Held(ops[i].owner))
  {
    ClaimOutcomeIs(Run(epoch, ops[..j]), ops[j]);
    EventIs(epoch, ops, j);
    BlocksMeansHeld(epoch, ops, i, j);
    hide Run, Current;
  }

  /** The claimant's stamp is verified exactly until the time it asked for, unless it gave the task back. */
  lemma StampHoldsAsClaimed(epoch: int, ops: seq<Op>, i: nat, j: nat)
    requires ClockNonDecreasing(ops) && FreshAt(epoch, ops, i) && i < j < |ops|
    requires ops[i].ClaimOp? && ops[j].VerifyOp?
    requires ops[j].epoch == epoch && ops[j].fence == EventAt(epoch, ops, i).outcome.lease.fence
    ensures EventAt(epoch, ops, j) == VerifyEvent(true)
       <==> ops[j].task == ops[i].task && ops[j].owner == ops[i].owner && InForce(epoch, ops, i, j)
  {
    var l := EventAt(epoch, ops, i).outcome.lease;
    FreshGrantIsTheClaim(epoch, ops, i);
    InForceIff(epoch, ops, i, j, l);
    GrantIs(epoch, ops, i, l);
    LeaseLife(epoch, ops, i, j, l);
    RunInv(epoch, ops[..j]);
    EventIs(epoch, ops, j);
    hide Run, FreshAt, EventAt;
  }
}
