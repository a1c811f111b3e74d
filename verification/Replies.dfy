/**
 The client's treatment of an inbound reply: it settles an awaited message, is
 dropped as an exact repetition, or is injected into the session. The digest of
 the body is taken as injective, so the remembered key is (replyTo, body).
 */
module Replies {
  import opened Common
  import P = Pending

  const HANDLED_REPLY_WINDOW_MS := 1800000.0

  type Key = (MsgId, string)

  datatype Path =
    | ReceiptInjected
    | SettledPending(woken: bool)
    | DroppedDuplicate
    | OrphanInjected

  datatype Desk = Desk(pending: P.State, handled: map<Key, real>)

  function Pruned(handled: map<Key, real>, now: real): map<Key, real> {
    map k | k in handled && now - handled[k] <= HANDLED_REPLY_WINDOW_MS :: handled[k]
  }

  function Marked(handled: map<Key, real>, key: Key, now: real): map<Key, real> { Pruned(handled[key := now], now) }

  predicate IsDuplicate(handled: map<Key, real>, key: Key, now: real) {
    key in handled && now - handled[key] < HANDLED_REPLY_WINDOW_MS
  }

  predicate IsLaunch(s: P.State, id: MsgId)
    requires P.Consistent(s)
  {
    id in s.entries && s.objects[s.entries[id]].launch
  }

  function Receive(d: Desk, frame: P.ReplyFrame, waiting: bool, now: real): (Desk, Path)
    requires P.Consistent(d.pending)
  {
    if frame.receipt then (d, ReceiptInjected)
    else if frame.replyTo.None? then (d, OrphanInjected)
    else
      var id := frame.replyTo.value;
      var key := (id, frame.body);
      var (p, _, matched) := P.HandleReply(d.pending, frame);
      if matched then (Desk(p, Marked(d.handled, key, now)), SettledPending(IsLaunch(d.pending, id) && !waiting))
      else if IsDuplicate(d.handled, key, now) then (Desk(p.(unmatched := p.unmatched + 1), d.handled),
          DroppedDuplicate)
      else (Desk(p, Marked(Marked(d.handled, key, now), key, now)), OrphanInjected)
  }

  class ReplyDesk {
    const pending: P.PendingReplies
    var handledReplyTargets: map<Key, real>

    ghost function View(): Desk
      reads this, pending
    {
      Desk(pending.View(), handledReplyTargets)
    }

    constructor ()
      ensures View() == Desk(P.EMPTY, map[]) && fresh(pending)
    {
      pending := new P.PendingReplies();
      handledReplyTargets := map[];
    }

    method PruneHandledReplyTargets(now: real)
      modifies this`handledReplyTargets
      ensures handledReplyTargets == Pruned(old(handledReplyTargets), now)
    {
      var keys := handledReplyTargets.Keys;
      while keys != {}
        invariant keys <= handledReplyTargets.Keys <= old(handledReplyTargets).Keys
        invariant forall k :: k in handledReplyTargets ==> handledReplyTargets[k] == old(handledReplyTargets)[k]
        invariant forall k :: k in old(handledReplyTargets) && k !in keys ==>
          (k in handledReplyTargets <==> now - old(handledReplyTargets)[k] <= HANDLED_REPLY_WINDOW_MS)
      {
        var k :| k in keys;
        keys := keys - {k};
        if now - handledReplyTargets[k] > HANDLED_REPLY_WINDOW_MS {
          handledReplyTargets := handledReplyTargets - {k};
        }
      }
    }

    method MarkReplyHandled(key: Key, now: real)
      modifies this`handledReplyTargets
      ensures handledReplyTargets == Marked(old(handledReplyTargets), key, now)
    {
      handledReplyTargets := handledReplyTargets[key := now];
      PruneHandledReplyTargets(now);
    }

    /** Tells whether this very answer was consumed recently; marks it if not. */
    method CheckDuplicate(key: Key, now: real) returns (duplicate: bool)
      modifies this`handledReplyTargets
      ensures duplicate == IsDuplicate(old(handledReplyTargets), key, now)
      ensures handledReplyTargets ==
        if duplicate then old(handledReplyTargets) else Marked(old(handledReplyTargets), key, now)
    {
      if key in handledReplyTargets && now - handledReplyTargets[key] < HANDLED_REPLY_WINDOW_MS { return true; }
      handledReplyTargets := handledReplyTargets[key := now];
      PruneHandledReplyTargets(now);
      duplicate := false;
    }

    method OnReply(frame: P.ReplyFrame, waiting: bool, now: real) returns (path: Path)
      requires P.Consistent(pending.View())
      modifies this, pending
      ensures (View(), path) == Receive(old(View()), frame, waiting, now)
    {
      if frame.receipt { return ReceiptInjected; }
      if frame.replyTo.None? { return OrphanInjected; }
      var id := frame.replyTo.value;
      var key := (id, frame.body);
      var wake := id in pending.entries && pending.objects[pending.entries[id]].launch && !waiting;
      var _, matched := pending.HandleReplyFrame(frame);
      if matched {
        MarkReplyHandled(key, now);
        return SettledPending(wake);
      }
      var duplicate := CheckDuplicate(key, now);
      if duplicate {
        pending.unmatchedReplyCount := pending.unmatchedReplyCount + 1;
        return DroppedDuplicate;
      }
      MarkReplyHandled(key, now);
      path := OrphanInjected;
    }
  }

  // ---- runs ----

  /** A reply arrives, or something else happens to the awaited messages. */
  datatype Step =
    | Arrive(frame: P.ReplyFrame, waiting: bool, at: real)
    | Other(step: P.Step)
  {
    function Now(): real { if Arrive? then at else step.now }
  }

  ghost function Next(d: Desk, step: Step): Desk {
    match step
    case Arrive(frame, waiting, at) => if P.Consistent(d.pending) then Receive(d, frame, waiting, at).0 else d
    case Other(s) => if s.ReplyStep? then d else d.(pending := P.Next(d.pending, s).0)
  }

  ghost function Run(steps: seq<Step>): Desk {
    if steps == [] then Desk(P.EMPTY, map[]) else Next(Run(steps[..|steps| - 1]), steps[|steps| - 1])
  }

  lemma {:induction false} RunInv(steps: seq<Step>)
    ensures P.Inv(Run(steps).pending) && P.Consistent(Run(steps).pending)
  {
    if steps != [] {
      var front, step := steps[..|steps| - 1], steps[|steps| - 1];
      RunInv(front);
      var d := Run(front);
      match step {
        case Arrive(frame, waiting, at) =>
          if frame.replyTo.Some? {
            P.SettleKeepsInv(d.pending, frame.replyTo.value, P.Answered(frame));
            P.UnmatchedKeepsInv(d.pending, Run(steps).pending.unmatched);
          }
        case Other(s) =>
          if P.Enabled(d.pending, s) && !s.ReplyStep? { P.StepKeepsInv(d.pending, s); }
      }
    }
    P.InvIsConsistent(Run(steps).pending);
  }

  ghost function PathAt(steps: seq<Step>, k: nat): Path
    requires k < |steps| && steps[k].Arrive?
  {
    RunInv(steps[..k]);
    Receive(Run(steps[..k]), steps[k].frame, steps[k].waiting, steps[k].at).1
  }

  /** The answer `key` arrives at step `k` and is not a receipt. */
  predicate ArrivesAt(steps: seq<Step>, k: nat, key: Key) {
    k < |steps| && steps[k].Arrive? && !steps[k].frame.receipt && steps[k].frame.replyTo == Some(key.0)
    && steps[k].frame.body == key.1
  }

  /** It then settles a pending message or is injected. */
  ghost predicate ConsumedAt(steps: seq<Step>, k: nat, key: Key) {
    ArrivesAt(steps, k, key) && !PathAt(steps, k).DroppedDuplicate?
  }

  predicate ClockNonDecreasing(steps: seq<Step>) {
    forall i, j :: 0 <= i < j < |steps| ==> steps[i].Now() <= steps[j].Now()
  }

  /** A time stamp in the memory is the time of a consumption of that answer. */
  lemma {:induction false} MemoryIsHistory(steps: seq<Step>, key: Key)
    requires key in Run(steps).handled
    ensures exists i: nat :: i < |steps| && ConsumedAt(steps, i, key) && steps[i].at == Run(steps).handled[key]
  {
    assert steps != [];
    var n := |steps| - 1;
    var front := steps[..n];
    RunInv(front);
    if ConsumedAt(steps, n, key) {
    } else {
      assert key in Run(front).handled && Run(front).handled[key] == Run(steps).handled[key];
      MemoryIsHistory(front, key);
      var i: nat :| i < n && ConsumedAt(front, i, key) && front[i].at == Run(front).handled[key];
      assert front[..i] == steps[..i];
      assert ConsumedAt(steps, i, key);
    }
  }

  /** One step keeps what the memory holds of an answer, unless it is too old by then. */
  lemma StepRemembers(d: Desk, step: Step, key: Key, at: real)
    requires P.Consistent(d.pending) && key in d.handled && d.handled[key] >= at && step.Now() >= at
    ensures
      var h := Next(d, step).handled;
      (key in h && h[key] >= at) || step.Now() - at > HANDLED_REPLY_WINDOW_MS
  {
    hide P.HandleReply, P.Next;
  }

  lemma StepMarks(d: Desk, step: Step, key: Key)
    requires P.Consistent(d.pending) && ArrivesAt([step], 0, key)
    requires !Receive(d, step.frame, step.waiting, step.at).1.DroppedDuplicate?
    ensures key in Next(d, step).handled && Next(d, step).handled[key] == step.at
  {
    hide P.HandleReply;
  }

  /** After a consumption the memory holds it, or a later one, until the window has passed. */
  lemma {:induction false} HistoryIsRemembered(steps: seq<Step>, i: nat, j: nat, key: Key)
    requires ClockNonDecreasing(steps) && ConsumedAt(steps, i, key) && i < j < |steps|
    ensures
      var h := Run(steps[..j]).handled;
      (key in h && h[key] >= steps[i].at) || steps[j].Now() - steps[i].at > HANDLED_REPLY_WINDOW_MS
  {
    RunInv(steps[..j - 1]);
    assert steps[..j][..j - 1] == steps[..j - 1];
    var d := Run(steps[..j - 1]);
    if i < j - 1 {
      HistoryIsRemembered(steps, i, j - 1, key);
      hide Next;
      if key in d.handled && d.handled[key] >= steps[i].at { StepRemembers(d, steps[j - 1], key, steps[i].at); }
    } else {
      StepMarks(d, steps[i], key);
    }
  }

  /**
   Exactly when a reply is dropped: an arriving answer is dropped if and only if
   its message is not awaited at that moment and the same answer was consumed
   less than 30 minutes before. Everything else reaches the session.
   */
  lemma DroppedIffRecentlyConsumed(steps: seq<Step>, j: nat, key: Key)
    requires ClockNonDecreasing(steps) && ArrivesAt(steps, j, key)
    ensures PathAt(steps, j).DroppedDuplicate?
       <==> && key.0 !in Run(steps[..j]).pending.entries
            && exists i: nat ::
                 i < j && ConsumedAt(steps, i, key) && steps[j].at - steps[i].at < 1800000.0
  {
    RunInv(steps[..j]);
    var h := Run(steps[..j]).handled;
    if PathAt(steps, j).DroppedDuplicate? {
      MemoryIsHistory(steps[..j], key);
      var i: nat :| i < j && ConsumedAt(steps[..j], i, key) && steps[..j][i].at == h[key];
      assert steps[..j][..i] == steps[..i];
      assert ConsumedAt(steps, i, key);
    }
    if i: nat :| i < j && ConsumedAt(steps, i, key) && steps[j].at - steps[i].at < HANDLED_REPLY_WINDOW_MS {
      HistoryIsRemembered(steps, i, j, key);
    }
  }

  /** Message ids are fresh: an id is registered at most once, and nothing answers it before. */
  predicate FreshIds(steps: seq<Step>) {
    forall i: nat, j: nat :: i < j < |steps| && IsRegister(steps[j]) ==>
      !(IsRegister(steps[i]) && steps[i].step.msgId == steps[j].step.msgId)
      && !(steps[i].Arrive? && !steps[i].frame.receipt && steps[i].frame.replyTo == Some(steps[j].step.msgId))
  }

  predicate IsRegister(s: Step) { s.Other? && s.step.RegisterStep? }

  lemma {:induction false} NotAwaitedAgain(steps: seq<Step>, i: nat, j: nat, key: Key)
    requires FreshIds(steps) && ArrivesAt(steps, i, key) && i < j <= |steps|
    ensures key.0 !in Run(steps[..j]).pending.entries
  {
    var d, step := Run(steps[..j - 1]), steps[j - 1];
    RunInv(steps[..j - 1]);
    RunInv(steps[..j]);
    assert steps[..j][..j - 1] == steps[..j - 1];
    assert Run(steps[..j]) == Next(d, step);
    hide Run;
    if i < j - 1 {
      NotAwaitedAgain(steps, i, j - 1, key);
      hide Next;
      assert !RegistersId(step, key.0);
      if key.0 in Next(d, step).pending.entries { StepKeepsFlag(d, step, key.0); }
    } else {
      hide P.Settle;
      ArrivalSettles(d, step, key);
    }
  }

  /** After its arrival an answer is awaited no longer. */
  lemma ArrivalSettles(d: Desk, step: Step, key: Key)
    requires P.Consistent(d.pending) && ArrivesAt([step], 0, key)
    ensures key.0 !in Next(d, step).pending.entries
  {}

  /**
   At most one consumption per window: with fresh message ids, however
   replies, expiries, cancellations and re-sends interleave, two consumptions of
   the same answer are at least 30 minutes apart.
   */
  lemma ConsumedOncePerWindow(steps: seq<Step>, i: nat, j: nat, key: Key)
    requires ClockNonDecreasing(steps) && FreshIds(steps)
    requires ConsumedAt(steps, i, key) && ConsumedAt(steps, j, key) && i < j
    ensures steps[j].at - steps[i].at >= 1800000.0
  {
    NotAwaitedAgain(steps, i, j, key);
    DroppedIffRecentlyConsumed(steps, j, key);
  }

  /** A receipt leaves the awaited messages and the memory as they are, and a
      settlement happens exactly when a non-receipt answers an awaited message. */
  lemma SettlesIffAwaited(d: Desk, frame: P.ReplyFrame, waiting: bool, now: real)
    requires P.Consistent(d.pending)
    ensures
      var (d', path) := Receive(d, frame, waiting, now);
      && (path.SettledPending? <==> !frame.receipt && frame.replyTo.Some? && frame.replyTo.value in d.pending.entries)
      && (path.ReceiptInjected? <==> frame.receipt)
      && (frame.receipt ==> d' == d)
      && d'.pending.entries
         == if path.SettledPending? then d.pending.entries - {frame.replyTo.value} else d.pending.entries
  {}

  /** Without fresh ids the claim fails: an answer consumed as an orphan settles the
      same id when it is registered afterwards. */
  lemma ReusedIdIsConsumedTwice()
    ensures
      var f := P.ReplyFrame(Some("m"), "b", false);
      var steps := [Arrive(f, false, 0.0), Other(P.RegisterStep("m", 10.0, false, 0.0)), Arrive(f, false, 1.0)];
      && ClockNonDecreasing(steps) && !FreshIds(steps)
      && ConsumedAt(steps, 0, ("m", "b")) && ConsumedAt(steps, 2, ("m", "b"))
  {
    var f := P.ReplyFrame(Some("m"), "b", false);
    var steps := [Arrive(f, false, 0.0), Other(P.RegisterStep("m", 10.0, false, 0.0)), Arrive(f, false, 1.0)];
    assert IsRegister(steps[1]) && steps[0].Arrive?;
    assert steps[..0] == [] && steps[..2][..1] == steps[..1] && steps[..1][..0] == [];
    RunInv(steps[..1]);
    assert "m" in Run(steps[..2]).pending.entries;
  }

  // ---- waking the session ----

  predicate RegistersId(step: Step, id: MsgId) { step.Other? && step.step.RegisterStep? && step.step.msgId == id }

  /** Step `i` is the last one before `n` to register `id`. */
  predicate LastRegistered(steps: seq<Step>, n: nat, i: nat, id: MsgId) {
    i < n <= |steps| && RegistersId(steps[i], id) && forall k :: i < k < n ==> !RegistersId(steps[k], id)
  }

  /** The launch flag under which `id` is awaited. */
  function LaunchFlag(s: P.State, id: MsgId): bool
    requires P.Consistent(s) && id in s.entries
  {
    s.objects[s.entries[id]].launch
  }

  lemma SettleKeepsFlag(s: P.State, other: MsgId, r: P.Resolution, id: MsgId)
    requires P.Consistent(s) && id in P.Settle(s, other, r).0.entries
    ensures
      var s' := P.Settle(s, other, r).0;
      P.Consistent(s') && id in s.entries && LaunchFlag(s', id) == LaunchFlag(s, id)
  {}

  lemma {:induction false} CancelAllKeepsFlag(s: P.State, order: seq<MsgId>, reason: string, id: MsgId)
    requires P.Consistent(s) && id in P.CancelAll(s, order, reason).0.entries
    ensures
      var s' := P.CancelAll(s, order, reason).0;
      P.Consistent(s') && id in s.entries && LaunchFlag(s', id) == LaunchFlag(s, id)
  {
    if order != [] {
      hide P.Settle;
      var front := order[..|order| - 1];
      SettleKeepsFlag(P.CancelAll(s, front, reason).0, order[|order| - 1], P.Failed(reason), id);
      CancelAllKeepsFlag(s, front, reason, id);
    }
  }

  lemma StepKeepsFlag(d: Desk, step: Step, id: MsgId)
    requires P.Inv(d.pending) && P.Consistent(d.pending) && id in Next(d, step).pending.entries
    requires P.Consistent(Next(d, step).pending) && !RegistersId(step, id)
    ensures id in d.pending.entries && LaunchFlag(Next(d, step).pending, id) == LaunchFlag(d.pending, id)
  {
    match step {
      case Arrive(frame, waiting, at) =>
        if !frame.receipt && frame.replyTo.Some? && frame.replyTo.value in d.pending.entries {
          SettleKeepsFlag(d.pending, frame.replyTo.value, P.Answered(frame), id);
        }
      case Other(p) => if !p.ReplyStep? && P.Enabled(d.pending, p) { EventKeepsFlag(d.pending, p, id); }
    }
  }

  lemma EventKeepsFlag(s: P.State, p: P.Step, id: MsgId)
    requires P.Inv(s) && P.Consistent(s) && P.Enabled(s, p) && !p.ReplyStep?
    requires id in P.Apply(s, p).0.entries && P.Consistent(P.Apply(s, p).0)
    requires !(p.RegisterStep? && p.msgId == id)
    ensures id in s.entries && LaunchFlag(P.Apply(s, p).0, id) == LaunchFlag(s, id)
  {
    match p {
      case RegisterStep(other, _, _, _) => SettleKeepsFlag(s, other, P.Failed("superseded"), id);
      case CancelStep(other, reason, _) => SettleKeepsFlag(s, other, P.Failed(reason), id);
      case CancelAllStep(order, reason, _) => CancelAllKeepsFlag(s, order, reason, id);
      case FireStep(t, _) => assert P.TimerOk(s, t) && P.EntryOk(s, id);
    }
  }

  /** An awaited id is awaited under the flag of its last registration. */
  lemma {:induction false} FlagIsOfLast(steps: seq<Step>, n: nat, id: MsgId) returns (i: nat)
    requires n <= |steps| && P.Consistent(Run(steps[..n]).pending) && id in Run(steps[..n]).pending.entries
    ensures LastRegistered(steps, n, i, id) && steps[i].step.launch == LaunchFlag(Run(steps[..n]).pending, id)
  {
    if n == 0 {
      assert false;
    } else {
      assert steps[..n][..n - 1] == steps[..n - 1];
      var d, step := Run(steps[..n - 1]), steps[n - 1];
      RunInv(steps[..n - 1]);
      RunInv(steps[..n]);
      if RegistersId(step, id) {
        i := n - 1;
      } else {
        StepKeepsFlag(d, step, id);
        i := FlagIsOfLast(steps, n - 1, id);
      }
    }
  }

  /**
   When an awaited answer wakes the session instead of only answering the send: exactly if its message was last
   registered as launched, that is, sent without waiting, and nobody is waiting for all launched ones.
   */
  lemma WokenIff(steps: seq<Step>, j: nat, key: Key)
    requires ArrivesAt(steps, j, key) && PathAt(steps, j).SettledPending?
    ensures PathAt(steps, j).woken
       <==> !steps[j].waiting && exists i: nat :: LastRegistered(steps, j, i, key.0) && steps[i].step.launch
  {
    RunInv(steps[..j]);
    var i := FlagIsOfLast(steps, j, key.0);
    hide Run;
    forall k: nat | LastRegistered(steps, j, k, key.0) ensures k == i {}
  }
}
