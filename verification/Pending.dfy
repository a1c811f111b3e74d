/**
 Awaited replies: each registration has two reminders and a deadline, all timers
 of the host; it is settled by a reply, its deadline, a cancellation or a newer
 registration of the same id. Times are reals, in milliseconds.
 */
module Pending {
  import opened Common

  const MAX_REMINDS := 2

  datatype ReplyFrame = ReplyFrame(replyTo: Option<MsgId>, body: string, receipt: bool)

  datatype Resolution = Answered(frame: ReplyFrame) | Expired | Failed(reason: string)

  datatype TimerKind = RemindTimer | ExpiryTimer

  /** A scheduled callback: it captured the id and the entry (by its registration number). */
  datatype Timer = Timer(msgId: MsgId, reg: nat, kind: TimerKind, due: real)

  /** An entry object; it outlives its removal from the table, as a callback may
      hold it. Its timers are the reminders and the one for the deadline. */
  datatype Entry = Entry(msgId: MsgId, deadline: real, remindCount: nat, reminds: set<nat>, deadlineTimer: nat,
      launch: bool)
  {
    function Timers(): set<nat> { reminds + {deadlineTimer} }
  }

  /** `entries` maps live ids to registration numbers, `objects` holds every entry
      ever made, `timers` the armed callbacks of the host. */
  datatype State = State(entries: map<MsgId, nat>, objects: seq<Entry>, timers: map<nat, Timer>, nextTimer: nat,
      unmatched: nat)

  datatype Event =
    | Settled(reg: nat, resolution: Resolution)
    | Reminded(reg: nat, msgId: MsgId)

  const EMPTY := State(map[], [], map[], 0, 0)

  predicate Consistent(s: State) { forall id :: id in s.entries ==> s.entries[id] < |s.objects| }

  /** Take the entry of `id` out of the table and disarm its timers. */
  function Settle(s: State, id: MsgId, r: Resolution): (State, seq<Event>)
    requires Consistent(s)
  {
    if id !in s.entries then (s, [])
    else
      var reg := s.entries[id];
      (s.(entries := s.entries - {id}, timers := s.timers - s.objects[reg].Timers()), [Settled(reg, r)])
  }

  function Cancel(s: State, id: MsgId, reason: string): (State, seq<Event>)
    requires Consistent(s)
  {
    Settle(s, id, Failed(reason))
  }

  function Remaining(expiresAt: real, now: real): real {
    if expiresAt - now > 0.0 then expiresAt - now else 0.0
  }

  function HalfTimer(id: MsgId, reg: nat, now: real, total: real): Timer {
    Timer(id, reg, RemindTimer, now + total * 0.5)
  }
  function LateTimer(id: MsgId, reg: nat, now: real, total: real): Timer {
    Timer(id, reg, RemindTimer, now + total * 0.75)
  }
  function DeadlineTimer(id: MsgId, reg: nat, now: real, total: real): Timer {
    Timer(id, reg, ExpiryTimer, now + total)
  }

  /** Enter a new registration: reminders at one half and three quarters of the time
      left (none when no time is left), then the deadline. */
  function Enter(s: State, id: MsgId, total: real, launch: bool, now: real): State {
    var reg, n := |s.objects|, s.nextTimer;
    var timers :=
      if total > 0.0 then s.timers[n := HalfTimer(id, reg, now, total)][n + 1 := LateTimer(id, reg, now, total)]
      else s.timers;
    var d := if total > 0.0 then n + 2 else n;
    State(s.entries[id := reg],
          s.objects + [Entry(id, now + total, 0, if total > 0.0 then {n, n + 1} else {}, d, launch)],
          timers[d := DeadlineTimer(id, reg, now, total)],
          d + 1,
          s.unmatched)
  }

  function Register(s: State, id: MsgId, expiresAt: real, launch: bool, now: real): (State, seq<Event>)
    requires Consistent(s)
  {
    var (s1, e) := Cancel(s, id, "superseded");
    (Enter(s1, id, Remaining(expiresAt, now), launch, now), e)
  }

  function HandleReply(s: State, frame: ReplyFrame): (State, seq<Event>, bool)
    requires Consistent(s)
  {
    if frame.replyTo.None? || frame.replyTo.value !in s.entries then (s.(unmatched := s.unmatched + 1), [], false)
    else
      var (s', e) := Settle(s, frame.replyTo.value, Answered(frame));
      (s', e, true)
  }

  /** The host runs an armed callback. */
  function Fire(s: State, t: nat): (State, seq<Event>)
    requires Consistent(s) && t in s.timers && s.timers[t].reg < |s.objects|
  {
    var timer := s.timers[t];
    var s1 := s.(timers := s.timers - {t});
    var entry := s.objects[timer.reg];
    match timer.kind
    case RemindTimer =>
      if timer.msgId !in s.entries || entry.remindCount >= MAX_REMINDS then (s1, [])
      else (s1.(objects := s.objects[timer.reg := entry.(remindCount := entry.remindCount + 1)]),
          [Reminded(timer.reg, timer.msgId)])
    case ExpiryTimer =>
      if timer.msgId !in s.entries then (s1, [])
      else (s1.(entries := s.entries - {timer.msgId}, timers := s1.timers - entry.Timers()),
          [Settled(timer.reg, Expired)])
  }

  function CancelAll(s: State, order: seq<MsgId>, reason: string): (State, seq<Event>)
    requires Consistent(s)
    ensures Consistent(CancelAll(s, order, reason).0)
  {
    if order == [] then (s, [])
    else
      var (s1, e1) := CancelAll(s, order[..|order| - 1], reason);
      var (s2, e2) := Cancel(s1, order[|order| - 1], reason);
      (s2, e1 + e2)
  }

  class PendingReplies {
    var entries: map<MsgId, nat>
    var objects: seq<Entry>
    var timers: map<nat, Timer>
    var nextTimer: nat
    var unmatchedReplyCount: nat

    ghost function View(): State
      reads this
    {
      State(entries, objects, timers, nextTimer, unmatchedReplyCount)
    }

    constructor ()
      ensures View() == EMPTY
    {
      entries, objects, timers, nextTimer, unmatchedReplyCount := map[], [], map[], 0, 0;
    }

    method ClearTimers(ids: set<nat>)
      modifies this`timers
      ensures timers == old(timers) - ids
    {
      var todo := ids;
      while todo != {}
        invariant todo <= ids && timers == old(timers) - (ids - todo)
      {
        var t :| t in todo;
        todo := todo - {t};
        timers := timers - {t};
      }
    }

    method CancelOne(id: MsgId, reason: string) returns (events: seq<Event>)
      requires Consistent(View())
      modifies this
      ensures (View(), events) == Cancel(old(View()), id, reason)
    {
      if id !in entries { return []; }
      var reg := entries[id];
      entries := entries - {id};
      ClearTimers(objects[reg].Timers());
      events := [Settled(reg, Failed(reason))];
    }

    /** Schedule a reminder unless it would be due at once or not before the deadline. */
    method ScheduleReminder(id: MsgId, reg: nat, now: real, delay: real, total: real) returns (mine: set<nat>)
      modifies this`timers, this`nextTimer
      ensures if 0.0 < delay < total then
          && timers == old(timers)[old(nextTimer) := Timer(id, reg, RemindTimer, now + delay)]
          && nextTimer == old(nextTimer) + 1 && mine == {old(nextTimer)}
        else timers == old(timers) && nextTimer == old(nextTimer) && mine == {}
    {
      mine := {};
      if 0.0 < delay < total {
        timers := timers[nextTimer := Timer(id, reg, RemindTimer, now + delay)];
        mine := {nextTimer};
        nextTimer := nextTimer + 1;
      }
    }

    method RegisterReply(id: MsgId, expiresAt: real, launch: bool, now: real) returns (events: seq<Event>)
      requires Consistent(View())
      modifies this
      ensures (View(), events) == Register(old(View()), id, expiresAt, launch, now)
    {
      events := CancelOne(id, "superseded");
      var total := if expiresAt - now > 0.0 then expiresAt - now else 0.0;
      var reg := |objects|;
      ghost var n := nextTimer;
      var half := ScheduleReminder(id, reg, now, total * 0.5, total);
      var late := ScheduleReminder(id, reg, now, total * 0.75, total);
      assert half + late == if total > 0.0 then {n, n + 1} else {};
      timers := timers[nextTimer := DeadlineTimer(id, reg, now, total)];
      objects := objects + [Entry(id, now + total, 0, half + late, nextTimer, launch)];
      nextTimer := nextTimer + 1;
      entries := entries[id := reg];
    }

    method HandleReplyFrame(frame: ReplyFrame) returns (events: seq<Event>, matched: bool)
      requires Consistent(View())
      modifies this
      ensures (View(), events, matched) == HandleReply(old(View()), frame)
    {
      if frame.replyTo.None? || frame.replyTo.value !in entries {
        unmatchedReplyCount := unmatchedReplyCount + 1;
        return [], false;
      }
      var reg := entries[frame.replyTo.value];
      entries := entries - {frame.replyTo.value};
      ClearTimers(objects[reg].Timers());
      events, matched := [Settled(reg, Answered(frame))], true;
    }

    method CancelEvery(reason: string) returns (events: seq<Event>, ghost order: seq<MsgId>)
      requires Consistent(View())
      modifies this
      ensures NoDup(order) && forall id :: id in order <==> id in old(entries)
      ensures (View(), events) == CancelAll(old(View()), order, reason)
    {
      events, order := [], [];
      var keys := entries.Keys;
      while keys != {}
        invariant Consistent(View())
        invariant NoDup(order) && forall id :: id in old(entries) <==> id in keys || id in order
        invariant forall id :: id in keys ==> id !in order
        invariant (View(), events) == CancelAll(old(View()), order, reason)
      {
        var id :| id in keys;
        var more := CancelOne(id, reason);
        events, keys := events + more, keys - {id};
        AppendNoDup(order, id);
        ghost var longer := order + [id];
        assert longer[..|longer| - 1] == order;
        order := longer;
      }
    }
  }

  // ---- runs ----

  datatype Step =
    | RegisterStep(msgId: MsgId, expiresAt: real, launch: bool, now: real)
    | ReplyStep(frame: ReplyFrame, now: real)
    | CancelStep(msgId: MsgId, reason: string, now: real)
    | CancelAllStep(order: seq<MsgId>, reason: string, now: real)
    | FireStep(timer: nat, now: real)

  ghost predicate Enabled(s: State, step: Step) {
    Consistent(s) &&
    match step
    case FireStep(t, now) => t in s.timers && s.timers[t].reg < |s.objects| && s.timers[t].due <= now
    case CancelAllStep(order, _, _) => NoDup(order) && forall id :: id in order <==> id in s.entries
    case _ => true
  }

  function Apply(s: State, step: Step): (State, seq<Event>)
    requires Enabled(s, step)
  {
    match step
    case RegisterStep(id, expiresAt, launch, now) => Register(s, id, expiresAt, launch, now)
    case ReplyStep(frame, _) => var (s', e, _) := HandleReply(s, frame); (s', e)
    case CancelStep(id, reason, _) => Cancel(s, id, reason)
    case CancelAllStep(order, reason, _) => CancelAll(s, order, reason)
    case FireStep(t, _) => Fire(s, t)
  }

  /** Registration `reg` is still unsettled. */
  predicate Live(s: State, reg: nat) {
    reg < |s.objects| && s.objects[reg].msgId in s.entries && s.entries[s.objects[reg].msgId] == reg
  }

  /** A live registration has its deadline armed. */
  ghost predicate EntryOk(s: State, id: MsgId)
    requires id in s.entries
  {
    var reg := s.entries[id];
    && reg < |s.objects| && s.objects[reg].msgId == id
    && s.objects[reg].deadlineTimer in s.timers
    && s.timers[s.objects[reg].deadlineTimer] == Timer(id, reg, ExpiryTimer, s.objects[reg].deadline)
  }

  /** An armed timer belongs to a live registration; a reminder is due before its deadline. */
  ghost predicate TimerOk(s: State, t: nat)
    requires t in s.timers
  {
    var timer := s.timers[t];
    && t < s.nextTimer && timer.reg < |s.objects|
    && timer.msgId in s.entries && s.entries[timer.msgId] == timer.reg
    && (if timer.kind.ExpiryTimer? then t == s.objects[timer.reg].deadlineTimer
        else t in s.objects[timer.reg].reminds && timer.due < s.objects[timer.reg].deadline)
  }

  /** Registrations do not share timers and remind at most twice. */
  ghost predicate ObjectOk(s: State, reg: nat)
    requires reg < |s.objects|
  {
    && s.objects[reg].remindCount <= MAX_REMINDS
    && forall t :: t in s.objects[reg].Timers() ==> t < s.nextTimer && (t in s.timers ==> s.timers[t].reg == reg)
  }

  /** The invariant of every run. */
  ghost predicate Inv(s: State) {
    && (forall id :: id in s.entries ==> EntryOk(s, id))
    && (forall t :: t in s.timers ==> TimerOk(s, t))
    && (forall reg :: 0 <= reg < |s.objects| ==> ObjectOk(s, reg))
  }

  lemma SettleKeepsInv(s: State, id: MsgId, r: Resolution)
    requires Inv(s)
    ensures Inv(Settle(s, id, r).0)
  {
    if id in s.entries {
      var s', reg := Settle(s, id, r).0, s.entries[id];
      forall k | k in s'.entries ensures EntryOk(s', k) {
        assert EntryOk(s, k) && EntryOk(s, id) && ObjectOk(s, reg);
      }
      forall t | t in s'.timers ensures TimerOk(s', t) { assert TimerOk(s, t); }
      forall k | 0 <= k < |s'.objects| ensures ObjectOk(s', k) { assert ObjectOk(s, k); }
    }
  }

  lemma FireKeepsInv(s: State, t: nat)
    requires Inv(s) && t in s.timers
    ensures Inv(Fire(s, t).0)
  {
    hide EntryOk, TimerOk, ObjectOk, Fire;
    InvIsConsistent(s);
    ArmedTimerIsOk(s, t);
    var s' := Fire(s, t).0;
    forall k | k in s'.entries ensures EntryOk(s', k) { FireKeepsEntry(s, t, k); }
    forall u | u in s'.timers ensures TimerOk(s', u) { FireKeepsTimer(s, t, u); }
    forall k | 0 <= k < |s'.objects| ensures ObjectOk(s', k) { FireKeepsObject(s, t, k); }
  }

  lemma ArmedTimerIsOk(s: State, t: nat)
    requires Inv(s) && t in s.timers
    ensures TimerOk(s, t) && s.timers[t].reg < |s.objects|
  {
    assert TimerOk(s, t);
  }

  lemma FireKeepsTimer(s: State, t: nat, u: nat)
    requires Inv(s) && t in s.timers && TimerOk(s, t) && u in Fire(s, t).0.timers
    ensures TimerOk(Fire(s, t).0, u)
  {
    assert TimerOk(s, u) && EntryOk(s, s.timers[t].msgId);
  }

  lemma FireKeepsObject(s: State, t: nat, k: nat)
    requires Inv(s) && t in s.timers && TimerOk(s, t) && k < |Fire(s, t).0.objects|
    ensures ObjectOk(Fire(s, t).0, k)
  {
    assert ObjectOk(s, k);
  }

  lemma FireKeepsEntry(s: State, t: nat, k: MsgId)
    requires Inv(s) && t in s.timers && TimerOk(s, t) && k in Fire(s, t).0.entries
    ensures EntryOk(Fire(s, t).0, k)
  {
    assert EntryOk(s, k) && ObjectOk(s, s.entries[k]) && ObjectOk(s, s.timers[t].reg);
  }

  lemma EnterKeepsTimers(s: State, id: MsgId, total: real, launch: bool, now: real, t: nat)
    requires Inv(s) && id !in s.entries && total >= 0.0
    requires t in Enter(s, id, total, launch, now).timers
    ensures TimerOk(Enter(s, id, total, launch, now), t)
  {
    if t in s.timers { assert TimerOk(s, t); }
  }

  lemma EnterKeepsEntries(s: State, id: MsgId, total: real, launch: bool, now: real, k: MsgId)
    requires Inv(s) && id !in s.entries && total >= 0.0
    requires k in Enter(s, id, total, launch, now).entries
    ensures EntryOk(Enter(s, id, total, launch, now), k)
  {
    if k != id {
      assert EntryOk(s, k);
      assert TimerOk(s, s.objects[s.entries[k]].deadlineTimer);
    }
  }

  lemma EnterKeepsObjects(s: State, id: MsgId, total: real, launch: bool, now: real, reg: nat)
    requires Inv(s) && id !in s.entries && total >= 0.0
    requires reg < |Enter(s, id, total, launch, now).objects|
    ensures ObjectOk(Enter(s, id, total, launch, now), reg)
  {
    if reg < |s.objects| { assert ObjectOk(s, reg); }
  }

  lemma EnterKeepsInv(s: State, id: MsgId, total: real, launch: bool, now: real)
    requires Inv(s) && id !in s.entries && total >= 0.0
    ensures Inv(Enter(s, id, total, launch, now))
  {
    var s' := Enter(s, id, total, launch, now);
    forall k | k in s'.entries ensures EntryOk(s', k) { EnterKeepsEntries(s, id, total, launch, now, k); }
    forall t | t in s'.timers ensures TimerOk(s', t) { EnterKeepsTimers(s, id, total, launch, now, t); }
    forall k | 0 <= k < |s'.objects| ensures ObjectOk(s', k) { EnterKeepsObjects(s, id, total, launch, now, k); }
  }

  lemma RegisterKeepsInv(s: State, id: MsgId, expiresAt: real, launch: bool, now: real)
    requires Inv(s)
    ensures Inv(Register(s, id, expiresAt, launch, now).0)
  {
    SettleKeepsInv(s, id, Failed("superseded"));
    EnterKeepsInv(Cancel(s, id, "superseded").0, id, Remaining(expiresAt, now), launch, now);
  }

  lemma {:induction false} CancelAllKeepsInv(s: State, order: seq<MsgId>, reason: string)
    requires Inv(s)
    ensures Inv(CancelAll(s, order, reason).0)
  {
    if order != [] {
      CancelAllKeepsInv(s, order[..|order| - 1], reason);
      SettleKeepsInv(CancelAll(s, order[..|order| - 1], reason).0, order[|order| - 1], Failed(reason));
    }
  }

  lemma StepKeepsInv(s: State, step: Step)
    requires Inv(s) && Enabled(s, step)
    ensures Inv(Apply(s, step).0)
  {
    match step {
      case RegisterStep(id, expiresAt, launch, now) => RegisterKeepsInv(s, id, expiresAt, launch, now);
      case ReplyStep(frame, _) =>
        if frame.replyTo.Some? && frame.replyTo.value in s.entries {
          SettleKeepsInv(s, frame.replyTo.value, Answered(frame));
        } else {
          UnmatchedKeepsInv(s, s.unmatched + 1);
        }
      case CancelStep(id, reason, _) => SettleKeepsInv(s, id, Failed(reason));
      case CancelAllStep(order, reason, _) => CancelAllKeepsInv(s, order, reason);
      case FireStep(t, _) => FireKeepsInv(s, t);
    }
  }

  lemma UnmatchedKeepsInv(s: State, n: nat)
    requires Inv(s)
    ensures Inv(s.(unmatched := n))
  {
    var s' := s.(unmatched := n);
    forall k | k in s'.entries ensures EntryOk(s', k) { assert EntryOk(s, k); }
    forall t | t in s'.timers ensures TimerOk(s', t) { assert TimerOk(s, t); }
    forall k | 0 <= k < |s'.objects| ensures ObjectOk(s', k) { assert ObjectOk(s, k); }
  }

  /** What happens at a step; a step that is not enabled does not happen. */
  ghost function Next(s: State, step: Step): (State, seq<Event>) {
    if Enabled(s, step) then Apply(s, step) else (s, [])
  }

  ghost function Run(steps: seq<Step>): State {
    if steps == [] then EMPTY else Next(Run(steps[..|steps| - 1]), steps[|steps| - 1]).0
  }

  ghost function EventsAt(steps: seq<Step>, k: nat): seq<Event>
    requires k < |steps|
  {
    Next(Run(steps[..k]), steps[k]).1
  }

  ghost function Trace(steps: seq<Step>): seq<Event> {
    if steps == [] then [] else Trace(steps[..|steps| - 1]) + Next(Run(steps[..|steps| - 1]), steps[|steps| - 1]).1
  }

  function Settlements(events: seq<Event>, reg: nat): nat {
    if events == [] then 0
    else
      var e := events[|events| - 1];
      Settlements(events[..|events| - 1], reg) + if e.Settled? && e.reg == reg then 1 else 0
  }

  function Reminders(events: seq<Event>, reg: nat): nat {
    if events == [] then 0
    else
      var e := events[|events| - 1];
      Reminders(events[..|events| - 1], reg) + if e.Reminded? && e.reg == reg then 1 else 0
  }

  lemma {:induction false} CountsAdd(a: seq<Event>, b: seq<Event>, reg: nat)
    ensures Settlements(a + b, reg) == Settlements(a, reg) + Settlements(b, reg)
    ensures Reminders(a + b, reg) == Reminders(a, reg) + Reminders(b, reg)
  {
    if b == [] {
      assert a + b == a;
    } else {
      CountsAdd(a, b[..|b| - 1], reg);
      assert (a + b)[..|a + b| - 1] == a + b[..|b| - 1];
    }
  }

  lemma {:induction false} RunInv(steps: seq<Step>)
    ensures Inv(Run(steps))
  {
    if steps != [] {
      RunInv(steps[..|steps| - 1]);
      var s, step := Run(steps[..|steps| - 1]), steps[|steps| - 1];
      if Enabled(s, step) { StepKeepsInv(s, step); }
    }
  }

  /** The account of one registration over one step: it is settled exactly when it
      stops being live, it is born live, it reminds only while live, and its
      identity and deadline never change. */
  ghost predicate Accounted(s: State, s': State, events: seq<Event>, reg: nat) {
    var bit := (b: bool) => if b then 1 else 0;
    && |s.objects| <= |s'.objects|
    && Settlements(events, reg) + bit(Live(s', reg)) == bit(Live(s, reg)) + bit(|s.objects| <= reg < |s'.objects|)
    && (reg < |s.objects| ==>
          && s'.objects[reg].msgId == s.objects[reg].msgId && s'.objects[reg].deadline == s.objects[reg].deadline
          && s'.objects[reg].remindCount == s.objects[reg].remindCount + Reminders(events, reg))
    && (|s.objects| <= reg ==> Reminders(events, reg) == 0 && (reg < |s'.objects| ==> s'.objects[reg].remindCount == 0))
    && (!Live(s, reg) ==> Reminders(events, reg) == 0)
  }

  lemma SettleAccounted(s: State, id: MsgId, r: Resolution, reg: nat)
    requires Inv(s)
    ensures Accounted(s, Settle(s, id, r).0, Settle(s, id, r).1, reg)
  {
    if id in s.entries {
      assert EntryOk(s, id);
      OneEvent(Settled(s.entries[id], r), reg);
      if reg < |s.objects| && s.objects[reg].msgId in s.entries { assert EntryOk(s, s.objects[reg].msgId); }
    }
  }

  lemma OneEvent(e: Event, reg: nat)
    ensures Settlements([e], reg) == if e.Settled? && e.reg == reg then 1 else 0
    ensures Reminders([e], reg) == if e.Reminded? && e.reg == reg then 1 else 0
  {
    assert [e][..0] == [];
  }

  lemma RegisterAccounted(s: State, id: MsgId, expiresAt: real, launch: bool, now: real, reg: nat)
    requires Inv(s)
    ensures Accounted(s, Register(s, id, expiresAt, launch, now).0, Register(s, id, expiresAt, launch, now).1, reg)
  {
    SettleAccounted(s, id, Failed("superseded"), reg);
  }

  lemma FireAccounted(s: State, t: nat, reg: nat)
    requires Inv(s) && t in s.timers
    ensures Accounted(s, Fire(s, t).0, Fire(s, t).1, reg)
  {
    assert TimerOk(s, t);
    var timer := s.timers[t];
    assert EntryOk(s, timer.msgId);
    OneEvent(Settled(timer.reg, Expired), reg);
    OneEvent(Reminded(timer.reg, timer.msgId), reg);
    if reg < |s.objects| && s.objects[reg].msgId in s.entries { assert EntryOk(s, s.objects[reg].msgId); }
  }

  lemma {:induction false} CancelAllAccounted(s: State, order: seq<MsgId>, reason: string, reg: nat)
    requires Inv(s)
    ensures Accounted(s, CancelAll(s, order, reason).0, CancelAll(s, order, reason).1, reg)
    ensures |CancelAll(s, order, reason).0.objects| == |s.objects|
  {
    if order != [] {
      var front, id := order[..|order| - 1], order[|order| - 1];
      CancelAllAccounted(s, front, reason, reg);
      CancelAllKeepsInv(s, front, reason);
      var (s1, e1) := CancelAll(s, front, reason);
      SettleAccounted(s1, id, Failed(reason), reg);
      CountsAdd(e1, Cancel(s1, id, reason).1, reg);
    }
  }

  lemma StepAccounted(s: State, step: Step, reg: nat)
    requires Inv(s)
    ensures Accounted(s, Next(s, step).0, Next(s, step).1, reg)
  {
    if Enabled(s, step) {
      match step {
        case RegisterStep(id, expiresAt, launch, now) => RegisterAccounted(s, id, expiresAt, launch, now, reg);
        case ReplyStep(frame, _) =>
          if frame.replyTo.Some? { SettleAccounted(s, frame.replyTo.value, Answered(frame), reg); }
        case CancelStep(id, reason, _) => SettleAccounted(s, id, Failed(reason), reg);
        case CancelAllStep(order, reason, _) => CancelAllAccounted(s, order, reason, reg);
        case FireStep(t, _) => FireAccounted(s, t, reg);
      }
    }
  }

  ghost predicate Exact(s: State, trace: seq<Event>, reg: nat) {
    && Settlements(trace, reg) == (if reg < |s.objects| && !Live(s, reg) then 1 else 0)
    && Reminders(trace, reg) == (if reg < |s.objects| then s.objects[reg].remindCount else 0)
    && Reminders(trace, reg) <= MAX_REMINDS
  }

  lemma ExactExtends(s: State, step: Step, trace: seq<Event>, reg: nat)
    requires Inv(s) && Exact(s, trace, reg)
    ensures Exact(Next(s, step).0, trace + Next(s, step).1, reg)
  {
    var (s', events) := Next(s, step);
    StepAccounted(s, step, reg);
    CountsAdd(trace, events, reg);
    if Enabled(s, step) { StepKeepsInv(s, step); }
    if reg < |s'.objects| { assert ObjectOk(s', reg); }
  }

  /**
   Exactly-once settlement, in every run: each registration made so far is
   either still live or has been settled exactly once; it has reminded at most
   twice, and as often as its entry says.
   */
  lemma {:induction false} ExactlyOnceSettlement(steps: seq<Step>, reg: nat)
    ensures Exact(Run(steps), Trace(steps), reg)
  {
    if steps != [] {
      var front := steps[..|steps| - 1];
      ExactlyOnceSettlement(front, reg);
      RunInv(front);
      ExactExtends(Run(front), steps[|steps| - 1], Trace(front), reg);
    }
  }

  lemma {:induction false} DeadStaysDead(steps: seq<Step>, i: nat, j: nat, reg: nat)
    requires i <= j <= |steps| && reg < |Run(steps[..i]).objects| && !Live(Run(steps[..i]), reg)
    ensures reg < |Run(steps[..j]).objects| && !Live(Run(steps[..j]), reg)
    ensures Run(steps[..j]).objects[reg].msgId == Run(steps[..i]).objects[reg].msgId
  {
    if i < j {
      DeadStaysDead(steps, i, j - 1, reg);
      RunInv(steps[..j - 1]);
      StepAccounted(Run(steps[..j - 1]), steps[j - 1], reg);
      assert steps[..j][..j - 1] == steps[..j - 1];
    }
  }

  /** Nothing happens to a registration after the step that settled it: no second
      settlement and no reminder. */
  lemma SilentAfterSettlement(steps: seq<Step>, i: nat, j: nat, reg: nat)
    requires i < j < |steps| && Settlements(EventsAt(steps, i), reg) > 0
    ensures Settlements(EventsAt(steps, i), reg) == 1
    ensures Settlements(EventsAt(steps, j), reg) == 0 && Reminders(EventsAt(steps, j), reg) == 0
  {
    RunInv(steps[..i]);
    RunInv(steps[..j]);
    assert steps[..i + 1][..i] == steps[..i];
    StepAccounted(Run(steps[..i]), steps[i], reg);
    var s := Run(steps[..i + 1]);
    assert reg < |s.objects| by { BornOnlyByRegister(Run(steps[..i]), steps[i], reg); }
    assert !Live(s, reg) by { BornOnlyByRegister(Run(steps[..i]), steps[i], reg); }
    DeadStaysDead(steps, i + 1, j, reg);
    StepAccounted(Run(steps[..j]), steps[j], reg);
  }

  /** A registration is never settled by the step that creates it. */
  lemma BornOnlyByRegister(s: State, step: Step, reg: nat)
    requires Inv(s)
    ensures Settlements(Next(s, step).1, reg) > 0 ==> reg < |s.objects| && Live(s, reg) && !Live(Next(s, step).0, reg)
  {
    StepAccounted(s, step, reg);
    if step.RegisterStep? {
      var s1 := Cancel(s, step.msgId, "superseded").0;
      SettleAccounted(s, step.msgId, Failed("superseded"), reg);
    } else if step.CancelAllStep? && Enabled(s, step) {
      CancelAllAccounted(s, step.order, step.reason, reg);
    }
  }

  /** Timers fire on time: nothing happens while one is overdue. */
  ghost predicate NotOverdue(s: State, now: real) { forall t :: t in s.timers ==> now <= s.timers[t].due }

  /** With no timer overdue, whatever a step does to a live registration happens no
      later than its deadline, reminders strictly before it, and it expires exactly at it. */
  lemma StepRespectsDeadline(s: State, step: Step, reg: nat)
    requires Inv(s) && NotOverdue(s, step.now) && Live(s, reg)
    ensures step.now <= s.objects[reg].deadline
    ensures Reminders(Next(s, step).1, reg) > 0 ==> step.now < s.objects[reg].deadline
    ensures step.FireStep? && Settlements(Next(s, step).1, reg) > 0 ==> step.now == s.objects[reg].deadline
  {
    var id := s.objects[reg].msgId;
    assert EntryOk(s, id);
    if Enabled(s, step) && step.FireStep? {
      assert TimerOk(s, step.timer);
      var timer := s.timers[step.timer];
      OneEvent(Settled(timer.reg, Expired), reg);
      OneEvent(Reminded(timer.reg, timer.msgId), reg);
    } else if Enabled(s, step) {
      NoReminders(s, step, reg);
    }
  }

  ghost predicate OnTime(steps: seq<Step>) {
    forall k :: 0 <= k < |steps| ==> NotOverdue(Run(steps[..k]), steps[k].now)
  }

  /** Step `i` makes registration `reg`, due at `deadline`. */
  ghost predicate Registers(steps: seq<Step>, i: nat, reg: nat, deadline: real) {
    && i < |steps| && steps[i].RegisterStep? && reg == |Run(steps[..i]).objects|
    && deadline == steps[i].now + Remaining(steps[i].expiresAt, steps[i].now)
  }

  lemma RegistrationIsDue(s: State, step: Step)
    requires Consistent(s) && step.RegisterStep?
    ensures
      var s', reg := Next(s, step).0, |s.objects|;
      reg < |s'.objects| && s'.objects[reg].deadline == step.now + Remaining(step.expiresAt, step.now)
  {}

  lemma StepKeepsDeadline(s: State, step: Step, reg: nat)
    requires Inv(s) && reg < |s.objects|
    ensures
      var s' := Next(s, step).0;
      reg < |s'.objects| && s'.objects[reg].deadline == s.objects[reg].deadline
  {
    hide Next, Inv, Settlements, Reminders, Live;
    StepAccounted(s, step, reg);
  }

  lemma {:induction false} DeadlineIsFixed(steps: seq<Step>, i: nat, k: nat, reg: nat, deadline: real)
    requires Registers(steps, i, reg, deadline) && i < k <= |steps|
    ensures reg < |Run(steps[..k]).objects| && Run(steps[..k]).objects[reg].deadline == deadline
  {
    assert steps[..k][..k - 1] == steps[..k - 1];
    RunInv(steps[..k - 1]);
    hide Next, Inv, Consistent, Remaining;
    if k == i + 1 {
      InvIsConsistent(Run(steps[..i]));
      RegistrationIsDue(Run(steps[..i]), steps[i]);
    } else {
      DeadlineIsFixed(steps, i, k - 1, reg, deadline);
      StepKeepsDeadline(Run(steps[..k - 1]), steps[k - 1], reg);
    }
  }

  /**
   Deadlines over whole runs with timers firing on time: whatever happens to a
   registration happens no later than its deadline, its reminders strictly before it,
   its expiry exactly at it; and once the deadline has passed it has been settled.
   */
  lemma EventsRespectDeadline(steps: seq<Step>, i: nat, k: nat, reg: nat, deadline: real)
    requires OnTime(steps) && Registers(steps, i, reg, deadline) && i < k < |steps|
    ensures Reminders(EventsAt(steps, k), reg) > 0 ==> steps[k].now < deadline
    ensures Settlements(EventsAt(steps, k), reg) > 0 ==>
      steps[k].now <= deadline && (steps[k].FireStep? ==> steps[k].now == deadline)
    ensures steps[k].now > deadline ==> Settlements(Trace(steps[..k]), reg) == 1
  {
    hide Next;
    var s := Run(steps[..k]);
    RunInv(steps[..k]);
    DeadlineIsFixed(steps, i, k, reg, deadline);
    StepAccounted(s, steps[k], reg);
    ExactlyOnceSettlement(steps[..k], reg);
    if Live(s, reg) { StepRespectsDeadline(s, steps[k], reg); }
  }

  lemma {:induction false} CancelAllNoReminders(s: State, order: seq<MsgId>, reason: string, reg: nat)
    requires Consistent(s)
    ensures Reminders(CancelAll(s, order, reason).1, reg) == 0
  {
    if order != [] {
      CancelAllNoReminders(s, order[..|order| - 1], reason, reg);
      var (s1, e1) := CancelAll(s, order[..|order| - 1], reason);
      var e2 := Cancel(s1, order[|order| - 1], reason).1;
      CountsAdd(e1, e2, reg);
      if e2 != [] { OneEvent(e2[0], reg); }
    }
  }

  lemma NoReminders(s: State, step: Step, reg: nat)
    requires Enabled(s, step) && !step.FireStep?
    ensures Reminders(Apply(s, step).1, reg) == 0
  {
    if step.CancelAllStep? {
      CancelAllNoReminders(s, step.order, step.reason, reg);
    } else {
      var e := Apply(s, step).1;
      assert |e| <= 1;
      if e != [] { OneEvent(e[0], reg); assert e == [e[0]]; }
    }
  }

  /** Once an id is settled, and until it is registered again, every reply to it is
      an orphan: it settles nothing and is counted as unmatched. */
  lemma {:induction false} SettledIdSeesOrphans(steps: seq<Step>, i: nat, j: nat, frame: ReplyFrame)
    requires i <= j < |steps| && steps[j].ReplyStep? && steps[j].frame == frame && frame.replyTo.Some?
    requires frame.replyTo.value !in Run(steps[..i]).entries
    requires forall k :: i <= k < j && steps[k].RegisterStep? ==> steps[k].msgId != frame.replyTo.value
    ensures EventsAt(steps, j) == []
    ensures Run(steps[..j + 1]) == Run(steps[..j]).(unmatched := Run(steps[..j]).unmatched + 1)
  {
    IdStaysAbsent(steps, i, j, frame.replyTo.value);
    RunInv(steps[..j]);
    InvIsConsistent(Run(steps[..j]));
    assert steps[..j + 1][..j] == steps[..j];
  }

  lemma InvIsConsistent(s: State)
    requires Inv(s)
    ensures Consistent(s)
  {
    forall id | id in s.entries ensures s.entries[id] < |s.objects| { assert EntryOk(s, id); }
  }

  lemma StepAddsOnlyRegistered(s: State, step: Step, id: MsgId)
    requires id !in s.entries && (step.RegisterStep? ==> step.msgId != id)
    ensures id !in Next(s, step).0.entries
  {
    if Enabled(s, step) && step.CancelAllStep? { CancelAllOnlyRemoves(s, step.order, step.reason, id); }
  }

  lemma {:induction false} IdStaysAbsent(steps: seq<Step>, i: nat, j: nat, id: MsgId)
    requires i <= j <= |steps| && id !in Run(steps[..i]).entries
    requires forall k :: i <= k < j && steps[k].RegisterStep? ==> steps[k].msgId != id
    ensures id !in Run(steps[..j]).entries
  {
    if i < j {
      IdStaysAbsent(steps, i, j - 1, id);
      assert steps[..j][..j - 1] == steps[..j - 1];
      hide Next;
      StepAddsOnlyRegistered(Run(steps[..j - 1]), steps[j - 1], id);
    }
  }

  lemma {:induction false} CancelAllOnlyRemoves(s: State, order: seq<MsgId>, reason: string, id: MsgId)
    requires Consistent(s) && id !in s.entries
    ensures id !in CancelAll(s, order, reason).0.entries
  {
    if order != [] { CancelAllOnlyRemoves(s, order[..|order| - 1], reason, id); }
  }
}
