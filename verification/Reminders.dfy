/**
 When an awaited reply is called to mind: once after half of the time it was given and once after
 three quarters of it, as long as it is awaited.
 */
module Reminders {
  import opened Common
  import opened Pending

  /** The two reminders of registration `reg` are timers `n` and `n + 1`; what has fired has been counted. */
  ghost predicate Scheduled(s: State, reg: nat, n: nat, half: real, late: real) {
    Live(s, reg) ==>
      && (n in s.timers ==> s.timers[n] == Timer(s.objects[reg].msgId, reg, RemindTimer, half))
      && (n + 1 in s.timers ==> s.timers[n + 1] == Timer(s.objects[reg].msgId, reg, RemindTimer, late))
      && s.objects[reg].reminds == {n, n + 1}
      && s.objects[reg].remindCount == (if n in s.timers then 0 else 1) + if n + 1 in s.timers then 0 else 1
  }

  lemma SettleKeepsScheduled(s: State, id: MsgId, r: Resolution, reg: nat, n: nat, half: real, late: real)
    requires Inv(s) && Scheduled(s, reg, n, half, late) && reg < |s.objects|
    ensures Scheduled(Settle(s, id, r).0, reg, n, half, late)
  {
    if id in s.entries {
      assert EntryOk(s, id) && ObjectOk(s, s.entries[id]);
      if Live(s, reg) && s.entries[id] != reg { assert ObjectOk(s, reg); }
    }
  }

  lemma EnterKeepsScheduled(s: State, id: MsgId, total: real, launch: bool, now: real, reg: nat, n: nat, half: real,
      late: real)
    requires Inv(s) && Scheduled(s, reg, n, half, late) && reg < |s.objects| && n + 1 < s.nextTimer
    ensures Scheduled(Enter(s, id, total, launch, now), reg, n, half, late)
  {}

  lemma FireKeepsScheduled(s: State, t: nat, reg: nat, n: nat, half: real, late: real)
    requires Inv(s) && t in s.timers && Scheduled(s, reg, n, half, late) && reg < |s.objects|
    ensures Scheduled(Fire(s, t).0, reg, n, half, late)
  {
    assert TimerOk(s, t);
    var timer := s.timers[t];
    assert EntryOk(s, timer.msgId) && ObjectOk(s, timer.reg) && ObjectOk(s, reg);
    hide Inv;
  }

  lemma {:induction false} CancelAllKeepsScheduled(s: State, order: seq<MsgId>, reason: string, reg: nat, n: nat,
      half: real, late: real)
    requires Inv(s) && Scheduled(s, reg, n, half, late) && reg < |s.objects|
    ensures Scheduled(CancelAll(s, order, reason).0, reg, n, half, late)
      && |CancelAll(s, order, reason).0.objects| == |s.objects|
  {
    if order != [] {
      hide Inv, Scheduled, Settle;
      var front := order[..|order| - 1];
      CancelAllKeepsScheduled(s, front, reason, reg, n, half, late);
      CancelAllKeepsInv(s, front, reason);
      CancelAllAccounted(s, order, reason, reg);
      SettleKeepsScheduled(CancelAll(s, front, reason).0, order[|order| - 1], Failed(reason), reg, n, half, late);
    }
  }

  lemma StepKeepsScheduled(s: State, step: Step, reg: nat, n: nat, half: real, late: real)
    requires Inv(s) && Scheduled(s, reg, n, half, late) && reg < |s.objects| && n + 1 < s.nextTimer
    ensures Scheduled(Next(s, step).0, reg, n, half, late)
  {
    hide Inv, Scheduled, Settle, Enter, Fire, CancelAll;
    if Enabled(s, step) {
      match step {
        case RegisterStep(id, expiresAt, launch, now) =>
          var r := Failed("superseded");
          SettleKeepsScheduled(s, id, r, reg, n, half, late);
          SettleKeepsInv(s, id, r);
          SettleMakesNothing(s, id, r);
          EnterKeepsScheduled(Settle(s, id, r).0, id, Remaining(expiresAt, now), launch, now, reg, n, half, late);
        case ReplyStep(frame, _) =>
          if frame.replyTo.Some? && frame.replyTo.value in s.entries {
            SettleKeepsScheduled(s, frame.replyTo.value, Answered(frame), reg, n, half, late);
          } else {
            CountedKeepsScheduled(s, reg, n, half, late);
          }
        case CancelStep(id, reason, _) => SettleKeepsScheduled(s, id, Failed(reason), reg, n, half, late);
        case CancelAllStep(order, reason, _) => CancelAllKeepsScheduled(s, order, reason, reg, n, half, late);
        case FireStep(t, _) => FireKeepsScheduled(s, t, reg, n, half, late);
      }
    }
  }

  lemma SettleMakesNothing(s: State, id: MsgId, r: Resolution)
    requires Consistent(s)
    ensures |Settle(s, id, r).0.objects| == |s.objects| && Settle(s, id, r).0.nextTimer == s.nextTimer
  {}

  lemma CountedKeepsScheduled(s: State, reg: nat, n: nat, half: real, late: real)
    requires Scheduled(s, reg, n, half, late)
    ensures Scheduled(s.(unmatched := s.unmatched + 1), reg, n, half, late)
  {}

  lemma EnterSchedules(s: State, id: MsgId, total: real, launch: bool, now: real)
    requires total > 0.0
    ensures
      var s' := Enter(s, id, total, launch, now);
      && Scheduled(s', |s.objects|, s.nextTimer, now + total * 0.5, now + total * 0.75)
      && s.nextTimer + 1 < s'.nextTimer && |s'.objects| == |s.objects| + 1
  {}

  lemma {:induction false} TimersGrow(s: State, step: Step)
    requires Inv(s)
    ensures Next(s, step).0.nextTimer >= s.nextTimer
  {
    hide Inv;
    if Enabled(s, step) && step.CancelAllStep? { CancelAllKeepsCount(s, step.order, step.reason); }
  }

  lemma {:induction false} CancelAllKeepsCount(s: State, order: seq<MsgId>, reason: string)
    requires Consistent(s)
    ensures CancelAll(s, order, reason).0.nextTimer == s.nextTimer
  {
    if order != [] { CancelAllKeepsCount(s, order[..|order| - 1], reason); }
  }

  /** In every run the reminders of a registration are due at half and at three quarters of its time. */
  lemma {:induction false} RunIsScheduled(steps: seq<Step>, i: nat, k: nat, reg: nat, deadline: real)
    requires Registers(steps, i, reg, deadline) && i < k <= |steps| && deadline > steps[i].now
    ensures
      var n, total := Run(steps[..i]).nextTimer, deadline - steps[i].now;
      && Scheduled(Run(steps[..k]), reg, n, steps[i].now + total * 0.5, steps[i].now + total * 0.75)
      && reg < |Run(steps[..k]).objects| && n + 1 < Run(steps[..k]).nextTimer
  {
    assert steps[..k][..k - 1] == steps[..k - 1];
    var s, step, n, total := Run(steps[..k - 1]), steps[k - 1], Run(steps[..i]).nextTimer, deadline - steps[i].now;
    RunInv(steps[..k - 1]);
    DeadlineIsFixed(steps, i, k, reg, deadline);
    if k == i + 1 {
      InvIsConsistent(s);
      hide Inv, Scheduled, Settle, Enter;
      SettleMakesNothing(s, step.msgId, Failed("superseded"));
      EnterSchedules(Settle(s, step.msgId, Failed("superseded")).0, step.msgId, total, step.launch, step.now);
    } else {
      RunIsScheduled(steps, i, k - 1, reg, deadline);
      TimersGrow(s, step);
      hide Inv, Next, Scheduled;
      StepKeepsScheduled(s, step, reg, n, steps[i].now + total * 0.5, steps[i].now + total * 0.75);
    }
  }

  lemma ReminderIsFired(s: State, step: Step, reg: nat, n: nat, half: real, late: real)
    requires Inv(s) && Live(s, reg) && Scheduled(s, reg, n, half, late) && NotOverdue(s, step.now)
    requires Pending.Reminders(Next(s, step).1, reg) > 0
    ensures step.now == half || step.now == late
  {
    if Enabled(s, step) && !step.FireStep? { NoReminders(s, step, reg); }
    if Enabled(s, step) && step.FireStep? {
      assert TimerOk(s, step.timer);
      var timer := s.timers[step.timer];
      OneEvent(Settled(timer.reg, Expired), reg);
      OneEvent(Reminded(timer.reg, timer.msgId), reg);
    }
  }

  lemma OnTimeAt(steps: seq<Step>, k: nat)
    requires OnTime(steps) && k < |steps|
    ensures NotOverdue(Run(steps[..k]), steps[k].now)
  {}

  lemma CountIsRemembered(steps: seq<Step>, reg: nat)
    requires Live(Run(steps), reg)
    ensures reg < |Run(steps).objects| && Pending.Reminders(Trace(steps), reg) == Run(steps).objects[reg].remindCount
  {
    ExactlyOnceSettlement(steps, reg);
  }

  lemma StepAccountedAt(steps: seq<Step>, k: nat, reg: nat)
    requires k < |steps| && Inv(Run(steps[..k]))
    ensures EventsAt(steps, k) == Next(Run(steps[..k]), steps[k]).1
    ensures !Live(Run(steps[..k]), reg) ==> Pending.Reminders(EventsAt(steps, k), reg) == 0
  {
    StepAccounted(Run(steps[..k]), steps[k], reg);
    hide Next;
  }

  lemma CountedInTime(s: State, reg: nat, n: nat, half: real, late: real, now: real)
    requires Live(s, reg) && Scheduled(s, reg, n, half, late) && NotOverdue(s, now) && half < late
    ensures now > half ==> s.objects[reg].remindCount >= 1
    ensures now > late ==> s.objects[reg].remindCount == 2
  {}

  /**
   Reminders over whole runs with timers on time: a registration that is given some time reminds only when
   half and when three quarters of it have passed; and while it is awaited it has reminded at least once
   after the half and twice after the three quarters.
   */
  lemma RemindersComeInTime(steps: seq<Step>, i: nat, k: nat, reg: nat, deadline: real)
    requires OnTime(steps) && Registers(steps, i, reg, deadline) && i < k < |steps| && deadline > steps[i].now
    ensures
      var since, total := steps[k].now - steps[i].now, deadline - steps[i].now;
      && (Pending.Reminders(EventsAt(steps, k), reg) > 0 ==> since == total / 2.0 || since == total * 3.0 / 4.0)
      && (Live(Run(steps[..k]), reg) && since > total / 2.0 ==> Pending.Reminders(Trace(steps[..k]), reg) >= 1)
      && (Live(Run(steps[..k]), reg) && since > total * 3.0 / 4.0 ==> Pending.Reminders(Trace(steps[..k]), reg) == 2)
  {
    hide *;
    var s, n, total := Run(steps[..k]), Run(steps[..i]).nextTimer, deadline - steps[i].now;
    var half, late := steps[i].now + total * 0.5, steps[i].now + total * 0.75;
    RunIsScheduled(steps, i, k, reg, deadline);
    RunInv(steps[..k]);
    StepAccountedAt(steps, k, reg);
    OnTimeAt(steps, k);
    if Live(s, reg) {
      CountedInTime(s, reg, n, half, late, steps[k].now);
      CountIsRemembered(steps[..k], reg);
      if Pending.Reminders(EventsAt(steps, k), reg) > 0 { ReminderIsFired(s, steps[k], reg, n, half, late); }
    }
  }
}
