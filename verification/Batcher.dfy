/**
 The inbound batcher: frames arriving in a burst are held and injected as one
 batch, after a short window, or, while the agent is busy, when it turns idle or
 a maximum hold elapses. Timers are due times; the environment fires them.
 */
module Batcher {
  import opened Common

  /** A held frame with the time it was pushed. */
  datatype Held = Held(frame: Msg, pushedAt: int)

  datatype Config = Config(windowMs: nat, maxHoldMs: nat)

  datatype State = State(frames: seq<Held>, timer: Option<int>, maxTimer: Option<int>)

  predicate IsUrgent(h: Held) { h.frame.priority == Some(Urgent) }

  predicate HasUrgent(frames: seq<Held>) { exists i :: 0 <= i < |frames| && IsUrgent(frames[i]) }

  function Pushed(s: State, cfg: Config, h: Held): State {
    State(s.frames + [h],
          if s.timer.None? && cfg.windowMs > 0 then Some(h.pushedAt + cfg.windowMs) else s.timer,
          s.maxTimer)
  }

  function Flushed(s: State): (State, seq<Held>) { (State([], None, None), s.frames) }

  function WindowElapsed(s: State, cfg: Config, now: int, busy: bool): (State, seq<Held>) {
    if s.frames == [] then (s.(timer := None), [])
    else if busy && !HasUrgent(s.frames) then
      (State(s.frames, None, if s.maxTimer.None? then Some(now + cfg.maxHoldMs) else s.maxTimer), [])
    else Flushed(s)
  }

  class InboundBatcher {
    const cfg: Config
    var frames: seq<Held>
    var timer: Option<int>
    var maxTimer: Option<int>

    ghost function View(): State
      reads this
    {
      State(frames, timer, maxTimer)
    }

    constructor (cfg: Config)
      ensures View() == EMPTY && this.cfg == cfg
    {
      this.cfg := cfg;
      frames, timer, maxTimer := [], None, None;
    }

    method Push(frame: Msg, now: int)
      modifies this
      ensures View() == Pushed(old(View()), cfg, Held(frame, now))
    {
      frames := frames + [Held(frame, now)];
      if timer.None? && cfg.windowMs > 0 {
        timer := Some(now + cfg.windowMs);
      }
    }

    method OnWindow(now: int, busy: bool) returns (batch: seq<Held>)
      modifies this
      ensures (View(), batch) == WindowElapsed(old(View()), cfg, now, busy)
    {
      timer := None;
      batch := [];
      if |frames| == 0 { return; }
      var hasUrgent := exists i :: 0 <= i < |frames| && IsUrgent(frames[i]);
      if busy && !hasUrgent {
        if maxTimer.None? { maxTimer := Some(now + cfg.maxHoldMs); }
        return;
      }
      batch := FlushNow();
    }

    method FlushNow() returns (batch: seq<Held>)
      modifies this
      ensures (View(), batch) == Flushed(old(View()))
    {
      if timer.Some? { timer := None; }
      if maxTimer.Some? { maxTimer := None; }
      batch := frames;
      if |frames| == 0 { return; }
      frames := [];
    }
  }

  // ---- runs ----

  datatype Step =
    | PushStep(frame: Msg, now: int)
    | WindowStep(now: int, busy: bool)
    | MaxHoldStep(now: int)
    | FlushStep(now: int)

  const EMPTY := State([], None, None)

  function Apply(s: State, cfg: Config, step: Step): (State, seq<Held>) {
    match step
    case PushStep(frame, now) => (Pushed(s, cfg, Held(frame, now)), [])
    case WindowStep(now, busy) => WindowElapsed(s, cfg, now, busy)
    case MaxHoldStep(_) => Flushed(s)
    case FlushStep(_) => Flushed(s)
  }

  function Run(cfg: Config, steps: seq<Step>): State {
    if steps == [] then EMPTY else Apply(Run(cfg, steps[..|steps| - 1]), cfg, steps[|steps| - 1]).0
  }

  function BatchAt(cfg: Config, steps: seq<Step>, k: nat): seq<Held>
    requires k < |steps|
  {
    Apply(Run(cfg, steps[..k]), cfg, steps[k]).1
  }

  /** The concatenation of all batches of the run. */
  function Batches(cfg: Config, steps: seq<Step>): seq<Held> {
    if steps == [] then []
    else Batches(cfg, steps[..|steps| - 1]) + Apply(Run(cfg, steps[..|steps| - 1]), cfg, steps[|steps| - 1]).1
  }

  function PushedIn(steps: seq<Step>): seq<Held> {
    if steps == [] then []
    else
      PushedIn(steps[..|steps| - 1]) + AddedBy(steps[|steps| - 1])
  }

  /** A timer step needs its timer to be armed and due. */
  predicate Enabled(s: State, step: Step) {
    match step
    case WindowStep(now, _) => s.timer.Some? && s.timer.value <= now
    case MaxHoldStep(now) => s.maxTimer.Some? && s.maxTimer.value <= now
    case _ => true
  }

  predicate NotOverdue(s: State, now: int) {
    (s.timer.Some? ==> now <= s.timer.value) && (s.maxTimer.Some? ==> now <= s.maxTimer.value)
  }

  predicate Possible(cfg: Config, steps: seq<Step>) {
    && (forall k :: 0 <= k < |steps| ==> Enabled(Run(cfg, steps[..k]), steps[k]))
    && forall i, j :: 0 <= i < j < |steps| ==> steps[i].now <= steps[j].now
  }

  /** Timers fire on time: nothing happens while a timer is overdue. */
  predicate OnTime(cfg: Config, steps: seq<Step>) {
    forall k :: 0 <= k < |steps| ==> NotOverdue(Run(cfg, steps[..k]), steps[k].now)
  }

  /** Nothing is lost, duplicated or reordered: the batches followed by what is
      still held are exactly the pushed frames, in every run. */
  lemma {:induction false} LosesNothing(cfg: Config, steps: seq<Step>)
    ensures Batches(cfg, steps) + Run(cfg, steps).frames == PushedIn(steps)
  {
    if steps != [] {
      var front, last := steps[..|steps| - 1], steps[|steps| - 1];
      LosesNothing(cfg, front);
      hide Apply;
      StepLosesNothing(Run(cfg, front), cfg, last);
      var (s', batch) := Apply(Run(cfg, front), cfg, last);
      Regroup(Batches(cfg, front), Run(cfg, front).frames, AddedBy(last), batch, s'.frames);
    }
  }

  function AddedBy(step: Step): seq<Held> { if step.PushStep? then [Held(step.frame, step.now)] else [] }

  lemma StepLosesNothing(s: State, cfg: Config, step: Step)
    ensures var (s', batch) := Apply(s, cfg, step); batch + s'.frames == s.frames + AddedBy(step)
  {}

  lemma Regroup(done: seq<Held>, held: seq<Held>, added: seq<Held>, batch: seq<Held>, held': seq<Held>)
    requires batch + held' == held + added
    ensures done + batch + held' == done + held + added
  {
    assert done + batch + held' == done + (batch + held');
    assert done + held + added == done + (held + added);
  }

  /** When the window elapses, everything held is flushed if the agent is idle or an urgent message
      is held, and nothing otherwise. */
  lemma WindowDecides(cfg: Config, steps: seq<Step>, k: nat)
    requires k < |steps| && steps[k].WindowStep?
    ensures
      var held, left := Run(cfg, steps[..k]).frames, Run(cfg, steps[..k + 1]).frames;
      if !steps[k].busy || exists i :: 0 <= i < |held| && held[i].frame.priority == Some(Urgent)
      then BatchAt(cfg, steps, k) == held && left == []
      else BatchAt(cfg, steps, k) == [] && left == held
  {
    assert steps[..k + 1][..k] == steps[..k];
    var s := Run(cfg, steps[..k]);
    assert forall i :: 0 <= i < |s.frames| ==> (IsUrgent(s.frames[i]) <==> s.frames[i].frame.priority == Some(Urgent));
  }

  /** In every run, held frames have an armed timer exactly when the window is positive. */
  lemma {:induction false} HeldFramesHaveTimer(cfg: Config, steps: seq<Step>)
    requires Possible(cfg, steps)
    ensures TimerIffHeld(Run(cfg, steps), cfg)
  {
    if steps != [] {
      hide Apply;
      var n := |steps| - 1;
      PrefixPossible(cfg, steps, n);
      HeldFramesHaveTimer(cfg, steps[..n]);
      StepKeepsTimer(Run(cfg, steps[..n]), cfg, steps[n]);
    }
  }

  ghost predicate TimerIffHeld(s: State, cfg: Config) {
    s.timer.Some? || s.maxTimer.Some? <==> s.frames != [] && cfg.windowMs > 0
  }

  lemma StepKeepsTimer(s: State, cfg: Config, step: Step)
    requires TimerIffHeld(s, cfg) && Enabled(s, step)
    ensures TimerIffHeld(Apply(s, cfg, step).0, cfg)
  {}

  lemma {:induction false} PrefixPossible(cfg: Config, steps: seq<Step>, n: nat)
    requires n <= |steps| && Possible(cfg, steps)
    ensures Possible(cfg, steps[..n]) && (OnTime(cfg, steps) ==> OnTime(cfg, steps[..n]))
  {
    assert forall k :: 0 <= k < n ==> steps[..n][..k] == steps[..k];
  }

  /** Every held frame has a timer that is due early enough to respect its deadline. */
  ghost predicate Covered(s: State, cfg: Config, now: int) {
    && (s.timer.Some? ==> s.timer.value <= now + cfg.windowMs)
    && (s.maxTimer.Some? ==> s.maxTimer.value <= now + cfg.maxHoldMs)
    && forall i :: 0 <= i < |s.frames| ==>
         || (s.timer.Some? && s.timer.value <= s.frames[i].pushedAt + cfg.windowMs)
         || (s.maxTimer.Some? && s.maxTimer.value <= s.frames[i].pushedAt + cfg.windowMs + cfg.maxHoldMs)
  }

  lemma StepKeepsCovered(s: State, cfg: Config, step: Step, now: int)
    requires cfg.windowMs > 0 && Covered(s, cfg, now) && now <= step.now
    requires Enabled(s, step) && NotOverdue(s, step.now)
    ensures Covered(Apply(s, cfg, step).0, cfg, step.now)
    ensures forall i :: 0 <= i < |s.frames| ==> step.now <= s.frames[i].pushedAt + cfg.windowMs + cfg.maxHoldMs
  {}

  lemma {:induction false} RunCovered(cfg: Config, steps: seq<Step>)
    requires cfg.windowMs > 0 && Possible(cfg, steps) && OnTime(cfg, steps) && steps != []
    ensures Covered(Run(cfg, steps), cfg, steps[|steps| - 1].now)
  {
    var n := |steps| - 1;
    PrefixPossible(cfg, steps, n);
    if n > 0 {
      RunCovered(cfg, steps[..n]);
      StepKeepsCovered(Run(cfg, steps[..n]), cfg, steps[n], steps[n - 1].now);
    } else {
      StepKeepsCovered(EMPTY, cfg, steps[0], steps[0].now);
    }
  }

  /** With a positive window and timers firing on time, whatever the busy signal
      says, no frame held or flushed when something happens is older than
      windowMs + maxHoldMs. */
  lemma NothingHeldIsOld(cfg: Config, steps: seq<Step>, k: nat)
    requires cfg.windowMs > 0 && Possible(cfg, steps) && OnTime(cfg, steps) && k < |steps|
    ensures forall h :: h in Run(cfg, steps[..k]).frames || h in BatchAt(cfg, steps, k) ==>
      steps[k].now <= h.pushedAt + cfg.windowMs + cfg.maxHoldMs
  {
    if k > 0 {
      PrefixPossible(cfg, steps, k);
      RunCovered(cfg, steps[..k]);
      var s := Run(cfg, steps[..k]);
      StepKeepsCovered(s, cfg, steps[k], steps[k - 1].now);
      assert forall h :: h in s.frames ==> exists i :: 0 <= i < |s.frames| && s.frames[i] == h;
    }
  }

  lemma {:induction false} PushesAreRecorded(steps: seq<Step>, i: nat)
    requires i < |steps| && steps[i].PushStep?
    ensures Held(steps[i].frame, steps[i].now) in PushedIn(steps)
  {
    var n := |steps| - 1;
    assert steps == steps[..n] + [steps[n]];
    if i < n {
      PushesAreRecorded(steps[..n], i);
    } else {
      assert AddedBy(steps[n])[0] == Held(steps[i].frame, steps[i].now);
    }
  }

  /**
   Bounded wait: a frame pushed at step `i` has been flushed before anything happens
   later than windowMs + maxHoldMs after its push, whatever the busy signal says.
   */
  lemma FlushedInTime(cfg: Config, steps: seq<Step>, i: nat, k: nat)
    requires cfg.windowMs > 0 && Possible(cfg, steps) && OnTime(cfg, steps)
    requires i < k < |steps| && steps[i].PushStep? && steps[k].now > steps[i].now + cfg.windowMs + cfg.maxHoldMs
    ensures Held(steps[i].frame, steps[i].now) in Batches(cfg, steps[..k])
  {
    var h := Held(steps[i].frame, steps[i].now);
    PushesAreRecorded(steps[..k], i);
    LosesNothing(cfg, steps[..k]);
    NothingHeldIsOld(cfg, steps, k);
    assert h in Batches(cfg, steps[..k]) + Run(cfg, steps[..k]).frames;
  }
}
