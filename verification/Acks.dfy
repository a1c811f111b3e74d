/**
 Acknowledgements of control frames, exactly: for how long the broker waits for one, and
 which ones it relays.
 */
module Acks {
  import opened Common
  import opened RateLimit
  import opened Policy
  import opened Rooms
  import opened Broker
  import opened Routing
  import opened Membership
  import opened Outcomes
  import opened Honesty
  import opened Control
  import opened Governance

  /** The step makes the broker stop waiting for the acknowledgement of `id`, requested at `since`: a new control
      frame under that id; any control frame a minute later; the acknowledgement; or the failure of its write. */
  ghost predicate Clears(s: State, cfg: BrokerConfig, step: Step, id: MsgId, since: int) {
    || (Accepting(s, cfg, step) && (step.frame.ctl.id == id || step.now - since > 60000))
    || (Acking(s, step) && step.frame.ack.replyTo == Some(id))
    || (step.CtlWriteDone? && !step.ok && step.n in s.ctlWrites && s.ctlWrites[step.n].ctl.id == id)
  }

  lemma RefusedKeepsPending(s: State, cfg: BrokerConfig, c: Ctl, now: int)
    requires c.from in s.tables.peers && s.tables.peers[c.from].alias == c.from && !PassesGates(s, cfg, c, now)
    ensures HandleCtl(s, cfg, s.tables.peers[c.from], c, now).0.pendingCtl == s.pendingCtl
  {
    hide Check, EvaluatePolicy, LivePending;
  }

  lemma FrameKeepsPending(s: State, cfg: BrokerConfig, step: Step)
    requires Agree(s.tables, cfg.maxRooms) && step.Deliver? && !Accepting(s, cfg, step) && !Acking(s, step)
    ensures Next(s, cfg, step).0.pendingCtl == s.pendingCtl
  {
    DeliveryIsDispatch(s, cfg, step);
    var sock, f, now := step.sock, step.frame, step.now;
    if Authed(s, sock, f) { AliasIsKey(s.tables, cfg.maxRooms, f.From().value); }
    hide Agree, Next, Dispatch, PassesGates;
    if f.HelloFrame? {
      HelloFrameKeepsPending(s, cfg, sock, f.hello, now);
    } else if f.MsgFrame? {
      MsgFrameKeepsPending(s, cfg, sock, f.msg, now);
    } else if f.CtlFrame? {
      CtlFrameKeepsPending(s, cfg, sock, f.ctl, now);
    } else {
      OtherFrameKeepsPending(s, cfg, sock, f, now);
    }
  }

  lemma HelloFrameKeepsPending(s: State, cfg: BrokerConfig, sock: Sock, h: Hello, now: int)
    ensures Dispatch(s, cfg, sock, HelloFrame(h), now).0.pendingCtl == s.pendingCtl
  {
    hide HandleHello;
    HelloFrameRule(s, cfg, sock, h, now);
  }

  lemma MsgFrameKeepsPending(s: State, cfg: BrokerConfig, sock: Sock, m: Msg, now: int)
    requires Agree(s.tables, cfg.maxRooms)
    ensures Dispatch(s, cfg, sock, MsgFrame(m), now).0.pendingCtl == s.pendingCtl
  {
    hide RouteMsg, Agree;
    if m.from in s.tables.peers { MsgFrameRule(s, cfg, s.tables.peers[m.from], m, now); }
  }

  lemma CtlFrameKeepsPending(s: State, cfg: BrokerConfig, sock: Sock, c: Ctl, now: int)
    requires Authed(s, sock, CtlFrame(c)) ==> s.tables.peers[c.from].alias == c.from && !PassesGates(s, cfg, c, now)
    ensures Dispatch(s, cfg, sock, CtlFrame(c), now).0.pendingCtl == s.pendingCtl
  {
    hide HandleCtl, PassesGates;
    if Authed(s, sock, CtlFrame(c)) { RefusedKeepsPending(s, cfg, c, now); }
  }

  lemma OtherFrameKeepsPending(s: State, cfg: BrokerConfig, sock: Sock, f: Frame, now: int)
    requires !f.HelloFrame? && !f.MsgFrame? && !f.CtlFrame? && !Acking(s, Deliver(sock, f, now))
    requires Authed(s, sock, f) ==> s.tables.peers[f.From().value].alias == f.From().value
    ensures Dispatch(s, cfg, sock, f, now).0.pendingCtl == s.pendingCtl
  {
    hide Join, Leave;
  }

  lemma OutcomeOfControl(s: State, n: nat, ok: bool)
    requires n in s.ctlWrites
    ensures CtlDone(s, n, ok).0.pendingCtl
         == if ok then s.pendingCtl else s.pendingCtl - {s.ctlWrites[n].ctl.id}
  {
    hide CloseRef;
    var w := s.ctlWrites[n];
    CloseRefFrame(s.(ctlWrites := s.ctlWrites - {n}, pendingCtl := s.pendingCtl - {w.ctl.id}), w.target);
  }

  lemma EnvironmentKeepsPending(s: State, cfg: BrokerConfig, step: Step)
    requires !step.Deliver?
    ensures Next(s, cfg, step).0.pendingCtl
         == if step.CtlWriteDone? && !step.ok && step.n in s.ctlWrites then
              s.pendingCtl - {s.ctlWrites[step.n].ctl.id}
            else s.pendingCtl
  {
    EnvironmentFrame(s, cfg, step);
    if step.CtlWriteDone? && step.n in s.ctlWrites {
      OutcomeOfControl(s, step.n, step.ok);
      ControlOutcomeIs(s, cfg, step);
    }
    hide Next;
  }

  lemma ControlOutcomeIs(s: State, cfg: BrokerConfig, step: Step)
    requires step.CtlWriteDone? && step.n in s.ctlWrites
    ensures Next(s, cfg, step) == CtlDone(s, step.n, step.ok)
  {
    hide CtlDone;
  }

  /** What one step does to what is waited for under `id`. */
  lemma StepPending(s: State, cfg: BrokerConfig, step: Step, id: MsgId)
    requires Agree(s.tables, cfg.maxRooms)
    ensures
      var pending := Next(s, cfg, step).0.pendingCtl;
      if Accepting(s, cfg, step) && step.frame.ctl.id == id then
        id in pending && pending[id] == PendingOf(step.frame.ctl, step.now)
      else if id in s.pendingCtl && !Clears(s, cfg, step, id, s.pendingCtl[id].at) then
        id in pending && pending[id] == s.pendingCtl[id]
      else id !in pending
  {
    hide Agree, Next, PassesGates;
    if Accepting(s, cfg, step) {
      AcceptStep(s, cfg, step);
    } else if Acking(s, step) {
      AckStep(s, cfg, step);
    } else if step.Deliver? {
      FrameKeepsPending(s, cfg, step);
    } else {
      EnvironmentKeepsPending(s, cfg, step);
    }
  }

  /** After `n` steps the broker still waits for the acknowledgement of the control frame accepted at step `j`. */
  ghost predicate Awaits(cfg: BrokerConfig, steps: seq<Step>, n: nat, j: nat, id: MsgId) {
    && j < n <= |steps| && Accepting(Run(cfg, steps[..j]), cfg, steps[j]) && steps[j].frame.ctl.id == id
    && forall i :: j < i < n ==> !Clears(Run(cfg, steps[..i]), cfg, steps[i], id, steps[j].now)
  }

  lemma AwaitsOneMore(cfg: BrokerConfig, steps: seq<Step>, n: nat, j: nat, id: MsgId)
    requires 0 < n <= |steps|
    ensures Awaits(cfg, steps, n, j, id) <==>
      if j == n - 1 then Accepting(Run(cfg, steps[..j]), cfg, steps[j]) && steps[j].frame.ctl.id == id
      else Awaits(cfg, steps, n - 1, j, id) && !Clears(Run(cfg, steps[..n - 1]), cfg, steps[n - 1], id, steps[j].now)
  {
    if j < n - 1 && Awaits(cfg, steps, n, j, id) {
      var i := n - 1;
      assert steps[j].Deliver?;
      hide Accepting, Clears, Run;
      assert !Clears(Run(cfg, steps[..i]), cfg, steps[i], id, steps[j].now);
    }
  }

  lemma NewControlClears(s: State, cfg: BrokerConfig, step: Step, since: int)
    requires Accepting(s, cfg, step)
    ensures Clears(s, cfg, step, step.frame.ctl.id, since)
  {}

  /** The acknowledgement awaited under `id` after `n` steps is that of the control frame of step `j`. */
  ghost predicate IsPending(cfg: BrokerConfig, steps: seq<Step>, n: nat, j: nat, id: MsgId) {
    && j < n <= |steps| && steps[j].Deliver? && steps[j].frame.CtlFrame? && steps[j].frame.ctl.to.Some?
    && var pending := Run(cfg, steps[..n]).pendingCtl;
    id in pending && pending[id] == PendingOf(steps[j].frame.ctl, steps[j].now)
  }

  lemma StaysPending(s: State, cfg: BrokerConfig, step: Step, id: MsgId)
    requires Agree(s.tables, cfg.maxRooms) && id in s.pendingCtl && !Clears(s, cfg, step, id, s.pendingCtl[id].at)
    ensures
      var pending := Next(s, cfg, step).0.pendingCtl;
      id in pending && pending[id] == s.pendingCtl[id]
  {
    if Accepting(s, cfg, step) { NewControlClears(s, cfg, step, s.pendingCtl[id].at); }
    hide Agree, Next, Clears, Accepting;
    StepPending(s, cfg, step, id);
  }

  lemma AcceptedIsPending(cfg: BrokerConfig, steps: seq<Step>, j: nat)
    requires j < |steps| && Accepting(Run(cfg, steps[..j]), cfg, steps[j])
    ensures IsPending(cfg, steps, j + 1, j, steps[j].frame.ctl.id)
  {
    hide Agree, Run, Next, Accepting, Clears;
    AcceptingHasTarget(Run(cfg, steps[..j]), cfg, steps[j]);
    RunAgrees(cfg, steps[..j]);
    assert steps[..j + 1][..j] == steps[..j];
    RunUnfolds(cfg, steps[..j + 1]);
    StepPending(Run(cfg, steps[..j]), cfg, steps[j], steps[j].frame.ctl.id);
  }

  lemma AcceptingHasTarget(s: State, cfg: BrokerConfig, step: Step)
    requires Accepting(s, cfg, step)
    ensures step.Deliver? && step.frame.CtlFrame? && step.frame.ctl.to.Some?
  {}

  lemma PendingStays(cfg: BrokerConfig, steps: seq<Step>, n: nat, j: nat, id: MsgId)
    requires 0 < n <= |steps| && IsPending(cfg, steps, n - 1, j, id)
    requires !Clears(Run(cfg, steps[..n - 1]), cfg, steps[n - 1], id, steps[j].now)
    ensures IsPending(cfg, steps, n, j, id)
  {
    hide Agree, Run, Next, Clears;
    RunAgrees(cfg, steps[..n - 1]);
    assert steps[..n][..n - 1] == steps[..n - 1];
    RunUnfolds(cfg, steps[..n]);
    StaysPending(Run(cfg, steps[..n - 1]), cfg, steps[n - 1], id);
  }

  lemma AwaitedHasTime(cfg: BrokerConfig, steps: seq<Step>, n: nat, j: nat, id: MsgId)
    requires Awaits(cfg, steps, n, j, id)
    ensures j < n <= |steps| && steps[j].Deliver? && steps[j].frame.CtlFrame? && steps[j].frame.ctl.id == id
    ensures Accepting(Run(cfg, steps[..j]), cfg, steps[j])
  {
    hide Run;
  }

  lemma {:induction false} AwaitedIsPending(cfg: BrokerConfig, steps: seq<Step>, n: nat, j: nat, id: MsgId)
    requires Awaits(cfg, steps, n, j, id)
    ensures IsPending(cfg, steps, n, j, id)
  {
    hide Accepting, Awaits, Run, Clears, IsPending;
    AwaitedHasTime(cfg, steps, n, j, id);
    AwaitsOneMore(cfg, steps, n, j, id);
    if j == n - 1 {
      AcceptedIsPending(cfg, steps, j);
    } else {
      AwaitedIsPending(cfg, steps, n - 1, j, id);
      PendingStays(cfg, steps, n, j, id);
    }
  }

  lemma {:induction false} PendingIsAwaited(cfg: BrokerConfig, steps: seq<Step>, n: nat, id: MsgId) returns (j: nat)
    requires n <= |steps| && id in Run(cfg, steps[..n]).pendingCtl
    ensures Awaits(cfg, steps, n, j, id)
    ensures Run(cfg, steps[..n]).pendingCtl[id] == PendingOf(steps[j].frame.ctl, steps[j].now)
  {
    if n == 0 {
      assert false;
    } else {
      var s, step := Run(cfg, steps[..n - 1]), steps[n - 1];
      RunAgrees(cfg, steps[..n - 1]);
      assert steps[..n][..n - 1] == steps[..n - 1];
      RunUnfolds(cfg, steps[..n]);
      hide Agree, Next, Run, PassesGates, Clears;
      StepPending(s, cfg, step, id);
      if Accepting(s, cfg, step) && step.frame.ctl.id == id {
        j := n - 1;
      } else {
        j := PendingIsAwaited(cfg, steps, n - 1, id);
      }
      AwaitsOneMore(cfg, steps, n, j, id);
    }
  }

  /** Step `k` brings an acknowledgement of the control frame accepted at step `j`, from its target on its own
      connection, to its sender, for its action. */
  ghost predicate Acknowledges(cfg: BrokerConfig, steps: seq<Step>, k: nat, j: nat, ack: CtlAck)
    requires k < |steps|
  {
    && j < k && steps[j].Deliver? && steps[j].frame.CtlFrame?
    && steps[k].Deliver? && steps[k].frame == CtlAckFrame(ack)
    && Authed(Run(cfg, steps[..k]), steps[k].sock, steps[k].frame)
    && var c := steps[j].frame.ctl;
    && ack.replyTo == Some(c.id) && c.to == Some(ack.from) && ack.to == Some(c.from)
    && GetOr(ack.action, "") == GetOr(c.action, "")
    && Awaits(cfg, steps, k, j, c.id)
  }

  /** The alias is online, on this connection. */
  predicate LivesAt(s: State, a: Alias, sock: Sock) { IsOnline(s, a) && s.tables.peers[a].sock == sock }

  /**
   Exactly which acknowledgements are relayed, in every run: one that comes from the target of an
   accepted control frame, names its id, sender and action, and is still awaited, provided that the
   sender is online; it goes to the sender's connection. Awaited means that since then no control
   frame came under that id, none at all came later than a minute, its write did not fail and it was
   not acknowledged yet.
   */
  lemma AckRelayedIff(cfg: BrokerConfig, steps: seq<Step>, k: nat, sock: Sock, ack: CtlAck)
    requires k < |steps|
    ensures
      var s := Run(cfg, steps[..k]);
      CtlAckOut(sock, ack) in OutsAt(cfg, steps, k) <==>
        exists j: nat :: Acknowledges(cfg, steps, k, j, ack) && LivesAt(s, steps[j].frame.ctl.from, sock)
  {
    var s, step := Run(cfg, steps[..k]), steps[k];
    RunAgrees(cfg, steps[..k]);
    if CtlAckOut(sock, ack) in OutsAt(cfg, steps, k) {
      RelayIsAcking(s, cfg, step, sock, ack);
      var j := PendingIsAwaited(cfg, steps, k, ack.replyTo.value);
      assert Acknowledges(cfg, steps, k, j, ack);
    }
    hide Agree, Next, Run;
    if j: nat :| Acknowledges(cfg, steps, k, j, ack) && LivesAt(s, steps[j].frame.ctl.from, sock) {
      AwaitedIsPending(cfg, steps, k, j, ack.replyTo.value);
      hide Awaits, PassesGates;
      assert Acking(s, step);
      AckStep(s, cfg, step);
    }
  }

  lemma RelayIsAcking(s: State, cfg: BrokerConfig, step: Step, sock: Sock, ack: CtlAck)
    requires Agree(s.tables, cfg.maxRooms) && CtlAckOut(sock, ack) in Next(s, cfg, step).1
    ensures Acking(s, step) && step.frame == CtlAckFrame(ack)
    ensures
      var p := s.pendingCtl[ack.replyTo.value];
      IsOnline(s, p.from) && sock == s.tables.peers[p.from].sock
  {
    hide Agree, Next, PassesGates;
    if Accepting(s, cfg, step) {
      AcceptStep(s, cfg, step);
    } else if Acking(s, step) {
      AckStep(s, cfg, step);
    } else {
      CalmStep(s, cfg, step);
    }
  }
}
