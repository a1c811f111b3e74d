/**
 Honest outcomes over all runs: every message gets exactly one answer, the
 answer goes to its sender, and it says what happened.
 */
module Outcomes {
  import opened Common
  import opened StateTables
  import opened RateLimit
  import opened Rooms
  import opened Broker
  import opened Routing
  import opened Membership
  import MB = Mailbox

  // ---- counting answers ----

  function Count(outs: seq<Out>, token: nat): nat {
    if outs == [] then 0
    else Count(outs[..|outs| - 1], token) + if Answers(outs[|outs| - 1], token) then 1 else 0
  }

  lemma {:induction false} CountAdds(a: seq<Out>, b: seq<Out>, token: nat)
    ensures Count(a + b, token) == Count(a, token) + Count(b, token)
  {
    if b == [] {
      assert a + b == a;
    } else {
      CountAdds(a, b[..|b| - 1], token);
      assert (a + b)[..|a + b| - 1] == a + b[..|b| - 1];
    }
  }

  lemma {:induction false} NoAnswersCountZero(outs: seq<Out>, token: nat)
    requires NoAnswers(outs)
    ensures Count(outs, token) == 0
  {
    if outs != [] { NoAnswersCountZero(outs[..|outs| - 1], token); }
  }

  lemma OneAnswer(outs: seq<Out>, o: Out, token: nat)
    requires EndsWith(outs, o)
    ensures Count(outs, token) == if Answers(o, token) then 1 else 0
  {
    NoAnswersCountZero(outs[..|outs| - 1], token);
  }

  /** The one answer in `outs` is for message `token` and goes to `sock` under `id`. */
  predicate Answered(outs: seq<Out>, token: nat, sock: Sock, id: MsgId) {
    outs != [] && var o := outs[|outs| - 1]; EndsWith(outs, o) && Answers(o, token) && o.sock == sock && o.id == id
  }

  // ---- the steps that concern messages ----

  /** An authenticated peer submits a message; its number is `s.nextToken`. */
  predicate Submitting(s: State, step: Step) {
    step.Deliver? && step.frame.MsgFrame? && Authed(s, step.sock, step.frame)
  }

  lemma SubmitStep(s: State, cfg: BrokerConfig, step: Step)
    requires Submitting(s, step) && Agree(s.tables, cfg.maxRooms)
    ensures
      var (s', outs) := Next(s, cfg, step);
      var from := s.tables.peers[step.frame.msg.from];
      && from.sock == step.sock && from.alias == step.frame.msg.from
      && Routed(s.(nextToken := s.nextToken + 1), cfg, s', outs, from, s.nextToken, step.frame.msg, step.now)
  {
    hide Agree, RouteMsg, Routed;
    AliasIsKey(s.tables, cfg.maxRooms, step.frame.msg.from);
    RouteMsgRouted(s, cfg, s.tables.peers[step.frame.msg.from], step.frame.msg, step.now);
  }

  /** A message is answered at once, or it is now outstanding. */
  lemma RoutedAnswersOrWaits(s: State, cfg: BrokerConfig, s': State, outs: seq<Out>, from: Peer, token: nat, m: Msg,
      now: int)
    requires Routed(s, cfg, s', outs, from, token, m, now)
    ensures s'.nextToken == s.nextToken
    ensures
      || (s'.writes == s.writes && Answered(outs, token, from.sock, m.id))
      || (NoAnswers(outs) && token in s'.writes && s'.writes == s.writes[token := s'.writes[token]]
          && s'.writes[token].from == RefOf(from) && s'.writes[token].original == m)
  {
    hide FanBoxes, MB.Enqueue, Reached, Boxed, Others, DecisionFor, Forwarded, RefsCurrent, CapTarget, Members;
    if Refusal(s, s', outs, from, token, m) {
      assert outs[..0] == [];
    }
  }

  predicate DirectCompletion(s: State, step: Step) {
    step.WriteDone? && step.token in s.writes && s.writes[step.token].DirectWrite?
  }

  predicate FanCompletion(s: State, step: Step) {
    step.FanWriteDone? && step.token in s.writes && s.writes[step.token].FanWrite?
    && step.alias in s.writes[step.token].waiting
  }

  function DirectAck(token: nat, w: Write, ok: bool): Out
    requires w.DirectWrite?
  {
    MsgAck(token, w.from.sock, w.original.id, if ok then Delivered else QueuedOffline, w.interrupt, None, w.routedTo)
  }

  lemma CloseRefFrame(s: State, r: Ref)
    ensures CloseRef(s, r) == s.(tables := CloseRef(s, r).tables, destroyed := CloseRef(s, r).destroyed)
  {}

  /** The completion of a directed write says what happened: on failure the frame is in the recipient's mailbox. */
  lemma DirectStep(s: State, cfg: BrokerConfig, step: Step)
    requires DirectCompletion(s, step)
    ensures
      var (s', outs) := Next(s, cfg, step);
      var w := s.writes[step.token];
      && s'.nextToken == s.nextToken && s'.writes == s.writes - {step.token}
      && EndsWith(outs, DirectAck(step.token, w, step.ok))
      && s'.box == if step.ok then s.box else MB.Enqueue(s.box, cfg.mailbox, w.target.alias, w.routed, step.now).0
  {
    hide MB.Enqueue, DropNotices, CloseRef;
    var w := s.writes[step.token];
    var s1 := s.(writes := s.writes - {step.token});
    CloseRefFrame(s1, w.target);
    var s2 := CloseRef(s1, w.target);
    var dropped := MB.Enqueue(s2.box, cfg.mailbox, w.target.alias, w.routed, step.now).1;
    NoticesAreNoAnswers(s2, dropped);
    if step.ok {
      EndsWithIntro([], DirectAck(step.token, w, true));
      assert [] + [DirectAck(step.token, w, true)] == [DirectAck(step.token, w, true)];
    } else {
      EndsWithIntro(DropNotices(s2, dropped), DirectAck(step.token, w, false));
    }
  }

  /** A broadcast write completed: one recipient fewer to wait for. */
  function Progress(w: Write, a: Alias, ok: bool): Write
    requires w.FanWrite?
  {
    w.(waiting := w.waiting - {a}, delivered := w.delivered + (if ok then 1 else 0),
        queued := w.queued + (if ok then 0 else 1))
  }

  lemma FanStep(s: State, cfg: BrokerConfig, step: Step)
    requires FanCompletion(s, step)
    ensures
      var (s', outs) := Next(s, cfg, step);
      var w := Progress(s.writes[step.token], step.alias, step.ok);
      && s'.nextToken == s.nextToken
      && s'.box == (if step.ok then s.box else MB.Enqueue(s.box, cfg.mailbox, step.alias, w.original, step.now).0)
      && if w.waiting == map[] then
           && s'.writes == s.writes - {step.token}
           && EndsWith(outs, FanAck(step.token, w.from, w.original, w.delivered, w.total))
         else s'.writes == s.writes[step.token := w] && NoAnswers(outs)
  {
    hide MB.Enqueue, DropNotices, CloseRef;
    var w := s.writes[step.token];
    CloseRefFrame(s, w.waiting[step.alias]);
    var s2 := CloseRef(s, w.waiting[step.alias]);
    var dropped := MB.Enqueue(s2.box, cfg.mailbox, step.alias, w.original, step.now).1;
    NoticesAreNoAnswers(s2, dropped);
    var notices := if step.ok then [] else DropNotices(s2, dropped);
    var w' := Progress(w, step.alias, step.ok);
    EndsWithIntro(notices, FanAck(step.token, w.from, w.original, w'.delivered, w.total));
  }

  // ---- all other steps leave messages alone ----

  ghost predicate Quiet(s: State, s': State, outs: seq<Out>) {
    s'.writes == s.writes && s'.nextToken == s.nextToken && NoAnswers(outs)
  }

  lemma {:induction false} CloseAllFrame(s: State, order: seq<Alias>)
    ensures
      var s' := CloseAll(s, order);
      s' == s.(tables := s'.tables, destroyed := s'.destroyed)
  {
    if order != [] { CloseAllFrame(s, order[..|order| - 1]); }
  }

  lemma {:induction false} MailboxOutsAreNoAnswers(sock: Sock, frames: seq<Stored>)
    ensures NoAnswers(MailboxOuts(sock, frames))
  {
    if frames != [] { MailboxOutsAreNoAnswers(sock, frames[..|frames| - 1]); }
  }

  lemma HelloQuiet(s: State, cfg: BrokerConfig, sock: Sock, h: Hello, now: int)
    ensures var (s', outs) := HandleHello(s, cfg, sock, h, now); Quiet(s, s', outs)
  {
    hide Enroll, MB.Flush, HandleHello, DropNotices, MailboxOuts;
    HelloCases(s, cfg, sock, h, now);
    if h.from.Some? {
      var s1 := Enrolled(s, cfg, sock, h, now);
      var (b, frames, dropped) := MB.Flush(s1.box, cfg.mailbox, h.from.value, now);
      NoticesAreNoAnswers(s1, dropped);
      MailboxOutsAreNoAnswers(sock, frames);
    }
  }

  lemma CtlQuiet(s: State, cfg: BrokerConfig, from: Peer, c: Ctl, now: int)
    ensures var (s', outs) := HandleCtl(s, cfg, from, c, now); Quiet(s, s', outs)
  {
    hide Check, LivePending;
  }

  lemma OtherFramesQuiet(s: State, cfg: BrokerConfig, sock: Sock, f: Frame, now: int)
    requires !Submitting(s, Deliver(sock, f, now))
    ensures var (s', outs) := Dispatch(s, cfg, sock, f, now); Quiet(s, s', outs)
  {
    hide RouteMsg, HandleHello, HandleCtl, Join, Leave, Check;
    if f.HelloFrame? {
      HelloQuiet(s, cfg, sock, f.hello, now);
    } else if f.CtlFrame? && Authed(s, sock, f) {
      CtlQuiet(s, cfg, s.tables.peers[f.ctl.from], f.ctl, now);
    }
  }

  lemma QuietStep(s: State, cfg: BrokerConfig, step: Step)
    requires !Submitting(s, step) && !DirectCompletion(s, step) && !FanCompletion(s, step)
    ensures var (s', outs) := Next(s, cfg, step); Quiet(s, s', outs)
  {
    hide Dispatch, CloseRef;
    if Enabled(s, step) {
      match step {
        case Deliver(sock, f, now) => OtherFramesQuiet(s, cfg, sock, f, now);
        case CtlWriteDone(n, ok) =>
          CloseRefFrame(s.(ctlWrites := s.ctlWrites - {n}, pendingCtl := s.pendingCtl - {s.ctlWrites[n].ctl.id}),
              s.ctlWrites[n].target);
        case MailWriteDone(n, ok) => CloseRefFrame(s.(mailWrites := s.mailWrites - {n}), s.mailWrites[n].target);
        case SendFailed(r) => CloseRefFrame(s, r);
        case SocketClosed(sock, order) => CloseAllFrame(s.(destroyed := s.destroyed + {sock}), order);
        case PurgeStep(order, now) => NoticesAreNoAnswers(s, MB.ExpiredOver(s.box, cfg.mailbox, order, now));
        case _ =>
      }
    }
  }

  /** `s'` has the rates, the pending controls and the mailbox writes of `s`. */
  ghost predicate Untouched(s: State, s': State) {
    s'.rates == s.rates && s'.nextMail == s.nextMail && s'.mailWrites == s.mailWrites && s'.pendingCtl == s.pendingCtl
  }

  lemma DirectDoneFrame(s: State, cfg: BrokerConfig, t: nat, ok: bool, now: int)
    requires t in s.writes && s.writes[t].DirectWrite?
    ensures Untouched(s, DirectDone(s, cfg, t, ok, now).0)
  {
    hide MB.Enqueue, DropNotices, CloseRef;
    CloseRefFrame(s.(writes := s.writes - {t}), s.writes[t].target);
  }

  lemma FanDoneFrame(s: State, cfg: BrokerConfig, t: nat, a: Alias, ok: bool, now: int)
    requires t in s.writes && s.writes[t].FanWrite? && a in s.writes[t].waiting
    ensures Untouched(s, FanDone(s, cfg, t, a, ok, now).0)
  {
    hide MB.Enqueue, DropNotices, CloseRef;
    CloseRefFrame(s, s.writes[t].waiting[a]);
  }

  lemma CtlDoneFrame(s: State, n: nat, ok: bool)
    requires n in s.ctlWrites
    ensures
      var s' := CtlDone(s, n, ok).0;
      Untouched(s, s'.(pendingCtl := s.pendingCtl))
      && (s'.pendingCtl == s.pendingCtl || s'.pendingCtl == s.pendingCtl - {s.ctlWrites[n].ctl.id})
  {
    hide CloseRef;
    var w := s.ctlWrites[n];
    CloseRefFrame(s.(ctlWrites := s.ctlWrites - {n}, pendingCtl := s.pendingCtl - {w.ctl.id}), w.target);
  }

  lemma MailDoneFrame(s: State, n: nat, ok: bool)
    requires n in s.mailWrites
    ensures
      var s' := MailDone(s, n, ok);
      Untouched(s, s'.(mailWrites := s.mailWrites)) && s'.mailWrites == s.mailWrites - {n}
  {
    hide CloseRef;
    CloseRefFrame(s.(mailWrites := s.mailWrites - {n}), s.mailWrites[n].target);
  }

  lemma SweepFrame(s: State, cfg: BrokerConfig, now: int)
    ensures Untouched(s, SweepReservations(s, cfg, now))
  {}

  lemma PruneFrame(s: State, now: int)
    ensures Untouched(s, PruneKnown(s, now))
  {}

  /** What the environment's steps leave alone. */
  lemma EnvironmentFrame(s: State, cfg: BrokerConfig, step: Step)
    requires !step.Deliver?
    ensures
      var s' := Next(s, cfg, step).0;
      && s'.rates == s.rates && s'.nextMail == s.nextMail && (!step.MailWriteDone? ==> s'.mailWrites == s.mailWrites)
      && (s'.pendingCtl == s.pendingCtl || (step.CtlWriteDone? && step.n in s.ctlWrites
            && s'.pendingCtl == s.pendingCtl - {s.ctlWrites[step.n].ctl.id}))
  {
    hide DirectDone, FanDone, CtlDone, MailDone, CloseRef, CloseAll, SweepReservations, PruneKnown, DropNotices;
    if Enabled(s, step) {
      match step {
        case WriteDone(t, ok, now) => DirectDoneFrame(s, cfg, t, ok, now);
        case FanWriteDone(t, a, ok, now) => FanDoneFrame(s, cfg, t, a, ok, now);
        case CtlWriteDone(n, ok) => CtlDoneFrame(s, n, ok);
        case MailWriteDone(n, ok) => MailDoneFrame(s, n, ok);
        case SendFailed(r) => CloseRefFrame(s, r);
        case SocketClosed(sock, order) => CloseAllFrame(s.(destroyed := s.destroyed + {sock}), order);
        case SweepStep(now) => SweepFrame(s, cfg, now);
        case PruneStep(now) => PruneFrame(s, now);
        case _ =>
      }
    }
  }

  // ---- exactly one answer ----

  ghost predicate Numbered(s: State) { forall t :: t in s.writes ==> t < s.nextToken }

  function Outstanding(s: State, t: nat): nat { if t in s.writes then 1 else 0 }

  /** Over one step a message is answered exactly when it stops being outstanding. */
  ghost predicate Balanced(s: State, s': State, outs: seq<Out>, t: nat) {
    && s'.nextToken >= s.nextToken
    && Count(outs, t) + Outstanding(s', t) == Outstanding(s, t) + if s.nextToken <= t < s'.nextToken then 1 else 0
  }

  lemma StepBalanced(s: State, cfg: BrokerConfig, step: Step, t: nat)
    requires Numbered(s) && Agree(s.tables, cfg.maxRooms)
    ensures
      var (s', outs) := Next(s, cfg, step);
      && Balanced(s, s', outs, t) && Numbered(s')
      && s'.nextToken == s.nextToken + if Submitting(s, step) then 1 else 0
  {
    hide Next, Agree, Routed, Count, EndsWith, NoAnswers;
    var (s', outs) := Next(s, cfg, step);
    if Submitting(s, step) {
      var from := s.tables.peers[step.frame.msg.from];
      SubmitStep(s, cfg, step);
      RoutedAnswersOrWaits(s.(nextToken := s.nextToken + 1), cfg, s', outs, from, s.nextToken, step.frame.msg,
          step.now);
      if NoAnswers(outs) { NoAnswersCountZero(outs, t); }
      if Answered(outs, s.nextToken, from.sock, step.frame.msg.id) { OneAnswer(outs, outs[|outs| - 1], t); }
    } else if DirectCompletion(s, step) {
      DirectStep(s, cfg, step);
      OneAnswer(outs, DirectAck(step.token, s.writes[step.token], step.ok), t);
    } else if FanCompletion(s, step) {
      FanStep(s, cfg, step);
      var w := Progress(s.writes[step.token], step.alias, step.ok);
      if w.waiting == map[] {
        OneAnswer(outs, FanAck(step.token, w.from, w.original, w.delivered, w.total), t);
      } else {
        NoAnswersCountZero(outs, t);
      }
    } else {
      QuietStep(s, cfg, step);
      NoAnswersCountZero(outs, t);
    }
  }

  /** Step `j` submits the message with number `t`. */
  ghost predicate Submits(cfg: BrokerConfig, steps: seq<Step>, j: nat, t: nat) {
    j < |steps| && Submitting(Run(cfg, steps[..j]), steps[j]) && Run(cfg, steps[..j]).nextToken == t
  }

  lemma {:induction false} AnswersBalance(cfg: BrokerConfig, steps: seq<Step>, t: nat)
    ensures Numbered(Run(cfg, steps))
    ensures Count(Trace(cfg, steps), t) + Outstanding(Run(cfg, steps), t)
         == if t < Run(cfg, steps).nextToken then 1 else 0
  {
    if steps != [] {
      var front, step := steps[..|steps| - 1], steps[|steps| - 1];
      AnswersBalance(cfg, front, t);
      RunAgrees(cfg, front);
      hide Next, Agree;
      StepBalanced(Run(cfg, front), cfg, step, t);
      CountAdds(Trace(cfg, front), Next(Run(cfg, front), cfg, step).1, t);
    }
  }

  lemma {:induction false} TokensGrow(cfg: BrokerConfig, steps: seq<Step>, j: nat)
    requires j <= |steps|
    ensures Run(cfg, steps[..j]).nextToken <= Run(cfg, steps).nextToken
  {
    if j == |steps| {
      assert steps[..j] == steps;
    } else {
      hide Next, Agree;
      var front, step := steps[..|steps| - 1], steps[|steps| - 1];
      assert steps[..j] == front[..j];
      TokensGrow(cfg, front, j);
      RunAgrees(cfg, front);
      AnswersBalance(cfg, front, 0);
      StepBalanced(Run(cfg, front), cfg, step, 0);
    }
  }

  /**
   In every run each submitted message is either still waiting for a write to
   complete or has been answered exactly once, never both; so once its writes
   are complete it has exactly one acknowledgement or error.
   */
  lemma {:induction false} ExactlyOneAnswer(cfg: BrokerConfig, steps: seq<Step>, j: nat, t: nat)
    requires Submits(cfg, steps, j, t)
    ensures Count(Trace(cfg, steps), t) + Outstanding(Run(cfg, steps), t) == 1
  {
    hide Next, Agree;
    RunAgrees(cfg, steps[..j]);
    AnswersBalance(cfg, steps[..j], t);
    assert steps[..j + 1][..j] == steps[..j];
    StepBalanced(Run(cfg, steps[..j]), cfg, steps[j], t);
    TokensGrow(cfg, steps, j + 1);
    AnswersBalance(cfg, steps, t);
  }

  /** Different submissions get different numbers. */
  lemma {:induction false} NumbersAreUnique(cfg: BrokerConfig, steps: seq<Step>, i: nat, j: nat, t: nat, u: nat)
    requires i < j && Submits(cfg, steps, i, t) && Submits(cfg, steps, j, u)
    ensures t < u
  {
    hide Next, Agree;
    RunAgrees(cfg, steps[..i]);
    AnswersBalance(cfg, steps[..i], t);
    assert steps[..i + 1][..i] == steps[..i];
    StepBalanced(Run(cfg, steps[..i]), cfg, steps[i], t);
    assert steps[..j][..i + 1] == steps[..i + 1];
    TokensGrow(cfg, steps[..j], i + 1);
  }
}
