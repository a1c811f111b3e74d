/**
 What the answers mean, over all runs: where each answer comes from, and what an
 acknowledgement of a directed, capability-routed or broadcast message proves.
 */
module Honesty {
  import opened Common
  import opened StateTables
  import opened Rooms
  import opened Broker
  import opened Routing
  import opened Membership
  import opened Outcomes
  import MB = Mailbox

  /** The step completes a write of broadcast `t` with outcome `ok`. */
  predicate Completes(s: State, step: Step, t: nat, ok: bool) {
    FanCompletion(s, step) && step.token == t && step.ok == ok
  }

  /** How many writes of broadcast `t` have completed with outcome `ok`. */
  ghost function Completions(cfg: BrokerConfig, steps: seq<Step>, t: nat, ok: bool): nat {
    if steps == [] then 0
    else
      var front, step := steps[..|steps| - 1], steps[|steps| - 1];
      Completions(cfg, front, t, ok) + if Completes(Run(cfg, front), step, t, ok) then 1 else 0
  }

  lemma {:induction false} NoCompletionsYet(cfg: BrokerConfig, steps: seq<Step>, t: nat, ok: bool)
    requires Run(cfg, steps).nextToken <= t
    ensures Completions(cfg, steps, t, ok) == 0
  {
    if steps != [] {
      hide Next;
      var front := steps[..|steps| - 1];
      TokensGrow(cfg, steps, |steps| - 1);
      NoCompletionsYet(cfg, front, t, ok);
      AnswersBalance(cfg, front, t);
    }
  }

  /** The room members when the message of step `j` was submitted. */
  ghost function Audience(cfg: BrokerConfig, steps: seq<Step>, j: nat): seq<Alias>
    requires j < |steps| && steps[j].Deliver? && steps[j].frame.MsgFrame?
  {
    Members(Run(cfg, steps[..j]).tables, MsgRoom(steps[j].frame.msg))
  }

  /** Mailbox copies of the broadcast submitted at step `j`: one per member offline but
      known at that time, one per write that failed since. */
  ghost function QueuedCopies(cfg: BrokerConfig, steps: seq<Step>, j: nat, t: nat): nat
    requires j < |steps| && steps[j].Deliver? && steps[j].frame.MsgFrame?
  {
    |Boxed(Run(cfg, steps[..j]), Audience(cfg, steps, j), steps[j].frame.msg.from)| + Completions(cfg, steps, t, false)
  }

  /**
   The account of the broadcast submitted at step `j`: every member but the sender
   is still waited for, was written to successfully, is in `queued` (offline at
   the start, or its write failed), or was beyond reach.
   */
  ghost predicate Tally(cfg: BrokerConfig, steps: seq<Step>, j: nat, t: nat, waiting: nat, delivered: nat,
      queued: nat, total: nat)
    requires j < |steps| && steps[j].Deliver? && steps[j].frame.MsgFrame?
  {
    var s, members, from := Run(cfg, steps[..j]), Audience(cfg, steps, j), steps[j].frame.msg.from;
    && steps[j].frame.msg.broadcast
    && total == |members| - 1
    && delivered == Completions(cfg, steps, t, true)
    && queued == QueuedCopies(cfg, steps, j, t)
    && waiting + delivered + queued + |Lost(s, members, from)| == total
  }

  /** The outstanding write `w` of message `t` belongs to the submission at step `j`. */
  ghost predicate Originates(cfg: BrokerConfig, steps: seq<Step>, j: nat, t: nat, w: Write) {
    && Submits(cfg, steps, j, t)
    && w.from.sock == steps[j].sock && w.from.alias == steps[j].frame.msg.from && w.original == steps[j].frame.msg
    && (w.DirectWrite? ==> DirectOk(cfg, w) && TargetOk(Run(cfg, steps[..j]), w.original, w.target))
    && (w.FanWrite? ==> w.waiting != map[] && Tally(cfg, steps, j, t, |w.waiting|, w.delivered, w.queued, w.total))
  }

  ghost predicate HasOrigin(cfg: BrokerConfig, steps: seq<Step>, t: nat, w: Write) {
    exists j: nat :: Originates(cfg, steps, j, t, w)
  }

  lemma OriginsPersist(cfg: BrokerConfig, steps: seq<Step>, j: nat, t: nat, w: Write)
    requires steps != [] && Originates(cfg, steps[..|steps| - 1], j, t, w)
    requires w.FanWrite? ==>
      forall ok :: Completions(cfg, steps, t, ok) == Completions(cfg, steps[..|steps| - 1], t, ok)
    ensures Originates(cfg, steps, j, t, w)
  {
    hide Run, Completions, DirectOk;
    assert steps[..|steps| - 1][..j] == steps[..j];
  }

  /** One more completed write moves one recipient from `waiting` to its column. */
  lemma OriginAfterCompletion(cfg: BrokerConfig, steps: seq<Step>, j: nat, t: nat, w: Write)
    requires steps != []
    requires
      var front, step := steps[..|steps| - 1], steps[|steps| - 1];
      Originates(cfg, front, j, t, w) && FanCompletion(Run(cfg, front), step) && step.token == t
      && w == Run(cfg, front).writes[t]
    ensures
      var w' := Progress(w, steps[|steps| - 1].alias, steps[|steps| - 1].ok);
      && Tally(cfg, steps, j, t, |w'.waiting|, w'.delivered, w'.queued, w'.total)
      && Submits(cfg, steps, j, t) && w'.queued == QueuedCopies(cfg, steps, j, t)
  {
    var front, step := steps[..|steps| - 1], steps[|steps| - 1];
    assert front[..j] == steps[..j];
    assert forall ok ::
      Completions(cfg, steps, t, ok) == Completions(cfg, front, t, ok) + if step.ok == ok then 1 else 0;
    hide Run, Completions;
    assert |w.waiting - {step.alias}| == |w.waiting| - 1;
  }

  /** A new outstanding write is a directed one or a broadcast over the members of its room. */
  lemma RoutedNewWrite(s: State, cfg: BrokerConfig, s': State, outs: seq<Out>, from: Peer, t: nat, m: Msg, now: int)
    requires Routed(s, cfg, s', outs, from, t, m, now) && t in s'.writes && t !in s.writes
    ensures
      var w, members := s'.writes[t], Members(s.tables, MsgRoom(m));
      && w.from == RefOf(from) && w.original == m
      && (w.DirectWrite? ==> DirectOk(cfg, w) && TargetOk(s, m, w.target))
      && (w.FanWrite? ==>
           && m.broadcast && MsgRoom(m) in from.rooms && w.waiting != map[] && w.delivered == 0
           && w.waiting.Keys == Reached(s, members, from.alias)
           && w.queued == |Boxed(s, members, from.alias)| && w.total == |Others(members, from.alias)|)
  {
    hide FanBoxes, MB.Enqueue, Reached, Boxed, Others, DecisionFor, Forwarded, RefsCurrent, CapTarget, Members,
        EndsWith;
  }

  /** The account of a broadcast whose writes have just been issued. */
  lemma FreshCounts(s: State, cfg: BrokerConfig, m: Msg, w: Write)
    requires Agree(s.tables, cfg.maxRooms) && m.from in s.tables.peers && MsgRoom(m) in s.tables.peers[m.from].rooms
    requires
      var members, s0 := Members(s.tables, MsgRoom(m)), s.(nextToken := s.nextToken + 1);
      && w.FanWrite? && w.waiting.Keys == Reached(s0, members, m.from)
      && w.queued == |Boxed(s0, members, m.from)| && w.total == |Others(members, m.from)|
    ensures
      var members := Members(s.tables, MsgRoom(m));
      && w.total == |members| - 1 && w.queued == |Boxed(s, members, m.from)|
      && |w.waiting| + w.queued + |Lost(s, members, m.from)| == w.total
  {
    var members := Members(s.tables, MsgRoom(m));
    SenderIsListed(s.tables, cfg.maxRooms, m.from, MsgRoom(m));
    hide Agree, Members, Reached, Boxed, Lost, Others;
    SameAudience(s, s.(nextToken := s.nextToken + 1), members, m.from);
    AudienceSplits(s, members, m.from);
    OthersCount(members, m.from);
    assert |w.waiting| == |w.waiting.Keys|;
  }

  lemma SenderIsListed(t: Tables, maxRooms: int, a: Alias, r: Room)
    requires Agree(t, maxRooms) && a in t.peers && r in t.peers[a].rooms
    ensures NoDup(Members(t, r)) && a in Members(t, r)
  {
    assert PeerOk(t, maxRooms, a);
    assert RoomOk(t, r);
  }

  lemma CompletionsUnfold(cfg: BrokerConfig, steps: seq<Step>, t: nat, ok: bool)
    requires steps != []
    ensures
      var front, step := steps[..|steps| - 1], steps[|steps| - 1];
      Completions(cfg, steps, t, ok)
        == Completions(cfg, front, t, ok) + if Completes(Run(cfg, front), step, t, ok) then 1 else 0
  {}

  lemma RunUnfolds(cfg: BrokerConfig, steps: seq<Step>)
    requires steps != []
    ensures Run(cfg, steps) == Next(Run(cfg, steps[..|steps| - 1]), cfg, steps[|steps| - 1]).0
  {}

  lemma OriginOfNew(cfg: BrokerConfig, steps: seq<Step>)
    requires steps != [] && Submitting(Run(cfg, steps[..|steps| - 1]), steps[|steps| - 1])
    requires Run(cfg, steps[..|steps| - 1]).nextToken in Run(cfg, steps).writes
    ensures
      var t := Run(cfg, steps[..|steps| - 1]).nextToken;
      Originates(cfg, steps, |steps| - 1, t, Run(cfg, steps).writes[t])
  {
    hide Run, Next, Agree, Routed, DirectOk, Reached, Boxed, Lost, Others, Members, Completions;
    var n := |steps| - 1;
    var front, step := steps[..n], steps[n];
    var s, s' := Run(cfg, front), Run(cfg, steps);
    var t, m := s.nextToken, step.frame.msg;
    RunAgrees(cfg, front);
    AnswersBalance(cfg, front, t);
    RunUnfolds(cfg, steps);
    SubmitStep(s, cfg, step);
    RoutedNewWrite(s.(nextToken := t + 1), cfg, s', Next(s, cfg, step).1, s.tables.peers[m.from], t, m, step.now);
    if s'.writes[t].FanWrite? {
      FreshCounts(s, cfg, m, s'.writes[t]);
      NoCompletionsYet(cfg, front, t, true);
      NoCompletionsYet(cfg, front, t, false);
      CompletionsUnfold(cfg, steps, t, true);
      CompletionsUnfold(cfg, steps, t, false);
    }
  }

  lemma OriginKept(cfg: BrokerConfig, steps: seq<Step>, t: nat, w: Write)
    requires steps != [] && HasOrigin(cfg, steps[..|steps| - 1], t, w)
    requires !(FanCompletion(Run(cfg, steps[..|steps| - 1]), steps[|steps| - 1]) && steps[|steps| - 1].token == t)
    ensures HasOrigin(cfg, steps, t, w)
  {
    hide Run, Originates, Completions, FanCompletion;
    CompletionsUnfold(cfg, steps, t, true);
    CompletionsUnfold(cfg, steps, t, false);
    var j: nat :| Originates(cfg, steps[..|steps| - 1], j, t, w);
    OriginsPersist(cfg, steps, j, t, w);
  }

  lemma OriginAdvanced(cfg: BrokerConfig, steps: seq<Step>, w: Write)
    requires steps != []
    requires
      var s, step := Run(cfg, steps[..|steps| - 1]), steps[|steps| - 1];
      && FanCompletion(s, step) && w == s.writes[step.token] && HasOrigin(cfg, steps[..|steps| - 1], step.token, w)
      && Progress(w, step.alias, step.ok).waiting != map[]
    ensures var step := steps[|steps| - 1]; HasOrigin(cfg, steps, step.token, Progress(w, step.alias, step.ok))
  {
    hide Run, Completions, Tally;
    var step := steps[|steps| - 1];
    var j: nat :| Originates(cfg, steps[..|steps| - 1], j, step.token, w);
    OriginAfterCompletion(cfg, steps, j, step.token, w);
    assert steps[..|steps| - 1][..j] == steps[..j];
    assert Originates(cfg, steps, j, step.token, Progress(w, step.alias, step.ok));
  }

  /** How a step can leave a write outstanding: issue it, advance it, or not touch it. */
  lemma StepOnWrites(s: State, cfg: BrokerConfig, step: Step, t: nat)
    requires Agree(s.tables, cfg.maxRooms) && t in Next(s, cfg, step).0.writes
    ensures
      var w' := Next(s, cfg, step).0.writes[t];
      || (Submitting(s, step) && t == s.nextToken)
      || (FanCompletion(s, step) && t == step.token && w' == Progress(s.writes[t], step.alias, step.ok)
          && w'.waiting != map[])
      || (t in s.writes && w' == s.writes[t] && !(FanCompletion(s, step) && t == step.token))
  {
    hide Agree, Next, EndsWith, NoAnswers, Routed;
    if Submitting(s, step) {
      var (s', outs) := Next(s, cfg, step);
      SubmitStep(s, cfg, step);
      RoutedAnswersOrWaits(s.(nextToken := s.nextToken + 1), cfg, s', outs, s.tables.peers[step.frame.msg.from],
          s.nextToken, step.frame.msg, step.now);
    } else if FanCompletion(s, step) {
      FanStep(s, cfg, step);
    } else if DirectCompletion(s, step) {
      DirectStep(s, cfg, step);
    } else {
      QuietStep(s, cfg, step);
    }
  }

  /** Every outstanding write has a submission behind it, with its account in order. */
  lemma {:induction false} WritesHaveOrigin(cfg: BrokerConfig, steps: seq<Step>, t: nat)
    requires t in Run(cfg, steps).writes
    ensures HasOrigin(cfg, steps, t, Run(cfg, steps).writes[t])
  {
    if steps != [] {
      hide Agree, Next, Run, HasOrigin;
      var front, step := steps[..|steps| - 1], steps[|steps| - 1];
      var s, w' := Run(cfg, front), Run(cfg, steps).writes[t];
      RunAgrees(cfg, front);
      RunUnfolds(cfg, steps);
      StepOnWrites(s, cfg, step, t);
      if Submitting(s, step) && t == s.nextToken {
        OriginOfNew(cfg, steps);
        OriginWitness(cfg, steps, |steps| - 1, t, w');
      } else {
        WritesHaveOrigin(cfg, front, t);
        if FanCompletion(s, step) && t == step.token {
          OriginAdvanced(cfg, steps, s.writes[t]);
        } else {
          OriginKept(cfg, steps, t, w');
        }
      }
    }
  }

  lemma OriginWitness(cfg: BrokerConfig, steps: seq<Step>, j: nat, t: nat, w: Write)
    requires Originates(cfg, steps, j, t, w)
    ensures HasOrigin(cfg, steps, t, w)
  {}

  // ---- where an answer comes from ----

  predicate IsAnswer(o: Out) { o.MsgError? || o.MsgAck? }

  lemma TheAnswer(outs: seq<Out>, o: Out, x: Out)
    requires o in outs && IsAnswer(o)
    ensures EndsWith(outs, x) ==> o == x
    ensures !NoAnswers(outs)
  {
    var i :| 0 <= i < |outs| && outs[i] == o;
    assert outs == outs[..|outs| - 1] + [outs[|outs| - 1]];
    assert i < |outs| - 1 ==> outs[..|outs| - 1][i] == o;
  }

  /** An answer is given when the message is submitted, or by the completion of its last write. */
  lemma AnswerSource(s: State, cfg: BrokerConfig, step: Step, o: Out)
    requires Agree(s.tables, cfg.maxRooms) && o in Next(s, cfg, step).1 && IsAnswer(o)
    ensures
      || (Submitting(s, step) && o.token == s.nextToken && o.sock == step.sock && o.id == step.frame.msg.id)
      || (DirectCompletion(s, step) && o == DirectAck(step.token, s.writes[step.token], step.ok))
      || (FanCompletion(s, step) && var w := Progress(s.writes[step.token], step.alias, step.ok);
          w.waiting == map[] && o == FanAck(step.token, w.from, w.original, w.delivered, w.total))
  {
    hide Agree, Next, EndsWith, NoAnswers, Routed;
    var (s', outs) := Next(s, cfg, step);
    if Submitting(s, step) {
      SubmitStep(s, cfg, step);
      RoutedAnswersOrWaits(s.(nextToken := s.nextToken + 1), cfg, s', outs, s.tables.peers[step.frame.msg.from],
          s.nextToken, step.frame.msg, step.now);
      TheAnswer(outs, o, outs[|outs| - 1]);
    } else if DirectCompletion(s, step) {
      DirectStep(s, cfg, step);
      TheAnswer(outs, o, DirectAck(step.token, s.writes[step.token], step.ok));
    } else if FanCompletion(s, step) {
      FanStep(s, cfg, step);
      var w := Progress(s.writes[step.token], step.alias, step.ok);
      TheAnswer(outs, o, FanAck(step.token, w.from, w.original, w.delivered, w.total));
    } else {
      QuietStep(s, cfg, step);
      TheAnswer(outs, o, o);
    }
  }

  ghost predicate AnswersStep(cfg: BrokerConfig, steps: seq<Step>, j: nat, o: Out)
    requires IsAnswer(o)
  {
    Submits(cfg, steps, j, o.token) && o.sock == steps[j].sock && o.id == steps[j].frame.msg.id
  }

  /** Every answer in every run goes to the connection, and carries the id, of a
      message submitted there at that step or before. */
  lemma AnswersReachTheSender(cfg: BrokerConfig, steps: seq<Step>, k: nat, o: Out)
    requires k < |steps| && o in OutsAt(cfg, steps, k) && IsAnswer(o)
    ensures exists j: nat :: j <= k && AnswersStep(cfg, steps, j, o)
  {
    hide Agree, Next, Run;
    var s, step := Run(cfg, steps[..k]), steps[k];
    RunAgrees(cfg, steps[..k]);
    AnswerSource(s, cfg, step, o);
    if Submitting(s, step) {
      assert AnswersStep(cfg, steps, k, o);
    } else {
      var w := s.writes[o.token];
      WritesHaveOrigin(cfg, steps[..k], o.token);
      var j: nat :| Originates(cfg, steps[..k], j, o.token, w);
      assert steps[..k][..j] == steps[..j];
      assert AnswersStep(cfg, steps, j, o);
    }
  }

  /** A refusal changes no queue, no write and no connection: only the rate table
      and the message counter move, in the very step of the submission. */
  lemma RefusalIsInert(cfg: BrokerConfig, steps: seq<Step>, k: nat, o: Out)
    requires k < |steps| && o in OutsAt(cfg, steps, k) && o.MsgError?
    ensures
      var s, s' := Run(cfg, steps[..k]), Run(cfg, steps[..k + 1]);
      && AnswersStep(cfg, steps, k, o)
      && s' == s.(nextToken := s.nextToken + 1, rates := s'.rates)
      && OutsAt(cfg, steps, k) == [o]
  {
    hide Agree, Next, Run;
    var s, step := Run(cfg, steps[..k]), steps[k];
    RunAgrees(cfg, steps[..k]);
    assert steps[..k + 1][..k] == steps[..k];
    RunUnfolds(cfg, steps[..k + 1]);
    AnswerSource(s, cfg, step, o);
    SubmitStep(s, cfg, step);
    var (s', outs) := Next(s, cfg, step);
    ErrorMeansRefusal(s.(nextToken := s.nextToken + 1), cfg, s', outs, s.tables.peers[step.frame.msg.from],
        s.nextToken, step.frame.msg, step.now, o);
  }

  lemma ErrorMeansRefusal(s: State, cfg: BrokerConfig, s': State, outs: seq<Out>, from: Peer, token: nat, m: Msg,
      now: int, o: Out)
    requires Routed(s, cfg, s', outs, from, token, m, now) && o in outs && o.MsgError?
    ensures Refusal(s, s', outs, from, token, m) && outs == [o]
  {
    hide FanBoxes, MB.Enqueue, Reached, Boxed, Others, DecisionFor, Forwarded, RefsCurrent, CapTarget, Members,
        EndsWith, NoAnswers;
    TheAnswer(outs, o, if outs == [] then o else outs[|outs| - 1]);
    if Fanned(s, cfg, s', outs, from, token, m, now) {
      TheAnswer(outs, o, FanAck(token, RefOf(from), m, 0, |Others(Members(s.tables, MsgRoom(m)), from.alias)|));
    } else if Mailed(s, cfg, s', outs, from, token, m, now) {
      TheAnswer(outs, o, MsgAck(token, from.sock, m.id, QueuedOffline,
          InterruptOf(DecisionFor(cfg, from.alias, m, m.to.value), MsgPriority(m)), None, None));
    }
  }

  // ---- directed and capability-routed messages ----

  /** The time at which a message or a completion is handled. */
  function TimeOf(step: Step): int
    requires step.Deliver? || step.WriteDone?
  {
    step.now
  }

  /** What the acknowledgement `o` given at step `k` proves about the message submitted at step `j` for `to`. */
  ghost predicate HonestAck(cfg: BrokerConfig, steps: seq<Step>, k: nat, j: nat, to: Alias, o: Out)
    requires k < |steps| && o.MsgAck?
  {
    && j <= k && AnswersStep(cfg, steps, j, o)
    && var m, s := steps[j].frame.msg, Run(cfg, steps[..k]);
    && !m.broadcast && m.to.Some?
    && var cap, d := CapTarget(m.to.value), DecisionFor(cfg, m.from, m, to);
    && (cap.None? ==> m.to == Some(to)) && o.routedTo == (if cap.Some? then Some(to) else None)
    && !d.Deny? && o.interrupt == InterruptOf(d, MsgPriority(m))
    && var f := Forwarded(cfg, m.from, m, to, cap);
    match o.status
    case Delivered =>
      && DirectCompletion(s, steps[k]) && steps[k].token == o.token && steps[k].ok
      && s.writes[o.token].routed == f && s.writes[o.token].target.alias == to
      && TargetOk(Run(cfg, steps[..j]), m, s.writes[o.token].target)
    case QueuedOffline =>
      && (steps[k].Deliver? || (steps[k].WriteDone? && !steps[k].ok))
      && InBox(Run(cfg, steps[..k + 1]).box, cfg, to, f, TimeOf(steps[k]))
  }

  /**
   Honest status on the directed and capability routes, in every run: `delivered`
   means that the write of exactly this message to the recipient just succeeded;
   `queued_offline` means that it is the last entry of the recipient's mailbox
   (if the mailbox can hold anything at all).
   */
  lemma DirectedAcksAreHonest(cfg: BrokerConfig, steps: seq<Step>, k: nat, o: Out)
    requires k < |steps| && o in OutsAt(cfg, steps, k) && o.MsgAck? && o.counts.None?
    ensures exists j: nat, to :: HonestAck(cfg, steps, k, j, to, o)
  {
    hide Agree, Next, Run, MB.Enqueue, Forwarded, DecisionFor, CapTarget, InBox;
    var s, step := Run(cfg, steps[..k]), steps[k];
    RunAgrees(cfg, steps[..k]);
    assert steps[..k + 1][..k] == steps[..k];
    RunUnfolds(cfg, steps[..k + 1]);
    AnswerSource(s, cfg, step, o);
    if Submitting(s, step) {
      SubmitStep(s, cfg, step);
      MailedAck(cfg, steps, k, o);
    } else {
      var w := s.writes[o.token];
      WritesHaveOrigin(cfg, steps[..k], o.token);
      var j: nat :| Originates(cfg, steps[..k], j, o.token, w);
      assert steps[..k][..j] == steps[..j];
      DirectStep(s, cfg, step);
      QueuedIsInBox(s.box, cfg, w.target.alias, w.routed, step.now);
      assert HonestAck(cfg, steps, k, j, w.target.alias, o);
    }
  }

  lemma QueuedIsInBox(b: MB.Box, cfg: BrokerConfig, to: Alias, f: Msg, now: int)
    ensures InBox(MB.Enqueue(b, cfg.mailbox, to, f, now).0, cfg, to, f, now)
  {
    hide MB.Enqueue;
    MB.NewestSurvives(b, cfg.mailbox, to, f, now);
  }

  /** An acknowledgement without counts given at submission: the message went into the mailbox. */
  lemma MailedAck(cfg: BrokerConfig, steps: seq<Step>, k: nat, o: Out)
    requires k < |steps| && Submitting(Run(cfg, steps[..k]), steps[k])
    requires o in OutsAt(cfg, steps, k) && o.MsgAck? && o.counts.None? && AnswersStep(cfg, steps, k, o)
    ensures steps[k].frame.msg.to.Some? && HonestAck(cfg, steps, k, k, steps[k].frame.msg.to.value, o)
  {
    hide Agree, Next, Run, Routed;
    var s, step := Run(cfg, steps[..k]), steps[k];
    var m := step.frame.msg;
    RunAgrees(cfg, steps[..k]);
    assert steps[..k + 1][..k] == steps[..k];
    RunUnfolds(cfg, steps[..k + 1]);
    SubmitStep(s, cfg, step);
    var (s', outs) := Next(s, cfg, step);
    MailedOnly(s.(nextToken := s.nextToken + 1), cfg, s', outs, s.tables.peers[m.from], s.nextToken, m, step.now, o);
    QueuedIsInBox(s.box, cfg, m.to.value, Forwarded(cfg, m.from, m, m.to.value, None), step.now);
  }

  lemma MailedOnly(s: State, cfg: BrokerConfig, s': State, outs: seq<Out>, from: Peer, token: nat, m: Msg, now: int,
      o: Out)
    requires Routed(s, cfg, s', outs, from, token, m, now) && o in outs && o.MsgAck? && o.counts.None?
    ensures Mailed(s, cfg, s', outs, from, token, m, now)
    ensures o == MsgAck(token, from.sock, m.id, QueuedOffline,
        InterruptOf(DecisionFor(cfg, from.alias, m, m.to.value), MsgPriority(m)), None, None)
  {
    hide FanBoxes, MB.Enqueue, Reached, Boxed, Others, DecisionFor, Forwarded, RefsCurrent, CapTarget, Members,
        EndsWith, NoAnswers;
    if Fanned(s, cfg, s', outs, from, token, m, now) {
      TheAnswer(outs, o, FanAck(token, RefOf(from), m, 0, |Others(Members(s.tables, MsgRoom(m)), from.alias)|));
    } else if Mailed(s, cfg, s', outs, from, token, m, now) {
      TheAnswer(outs, o, MsgAck(token, from.sock, m.id, QueuedOffline,
          InterruptOf(DecisionFor(cfg, from.alias, m, m.to.value), MsgPriority(m)), None, None));
    }
  }

  // ---- broadcasts ----

  /** What the receipt `o` of the broadcast submitted at step `j` proves: its total is the
      room without the sender, its delivered count is the number of successful
      writes, and with those queued and those beyond reach it adds up to the total. */
  ghost predicate HonestReceipt(cfg: BrokerConfig, steps: seq<Step>, k: nat, j: nat, o: Out)
    requires k < |steps| && o.MsgAck? && o.counts.Some?
  {
    && j <= k && AnswersStep(cfg, steps, j, o)
    && (o.status.Delivered? <==> o.counts.value.0 > 0)
    && Tally(cfg, steps[..k + 1], j, o.token, 0, o.counts.value.0, QueuedCopies(cfg, steps[..k + 1], j, o.token),
        o.counts.value.1)
  }

  lemma BroadcastReceiptsAreHonest(cfg: BrokerConfig, steps: seq<Step>, k: nat, o: Out)
    requires k < |steps| && o in OutsAt(cfg, steps, k) && o.MsgAck? && o.counts.Some?
    ensures exists j: nat :: HonestReceipt(cfg, steps, k, j, o)
  {
    hide Agree, Next, Run, Tally, Completions;
    var s, step := Run(cfg, steps[..k]), steps[k];
    RunAgrees(cfg, steps[..k]);
    assert steps[..k + 1][..k] == steps[..k];
    RunUnfolds(cfg, steps[..k + 1]);
    AnswerSource(s, cfg, step, o);
    if Submitting(s, step) {
      ImmediateReceipt(cfg, steps, k, o);
    } else {
      var w := s.writes[o.token];
      WritesHaveOrigin(cfg, steps[..k], o.token);
      var j: nat :| Originates(cfg, steps[..k], j, o.token, w);
      assert steps[..k][..j] == steps[..j];
      OriginAfterCompletion(cfg, steps[..k + 1], j, o.token, w);
      hide QueuedCopies;
      assert |Progress(w, step.alias, step.ok).waiting| == 0;
      assert HonestReceipt(cfg, steps, k, j, o);
    }
  }

  /** A receipt given at submission: nobody was online. */
  lemma ImmediateReceipt(cfg: BrokerConfig, steps: seq<Step>, k: nat, o: Out)
    requires k < |steps| && Submitting(Run(cfg, steps[..k]), steps[k])
    requires o in OutsAt(cfg, steps, k) && o.MsgAck? && o.counts.Some? && AnswersStep(cfg, steps, k, o)
    ensures HonestReceipt(cfg, steps, k, k, o)
  {
    hide Agree, Next, Run, Routed, Completions, Reached, Boxed, Lost, Others, Members;
    var s, step, upto := Run(cfg, steps[..k]), steps[k], steps[..k + 1];
    var m, t := step.frame.msg, s.nextToken;
    assert upto[..k] == steps[..k];
    RunAgrees(cfg, steps[..k]);
    RunUnfolds(cfg, upto);
    SubmitStep(s, cfg, step);
    var (s', outs) := Next(s, cfg, step);
    var members := Members(s.tables, MsgRoom(m));
    ImmediateOnly(s.(nextToken := t + 1), cfg, s', outs, s.tables.peers[m.from], t, m, step.now, o);
    var w := FanWrite(RefOf(s.tables.peers[m.from]), m, map[], 0, |Boxed(s.(nextToken := t + 1), members, m.from)|,
        |Others(members, m.from)|);
    FreshCounts(s, cfg, m, w);
    NoCompletionsYet(cfg, steps[..k], t, true);
    NoCompletionsYet(cfg, steps[..k], t, false);
    CompletionsUnfold(cfg, upto, t, true);
    CompletionsUnfold(cfg, upto, t, false);
    assert Tally(cfg, upto, k, t, 0, 0, w.queued, w.total);
  }

  lemma ImmediateOnly(s: State, cfg: BrokerConfig, s': State, outs: seq<Out>, from: Peer, token: nat, m: Msg,
      now: int, o: Out)
    requires Routed(s, cfg, s', outs, from, token, m, now) && o in outs && o.MsgAck? && o.counts.Some?
    ensures
      var members := Members(s.tables, MsgRoom(m));
      && m.broadcast && MsgRoom(m) in from.rooms && Reached(s, members, from.alias) == {}
      && o == FanAck(token, RefOf(from), m, 0, |Others(members, from.alias)|)
  {
    hide FanBoxes, MB.Enqueue, Reached, Boxed, Others, DecisionFor, Forwarded, RefsCurrent, CapTarget, Members,
        EndsWith, NoAnswers;
    if Fanned(s, cfg, s', outs, from, token, m, now) {
      TheAnswer(outs, o, FanAck(token, RefOf(from), m, 0, |Others(Members(s.tables, MsgRoom(m)), from.alias)|));
    } else if Mailed(s, cfg, s', outs, from, token, m, now) {
      TheAnswer(outs, o, MsgAck(token, from.sock, m.id, QueuedOffline,
          InterruptOf(DecisionFor(cfg, from.alias, m, m.to.value), MsgPriority(m)), None, None));
    }
  }

  /** With an exact index nobody is beyond reach: every member is connected or has
      a mailbox. */
  lemma ExactLosesNobody(s: State, members: seq<Alias>, from: Alias, r: Room)
    requires AllKnown(s) && Exact(s.tables) && members == Members(s.tables, r)
    ensures Lost(s, members, from) == {}
  {
    forall a | a in members ensures a in s.known {
      assert a in s.tables.peers;
    }
  }

  /**
   If no hello before the broadcast forgot a room, every receipt adds up: the
   delivered count and the mailbox copies together are the room without the sender.
   */
  lemma BroadcastsAddUp(cfg: BrokerConfig, steps: seq<Step>, k: nat, j: nat, o: Out)
    requires k < |steps| && o.MsgAck? && o.counts.Some? && HonestReceipt(cfg, steps, k, j, o)
    requires NothingForgotten(cfg, steps[..j])
    ensures o.counts.value.0 + QueuedCopies(cfg, steps[..k + 1], j, o.token) == o.counts.value.1
    ensures o.counts.value.1 == |Audience(cfg, steps, j)| - 1
  {
    RunExact(cfg, steps[..j]);
    ConnectedIsKnown(cfg, steps[..j]);
    assert steps[..k + 1][..j] == steps[..j];
    hide Run, Completions, Exact, AllKnown, NothingForgotten, Boxed, Lost, Members;
    var m := steps[j].frame.msg;
    ExactLosesNobody(Run(cfg, steps[..j]), Audience(cfg, steps, j), m.from, MsgRoom(m));
  }
}
