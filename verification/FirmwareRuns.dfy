/** The runs of this instrument's firmware: what the machine's properties mean for the
    messages themselves. */
module FirmwareRuns {
  import opened Messages
  import opened Dispatch
  import opened Receiving
  import opened Pipeline
  import opened CommandRuns

  ghost predicate AllShaped(cmds: seq<Command>) {
    forall i :: 0 <= i < |cmds| ==> Shaped(cmds[i])
  }

  lemma HandledReply(cfg: Config, dec: Decoder, judge: Publication -> Verdict, start: Device, dev: Device, cmd: Command)
    requires |cfg.names| == |dev.states| && Shaped(cmd)
    ensures Addressed(cmd, FirmwareWith(cfg, dec, judge, start).handle(dev, cmd).1)
    ensures Publishable(FirmwareWith(cfg, dec, judge, start).handle(dev, cmd).1)
  {
    EveryAnswerAddressed(cfg, dec, dev, cmd);
    assert FirmwareWith(cfg, dec, judge, start).handle(dev, cmd).1 == Answered(cfg, dec, dev, cmd);
  }

  lemma RepliesSplit(env: Env, cmds: seq<Command>, i: nat)
    requires i < |cmds|
    ensures RepliesTo(env, cmds)[i] ==
            if i == |cmds| - 1 then env.handle(DeviceAfter(env, cmds[..i]), cmds[i]).1 else RepliesTo(env, cmds[..|cmds| - 1])[i]
  {
  }

  lemma {:induction false} SwitchesStay(cfg: Config, dec: Decoder, judge: Publication -> Verdict, start: Device, cmds: seq<Command>)
    requires |cfg.names| == |start.states|
    ensures |DeviceAfter(FirmwareWith(cfg, dec, judge, start), cmds).states| == |cfg.names|
  {
    if cmds != [] {
      SwitchesStay(cfg, dec, judge, start, cmds[..|cmds| - 1]);
    }
  }

  /** Every reply of the sequential interpreter is addressed to its command. */
  lemma {:induction false} ReplyAddressed(cfg: Config, dec: Decoder, judge: Publication -> Verdict, start: Device, cmds: seq<Command>, i: nat)
    requires |cfg.names| == |start.states| && AllShaped(cmds) && i < |cmds|
    ensures Addressed(cmds[i], RepliesTo(FirmwareWith(cfg, dec, judge, start), cmds)[i])
    ensures Publishable(RepliesTo(FirmwareWith(cfg, dec, judge, start), cmds)[i])
  {
    var env := FirmwareWith(cfg, dec, judge, start);
    RepliesSplit(env, cmds, i);
    if i < |cmds| - 1 {
      ReplyAddressed(cfg, dec, judge, start, cmds[..|cmds| - 1], i);
    } else {
      SwitchesStay(cfg, dec, judge, start, cmds[..i]);
      HandledReply(cfg, dec, judge, start, DeviceAfter(env, cmds[..i]), cmds[i]);
    }
  }

  /** The commands the executor has taken are the receiver's commands. */
  lemma TakenAreJudged(env: Env, s: State)
    requires CommandRuns.Inv(env, s)
    ensures |s.taken| <= |s.requests|
    ensures forall i :: 0 <= i < |s.taken| ==> env.judge(s.requests[i]) == Accepted(s.taken[i])
  {
    forall i | 0 <= i < |s.taken| ensures env.judge(s.requests[i]) == Accepted(s.taken[i]) {
      assert s.taken[i] == s.accepted[i];
    }
  }

  /** A receiver that puts into a command what a reply needs to find its way back. */
  ghost predicate Faithful(judge: Publication -> Verdict) {
    forall pub :: judge(pub).Accepted? ==>
      Shaped(judge(pub).cmd) && forall om :: Addressed(judge(pub).cmd, om) ==> Answers(pub, om)
  }

  /** The receiver as coded is one, and so is the one that also stores the payload
      length. */
  lemma ReceiversFaithful(cfg: Config, dec: Decoder, start: Device)
    ensures Faithful(Firmware(cfg, dec, start).judge) && Faithful(pub => JudgeStoring(dec, pub))
  {
    var coded, storing := Firmware(cfg, dec, start).judge, (pub: Publication) => JudgeStoring(dec, pub);
    forall pub, om | Judge(dec, pub).Accepted? && Addressed(Judge(dec, pub).cmd, om) ensures Answers(pub, om) {
      AddressedAnswers(dec, pub, om);
    }
    forall pub | storing(pub).Accepted?
      ensures Shaped(storing(pub).cmd) && forall om :: Addressed(storing(pub).cmd, om) ==> Answers(pub, om)
    {
      assert forall om :: Addressed(storing(pub).cmd, om) ==> Addressed(Judge(dec, pub).cmd, om);
    }
  }

  /** End to end, behind every such receiver: the i-th reply of the executor answers the
      i-th accepted publication, whether it has been handed to the broker, is in the
      outbound queue or still in the executor's hand. It goes to that publication's
      response topic when that is not empty, carries its correlation data exactly when
      that has 1 to 15 bytes, and its payload is NUL-terminated with a truthful length of
      at most 255. */
  lemma RepliesAnswerPublications(cfg: Config, dec: Decoder, judge: Publication -> Verdict, start: Device, steps: seq<Step>, i: nat)
    requires |cfg.names| == |start.states| && Faithful(judge)
    requires Run(FirmwareWith(cfg, dec, judge, start), Init(FirmwareWith(cfg, dec, judge, start)), steps)
    ensures var env := FirmwareWith(cfg, dec, judge, start);
            var t := After(env, Init(env), steps);
            var replies := AllReplies(t);
            i < |replies| ==> i < |t.requests| && Answers(t.requests[i], replies[i]) && Publishable(replies[i])
  {
    var env := FirmwareWith(cfg, dec, judge, start);
    InitInv(env);
    RunKeepsInv(env, Init(env), steps);
    var t := After(env, Init(env), steps);
    TakenAreJudged(env, t);
    if i < |AllReplies(t)| {
      forall j | 0 <= j < |t.taken| ensures Shaped(t.taken[j]) {
        assert judge(t.requests[j]).cmd == t.taken[j];
      }
      ReplyAddressed(cfg, dec, judge, start, t.taken, i);
      assert judge(t.requests[i]).cmd == t.taken[i];
    }
  }

  // ---------- the payload length ----------

  lemma {:induction false} NothingSetNothingMoved(cfg: Config, dec: Decoder, judge: Publication -> Verdict, start: Device, cmds: seq<Command>)
    requires |cfg.names| == |start.states| && AllShaped(cmds) && RefusesEmpty(dec)
    requires forall i :: 0 <= i < |cmds| ==> cmds[i].payloadLen == 0
    ensures DeviceAfter(FirmwareWith(cfg, dec, judge, start), cmds) == start
  {
    if cmds != [] {
      var before := cmds[..|cmds| - 1];
      NothingSetNothingMoved(cfg, dec, judge, start, before);
      EmptyArgumentChangesNothing(cfg, dec, start, cmds[|cmds| - 1]);
    }
  }

  /** The receiver as coded never stores the payload length: what every set handler hands
      to the JSON library is the empty text, whatever the publication held. */
  lemma ArgumentsAlwaysEmpty(cfg: Config, dec: Decoder, start: Device, steps: seq<Step>, i: nat)
    requires Run(Firmware(cfg, dec, start), Init(Firmware(cfg, dec, start)), steps)
    ensures var env := Firmware(cfg, dec, start);
            var taken := After(env, Init(env), steps).taken;
            i < |taken| ==> Shaped(taken[i]) && taken[i].payloadLen == 0 && Argument(taken[i]) == ""
  {
    var env := Firmware(cfg, dec, start);
    InitInv(env);
    RunKeepsInv(env, Init(env), steps);
    var t := After(env, Init(env), steps);
    TakenAreJudged(env, t);
    if i < |t.taken| {
      assert Judge(dec, t.requests[i]).cmd == t.taken[i];
    }
  }

  /** As long as the library refuses that, no run ever moves a switch or turns the power
      on or off: set commands are accepted and answered, and have no effect. */
  lemma SetCommandsHaveNoEffect(cfg: Config, dec: Decoder, start: Device, steps: seq<Step>)
    requires |cfg.names| == |start.states| && RefusesEmpty(dec)
    requires Run(Firmware(cfg, dec, start), Init(Firmware(cfg, dec, start)), steps)
    ensures After(Firmware(cfg, dec, start), Init(Firmware(cfg, dec, start)), steps).device == start
  {
    var env := Firmware(cfg, dec, start);
    var t := After(env, Init(env), steps);
    SequentialRefinement(env, steps);
    forall i | 0 <= i < |t.taken| ensures Shaped(t.taken[i]) && t.taken[i].payloadLen == 0 {
      ArgumentsAlwaysEmpty(cfg, dec, start, steps, i);
    }
    NothingSetNothingMoved(cfg, dec, env.judge, start, t.taken);
  }

  // ---------- every reply can be published ----------

  lemma RefusalsPublishable(cmd: Command)
    requires Shaped(cmd)
    ensures Publishable(InvalidReply()) && Publishable(BusyReply(cmd)) && Addressed(cmd, BusyReply(cmd))
  {
    ReplyAddressing(BlankCommand(), RESP_ERROR, INVALID_TEXT);
    ReplyAddressing(cmd, RESP_ERROR, BUSY_TEXT);
  }

  lemma FirmwareReplies(cfg: Config, dec: Decoder, judge: Publication -> Verdict, start: Device, dev: Device, cmd: Command)
    ensures Publishable(FirmwareWith(cfg, dec, judge, start).refusal)
    ensures Publishable(FirmwareWith(cfg, dec, judge, start).busy(cmd))
    ensures Publishable(FirmwareWith(cfg, dec, judge, start).handle(dev, cmd).1)
  {
    RefusalsPublishable(BlankCommand());
    if Shaped(cmd) {
      RefusalsPublishable(cmd);
      if |dev.states| == |cfg.names| {
        HandledReply(cfg, dec, judge, start, dev, cmd);
      }
    }
  }

  ghost predicate QueuePublishable(q: seq<Outgoing>) {
    forall i :: 0 <= i < |q| && !q[i].origin.Sampler? ==> Publishable(q[i].om)
  }

  ghost predicate AllPublishable(s: State) {
    && QueuePublishable(s.outbound) && QueuePublishable(s.published)
    && (s.exec.Holding? ==> Publishable(s.exec.om))
    && (s.main.Refusing? ==> Publishable(s.main.om))
  }

  /** The environment's replies can all be published. */
  ghost predicate RepliesPublishable(env: Env) {
    && Publishable(env.refusal)
    && (forall cmd :: Publishable(env.busy(cmd)))
    && (forall dev, cmd :: Publishable(env.handle(dev, cmd).1))
  }

  lemma StepKeepsPublishable(env: Env, s: State, step: Step)
    requires RepliesPublishable(env) && AllPublishable(s) && Enabled(s, step)
    ensures AllPublishable(Apply(env, s, step))
  {
  }

  lemma {:induction false} RunKeepsPublishable(env: Env, s: State, steps: seq<Step>)
    requires RepliesPublishable(env) && AllPublishable(s) && Run(env, s, steps)
    ensures AllPublishable(After(env, s, steps))
    decreases |steps|
  {
    if steps != [] {
      StepKeepsPublishable(env, s, steps[0]);
      RunKeepsPublishable(env, Apply(env, s, steps[0]), steps[1..]);
    }
  }

  lemma FirmwareRepliesPublishable(cfg: Config, dec: Decoder, judge: Publication -> Verdict, start: Device)
    ensures RepliesPublishable(FirmwareWith(cfg, dec, judge, start))
  {
    var env := FirmwareWith(cfg, dec, judge, start);
    FirmwareReplies(cfg, dec, judge, start, start, BlankCommand());
    forall cmd ensures Publishable(env.busy(cmd)) {
      FirmwareReplies(cfg, dec, judge, start, start, cmd);
    }
    forall dev, cmd ensures Publishable(env.handle(dev, cmd).1) {
      FirmwareReplies(cfg, dec, judge, start, dev, cmd);
    }
  }

  /** In every run every reply and every refusal, wherever it is, is NUL-terminated with a
      truthful length of at most 255 and has a topic. */
  lemma EveryReplyPublishable(cfg: Config, dec: Decoder, judge: Publication -> Verdict, start: Device, steps: seq<Step>)
    requires Run(FirmwareWith(cfg, dec, judge, start), Init(FirmwareWith(cfg, dec, judge, start)), steps)
    ensures AllPublishable(After(FirmwareWith(cfg, dec, judge, start), Init(FirmwareWith(cfg, dec, judge, start)), steps))
  {
    FirmwareRepliesPublishable(cfg, dec, judge, start);
    RunKeepsPublishable(FirmwareWith(cfg, dec, judge, start), Init(FirmwareWith(cfg, dec, judge, start)), steps);
  }
}
