/** What happens in every run to the messages with which the receiver refuses a
    publication, and whom they reach. */
module RefusalRuns {
  import opened CText
  import opened Sequences
  import opened Messages
  import opened Dispatch
  import opened Receiving
  import opened Pipeline
  import opened CommandRuns
  import FirmwareRuns

  /** A refusal and the publication it is due to. */
  datatype Due = Due(pub: Publication, om: OutMsg)

  /** What a step owes: a refusal of a publication that is not accepted or finds the
      inbound queue full. */
  function DueBy(env: Env, s: State, step: Step): seq<Due> {
    match step
    case Receive(pub) =>
      (match env.judge(pub)
       case Ignored => []
       case Refused => [Due(pub, env.refusal)]
       case Accepted(cmd) => if |s.inbound| < INBOUND_DEPTH then [] else [Due(pub, env.busy(cmd))])
    case _ => []
  }

  /** What a run owes, in the order of the publications. */
  function DueIn(env: Env, s: State, steps: seq<Step>): seq<Due>
    requires Run(env, s, steps)
    decreases |steps|
  {
    if steps == [] then [] else DueBy(env, s, steps[0]) + DueIn(env, Apply(env, s, steps[0]), steps[1..])
  }

  function Texts(due: seq<Due>): (oms: seq<OutMsg>)
    ensures |oms| == |due|
  {
    seq(|due|, i requires 0 <= i < |due| => due[i].om)
  }

  /** The refusals there are: handed to the broker, waiting, in main's hand. */
  ghost function Refusals(s: State): seq<OutMsg> {
    MessagesFrom(s.published, Receiver) + MessagesFrom(s.outbound, Receiver) + if s.main.Refusing? then [s.main.om] else []
  }

  lemma DueGrows(there: seq<OutMsg>, log: seq<Due>, due: Due)
    requires Within(there, Texts(log))
    ensures Within(there, Texts(log + [due])) && Within(there + [due.om], Texts(log + [due]))
  {
    assert Texts(log + [due]) == Texts(log) + [due.om];
    WithinGrows(there, Texts(log), due.om);
  }

  lemma ReceiveKeepsDue(env: Env, s: State, pub: Publication, log: seq<Due>)
    requires Within(Refusals(s), Texts(log)) && Enabled(s, Receive(pub))
    ensures Within(Refusals(Apply(env, s, Receive(pub))), Texts(log + DueBy(env, s, Receive(pub))))
  {
    var there := MessagesFrom(s.published, Receiver) + MessagesFrom(s.outbound, Receiver);
    assert Refusals(s) == there + [] == there;
    match env.judge(pub)
    case Ignored => assert log + [] == log;
    case Refused => DueGrows(there, log, Due(pub, env.refusal));
    case Accepted(cmd) =>
      if |s.inbound| < INBOUND_DEPTH {
        assert log + [] == log;
      } else {
        DueGrows(there, log, Due(pub, env.busy(cmd)));
      }
  }

  lemma SendKeepsDue(env: Env, s: State, owed: seq<OutMsg>)
    requires Within(Refusals(s), owed) && Enabled(s, SendRefusal)
    ensures Within(Refusals(Apply(env, s, SendRefusal)), owed)
  {
    var there := MessagesFrom(s.published, Receiver) + MessagesFrom(s.outbound, Receiver);
    assert there + [] == there;
    WithinShrinks(there, s.main.om, owed);
    MessagesGrow(s.published, s.outbound, Outgoing(s.main.om, Receiver), Receiver);
    var t := Apply(env, s, SendRefusal);
    var after := MessagesFrom(t.published, Receiver) + MessagesFrom(t.outbound, Receiver);
    assert Refusals(t) == after + [] == after;
    assert Refusals(s) == there + [s.main.om];
  }

  /** The other steps leave the refusals as they are. */
  lemma OthersKeepRefusals(env: Env, s: State, step: Step)
    requires Enabled(s, step) && !step.Receive? && !step.SendRefusal?
    ensures Refusals(Apply(env, s, step)) == Refusals(s)
  {
    var there := MessagesFrom(s.published, Receiver) + MessagesFrom(s.outbound, Receiver);
    assert there + [] == there;
    match step
    case Publish => MessagesMoveOn(s.published, s.outbound, Receiver);
    case PutReply => MessagesGrow(s.published, s.outbound, Outgoing(s.exec.om, Executor), Receiver);
    case MovePut => MessagesGrow(s.published, s.outbound, Outgoing(s.work.sample.om, Sampler(s.work.sample.id)), Receiver);
    case _ =>
  }

  lemma StepKeepsDue(env: Env, s: State, step: Step, log: seq<Due>)
    requires Within(Refusals(s), Texts(log)) && Enabled(s, step)
    ensures Within(Refusals(Apply(env, s, step)), Texts(log + DueBy(env, s, step)))
  {
    assert !step.Receive? ==> log + DueBy(env, s, step) == log;
    match step
    case Receive(pub) => ReceiveKeepsDue(env, s, pub, log);
    case SendRefusal => SendKeepsDue(env, s, Texts(log));
    case _ => OthersKeepRefusals(env, s, step);
  }

  lemma {:induction false} RunKeepsDue(env: Env, s: State, steps: seq<Step>, log: seq<Due>)
    requires Within(Refusals(s), Texts(log)) && Run(env, s, steps)
    ensures Within(Refusals(After(env, s, steps)), Texts(log + DueIn(env, s, steps)))
    decreases |steps|
  {
    if steps == [] {
      assert log + [] == log;
    } else {
      var due := DueBy(env, s, steps[0]);
      StepKeepsDue(env, s, steps[0], log);
      RunKeepsDue(env, Apply(env, s, steps[0]), steps[1..], log + due);
      Assoc(log, due, DueIn(env, Apply(env, s, steps[0]), steps[1..]));
    }
  }

  /** In every run the refusals there are, from the broker's end of the queue to main's
      hand, come from different publications and in their order: none is made up,
      doubled or overtaken. */
  lemma RefusalsAreDue(env: Env, steps: seq<Step>)
    requires Run(env, Init(env), steps)
    ensures Within(Refusals(After(env, Init(env), steps)), Texts(DueIn(env, Init(env), steps)))
  {
    assert [] + DueIn(env, Init(env), steps) == DueIn(env, Init(env), steps);
    RunKeepsDue(env, Init(env), steps, []);
  }

  // ---------- refusals that are dropped ----------

  /** The refusal that finds the outbound queue full. */
  function DroppedBy(s: State, step: Step): seq<OutMsg> {
    if step.SendRefusal? && s.main.Refusing? && |s.outbound| >= OUTBOUND_DEPTH then [s.main.om] else []
  }

  function DroppedIn(env: Env, s: State, steps: seq<Step>): seq<OutMsg>
    requires Run(env, s, steps)
    decreases |steps|
  {
    if steps == [] then [] else DroppedBy(s, steps[0]) + DroppedIn(env, Apply(env, s, steps[0]), steps[1..])
  }

  lemma TextsAppend(a: seq<Due>, b: seq<Due>)
    ensures Texts(a + b) == Texts(a) + Texts(b)
  {
  }

  lemma ReceiveBalances(env: Env, s: State, pub: Publication)
    requires Enabled(s, Receive(pub))
    ensures Refusals(Apply(env, s, Receive(pub))) == Refusals(s) + Texts(DueBy(env, s, Receive(pub)))
  {
    var there := MessagesFrom(s.published, Receiver) + MessagesFrom(s.outbound, Receiver);
    assert there + [] == there;
  }

  lemma SendBalances(env: Env, s: State)
    requires Enabled(s, SendRefusal)
    ensures Refusals(Apply(env, s, SendRefusal)) + DroppedBy(s, SendRefusal) == Refusals(s)
  {
    var there := MessagesFrom(s.published, Receiver) + MessagesFrom(s.outbound, Receiver);
    assert there + [] == there;
    MessagesGrow(s.published, s.outbound, Outgoing(s.main.om, Receiver), Receiver);
    var t := Apply(env, s, SendRefusal);
    var after := MessagesFrom(t.published, Receiver) + MessagesFrom(t.outbound, Receiver);
    assert Refusals(t) == after + [] == after;
    assert after + [] == after;
  }

  /** A step adds what it owes and takes away what it drops. */
  lemma StepBalances(env: Env, s: State, step: Step)
    requires Enabled(s, step)
    ensures multiset(Refusals(Apply(env, s, step))) + multiset(DroppedBy(s, step)) ==
            multiset(Refusals(s)) + multiset(Texts(DueBy(env, s, step)))
  {
    assert !step.Receive? ==> Texts(DueBy(env, s, step)) == [];
    match step
    case Receive(pub) => ReceiveBalances(env, s, pub);
    case SendRefusal => SendBalances(env, s);
    case _ => OthersKeepRefusals(env, s, step);
  }

  lemma BalancesAdd(before: multiset<OutMsg>, between: multiset<OutMsg>, after: multiset<OutMsg>,
                    dropped: multiset<OutMsg>, more: multiset<OutMsg>, owed: multiset<OutMsg>, further: multiset<OutMsg>)
    requires between + dropped == before + owed && after + more == between + further
    ensures after + (dropped + more) == before + (owed + further)
  {
    assert after + (dropped + more) == (after + more) + dropped;
    assert between + further + dropped == (between + dropped) + further;
    assert before + owed + further == before + (owed + further);
  }

  lemma {:induction false} RunBalances(env: Env, s: State, steps: seq<Step>)
    requires Run(env, s, steps)
    ensures multiset(Refusals(After(env, s, steps))) + multiset(DroppedIn(env, s, steps)) ==
            multiset(Refusals(s)) + multiset(Texts(DueIn(env, s, steps)))
    decreases |steps|
  {
    if steps == [] {
      assert Texts([]) == [];
    } else {
      var t := Apply(env, s, steps[0]);
      StepBalances(env, s, steps[0]);
      RunBalances(env, t, steps[1..]);
      var owed, further := DueBy(env, s, steps[0]), DueIn(env, t, steps[1..]);
      TextsAppend(owed, further);
      var dropped, more := DroppedBy(s, steps[0]), DroppedIn(env, t, steps[1..]);
      assert multiset(dropped + more) == multiset(dropped) + multiset(more);
      assert multiset(Texts(owed + further)) == multiset(Texts(owed)) + multiset(Texts(further));
      BalancesAdd(multiset(Refusals(s)), multiset(Refusals(t)), multiset(Refusals(After(env, t, steps[1..]))),
                  multiset(dropped), multiset(more), multiset(Texts(owed)), multiset(Texts(further)));
    }
  }

  /** Conservation: in every run each refusal owed is in main's hand, waiting, handed to the
      broker or dropped because the queue was full, exactly once. */
  lemma RefusalsConserved(env: Env, steps: seq<Step>)
    requires Run(env, Init(env), steps)
    ensures multiset(Texts(DueIn(env, Init(env), steps))) ==
            multiset(Refusals(After(env, Init(env), steps))) + multiset(DroppedIn(env, Init(env), steps))
  {
    RunBalances(env, Init(env), steps);
  }

  // ---------- whom refusals reach ----------

  /** What a refusal is, and whom it reaches. */
  ghost predicate DueRight(judge: Publication -> Verdict, due: Due) {
    match judge(due.pub)
    case Ignored => false
    case Refused => due.om == InvalidReply()
    case Accepted(cmd) => Shaped(cmd) && due.om == BusyReply(cmd) && Answers(due.pub, due.om)
  }

  lemma {:induction false} DueInRight(cfg: Config, dec: Decoder, judge: Publication -> Verdict, start: Device,
                                      s: State, steps: seq<Step>, i: nat)
    requires FirmwareRuns.Faithful(judge) && Run(FirmwareWith(cfg, dec, judge, start), s, steps)
    ensures var due := DueIn(FirmwareWith(cfg, dec, judge, start), s, steps);
            i < |due| ==> DueRight(judge, due[i]) && Receive(due[i].pub) in steps
    decreases |steps|
  {
    if steps != [] {
      var env := FirmwareWith(cfg, dec, judge, start);
      var now := DueBy(env, s, steps[0]);
      if i < |now| {
        var v := judge(now[0].pub);
        if v.Accepted? {
          FirmwareRuns.RefusalsPublishable(v.cmd);
        }
      } else {
        DueInRight(cfg, dec, judge, start, Apply(env, s, steps[0]), steps[1..], i - |now|);
      }
    }
  }

  /** In every run of the firmware behind a faithful receiver: the i-th refusal, wherever
      it is, is due to a publication that the run received, no two to the same receipt and
      in their order. It is the answer to an invalid request, or the busy reply, and the
      latter is addressed to its publication. */
  lemma RefusalsTraced(cfg: Config, dec: Decoder, judge: Publication -> Verdict, start: Device, steps: seq<Step>)
    returns (at: seq<nat>)
    requires FirmwareRuns.Faithful(judge)
    requires Run(FirmwareWith(cfg, dec, judge, start), Init(FirmwareWith(cfg, dec, judge, start)), steps)
    ensures var env := FirmwareWith(cfg, dec, judge, start);
            var there, due := Refusals(After(env, Init(env), steps)), DueIn(env, Init(env), steps);
            && |at| == |there|
            && (forall i, j :: 0 <= i < j < |at| ==> at[i] < at[j])
            && (forall i :: 0 <= i < |at| ==>
                  at[i] < |due| && there[i] == due[at[i]].om && DueRight(judge, due[at[i]]) && Receive(due[at[i]].pub) in steps)
  {
    var env := FirmwareWith(cfg, dec, judge, start);
    var there, due := Refusals(After(env, Init(env), steps)), DueIn(env, Init(env), steps);
    RefusalsAreDue(env, steps);
    at := WithinPlaces(there, Texts(due));
    forall i | 0 <= i < |at| ensures DueRight(judge, due[at[i]]) && Receive(due[at[i]].pub) in steps {
      DueInRight(cfg, dec, judge, start, Init(env), steps, at[i]);
    }
  }

  /** What the two refusals say, and where they go. */
  lemma RefusalTexts(cmd: Command)
    requires Shaped(cmd)
    ensures var om := InvalidReply();
            om.msgType == RESP_ERROR && TextOf(om.topic) == "cmd/hsfib-tib/resp" && om.corrLen == 0
            && TextOf(om.payload) == "{\"error\":" + "\"Invalid or unrecognized command\"}"
    ensures var om := BusyReply(cmd);
            Addressed(cmd, om) && om.msgType == RESP_ERROR && TextOf(om.payload) == "{\"error\":\"busy\"}"
  {
    ReplyAddressing(BlankCommand(), RESP_ERROR, INVALID_TEXT);
    IndexOfIs(BlankCommand().responseTopic, NUL, 0);
    ReplyAddressing(cmd, RESP_ERROR, BUSY_TEXT);
  }

  /** The answer to an invalid request reaches its sender exactly if that asked for no
      other topic than the default one and for no correlation data: the receiver has not
      looked at either when it refuses. */
  lemma RefusalReachesSender(pub: Publication)
    ensures Answers(pub, InvalidReply()) <==>
            && pub.responseTopic.Some? && TextOf(pub.responseTopic.value) in {"", DEFAULT_TOPIC}
            && KeptCorrelation(pub.correlation) == []
  {
    ReplyAddressing(BlankCommand(), RESP_ERROR, INVALID_TEXT);
    IndexOfIs(BlankCommand().responseTopic, NUL, 0);
  }

  /** For example not if a request without a key asks for an answer on the topic "r". */
  lemma RefusalMissesSender(dec: Decoder)
    ensures var pub := Publication(COMMAND_PREFIX, "", Some("r"), []);
            Judge(dec, pub) == Refused && !Answers(pub, InvalidReply())
  {
    var pub := Publication(COMMAND_PREFIX, "", Some("r"), []);
    assert pub.topic[|COMMAND_PREFIX|..] == "";
    assert IndexOf("r", NUL) == 1;
    RefusalReachesSender(pub);
  }
}
