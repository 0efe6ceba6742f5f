/** What holds of commands and replies in every run of the firmware. */
module CommandRuns {
  import opened Sequences
  import opened Messages
  import opened Dispatch
  import opened Receiving
  import opened Pipeline

  // ---------- the sequential interpreter ----------

  /** The device after the commands, one after the other, with nothing in between. */
  function DeviceAfter(env: Env, cmds: seq<Command>): Device {
    if cmds == [] then env.start
    else env.handle(DeviceAfter(env, cmds[..|cmds| - 1]), cmds[|cmds| - 1]).0
  }

  /** The replies to the commands, in order. */
  function RepliesTo(env: Env, cmds: seq<Command>): (replies: seq<OutMsg>)
    ensures |replies| == |cmds|
  {
    if cmds == [] then []
    else
      var before := cmds[..|cmds| - 1];
      RepliesTo(env, before) + [env.handle(DeviceAfter(env, before), cmds[|cmds| - 1]).1]
  }

  lemma InterpreterSnoc(env: Env, cmds: seq<Command>, cmd: Command)
    ensures DeviceAfter(env, cmds + [cmd]) == env.handle(DeviceAfter(env, cmds), cmd).0
    ensures RepliesTo(env, cmds + [cmd]) == RepliesTo(env, cmds) + [env.handle(DeviceAfter(env, cmds), cmd).1]
  {
    assert (cmds + [cmd])[..|cmds|] == cmds;
  }

  // ---------- the invariant ----------

  /** The messages with one origin among queued or published ones. */
  function MessagesFrom(q: seq<Outgoing>, who: Origin): seq<OutMsg> {
    if q == [] then []
    else
      var last := q[|q| - 1];
      MessagesFrom(q[..|q| - 1], who) + if last.origin == who then [last.om] else []
  }

  lemma MessagesFromSnoc(q: seq<Outgoing>, out: Outgoing, who: Origin)
    ensures MessagesFrom(q + [out], who) == MessagesFrom(q, who) + if out.origin == who then [out.om] else []
  {
    assert (q + [out])[..|q|] == q;
  }

  lemma {:induction false} MessagesFromHead(q: seq<Outgoing>, who: Origin)
    requires q != []
    ensures MessagesFrom(q, who) == (if q[0].origin == who then [q[0].om] else []) + MessagesFrom(q[1..], who)
  {
    if |q| == 1 {
      assert q[..0] == [] && q[1..] == [];
    } else {
      var front, last := q[..|q| - 1], q[|q| - 1];
      MessagesFromHead(front, who);
      assert q[1..] == front[1..] + [last];
      MessagesFromSnoc(front[1..], last, who);
      Assoc(if q[0].origin == who then [q[0].om] else [], MessagesFrom(front[1..], who), if last.origin == who then [last.om] else []);
    }
  }

  /** The executor's replies among queued or published messages. */
  function ExecutorReplies(q: seq<Outgoing>): seq<OutMsg> {
    MessagesFrom(q, Executor)
  }

  /** All the executor has answered, oldest first: handed to the broker, waiting in the
      outbound queue, in the executor's hand. */
  ghost function AllReplies(s: State): seq<OutMsg> {
    ExecutorReplies(s.published) + ExecutorReplies(s.outbound) + if s.exec.Holding? then [s.exec.om] else []
  }

  /** Commands: in acceptance order, first those the executor took, then those waiting. */
  ghost predicate Ordered(s: State) {
    s.accepted == s.taken + s.inbound
  }

  /** Each accepted command stems from a publication of its own, in order. */
  ghost predicate Traced(env: Env, s: State) {
    && |s.requests| == |s.accepted|
    && forall i :: 0 <= i < |s.accepted| ==> env.judge(s.requests[i]) == Accepted(s.accepted[i])
  }

  /** The device is where the sequential interpreter would have it, and the replies are
      the interpreter's replies. */
  ghost predicate Refines(env: Env, s: State) {
    && s.device == DeviceAfter(env, s.taken)
    && AllReplies(s) == RepliesTo(env, s.taken)
  }

  ghost predicate Inv(env: Env, s: State) {
    Ordered(s) && Traced(env, s) && Refines(env, s)
  }

  lemma InitInv(env: Env)
    ensures Inv(env, Init(env))
  {
  }

  /** Moving the first message of the outbound queue to the broker. */
  lemma MessagesMoveOn(published: seq<Outgoing>, outbound: seq<Outgoing>, who: Origin)
    requires outbound != []
    ensures MessagesFrom(published + [outbound[0]], who) + MessagesFrom(outbound[1..], who) ==
            MessagesFrom(published, who) + MessagesFrom(outbound, who)
  {
    MessagesFromHead(outbound, who);
    MessagesFromSnoc(published, outbound[0], who);
    Assoc(MessagesFrom(published, who), if outbound[0].origin == who then [outbound[0].om] else [], MessagesFrom(outbound[1..], who));
  }

  /** Adding a message to the outbound queue. */
  lemma MessagesGrow(published: seq<Outgoing>, outbound: seq<Outgoing>, out: Outgoing, who: Origin)
    ensures MessagesFrom(published, who) + MessagesFrom(outbound + [out], who) ==
            MessagesFrom(published, who) + MessagesFrom(outbound, who) + if out.origin == who then [out.om] else []
  {
    MessagesFromSnoc(outbound, out, who);
    Assoc(MessagesFrom(published, who), MessagesFrom(outbound, who), if out.origin == who then [out.om] else []);
  }

  lemma TakeKeepsOrder(env: Env, s: State)
    requires Ordered(s) && Traced(env, s) && Enabled(s, Take)
    ensures Ordered(Apply(env, s, Take)) && Traced(env, Apply(env, s, Take))
  {
    Assoc(s.taken, [s.inbound[0]], s.inbound[1..]);
    assert s.inbound == [s.inbound[0]] + s.inbound[1..];
  }

  /** One more command for the sequential interpreter. */
  lemma TakeKeepsRefines(env: Env, s: State)
    requires Refines(env, s) && Enabled(s, Take)
    ensures Refines(env, Apply(env, s, Take))
  {
    InterpreterSnoc(env, s.taken, s.inbound[0]);
    var replies := ExecutorReplies(s.published) + ExecutorReplies(s.outbound);
    assert replies + [] == replies;
  }

  lemma TakeKeepsInv(env: Env, s: State)
    requires Inv(env, s) && Enabled(s, Take)
    ensures Inv(env, Apply(env, s, Take))
  {
    TakeKeepsOrder(env, s);
    TakeKeepsRefines(env, s);
  }

  lemma PutReplyKeepsInv(env: Env, s: State)
    requires Inv(env, s) && Enabled(s, PutReply)
    ensures Inv(env, Apply(env, s, PutReply))
  {
    MessagesGrow(s.published, s.outbound, Outgoing(s.exec.om, Executor), Executor);
  }

  lemma PublishKeepsInv(env: Env, s: State)
    requires Inv(env, s) && Enabled(s, Publish)
    ensures Inv(env, Apply(env, s, Publish))
  {
    MessagesMoveOn(s.published, s.outbound, Executor);
  }

  lemma ReceiveKeepsInv(env: Env, s: State, pub: Publication)
    requires Inv(env, s) && Enabled(s, Receive(pub))
    ensures Inv(env, Apply(env, s, Receive(pub)))
  {
    var v := env.judge(pub);
    if v.Accepted? {
      Assoc(s.taken, s.inbound, [v.cmd]);
    }
  }

  lemma SendRefusalKeepsInv(env: Env, s: State)
    requires Inv(env, s) && Enabled(s, SendRefusal)
    ensures Inv(env, Apply(env, s, SendRefusal))
  {
    MessagesGrow(s.published, s.outbound, Outgoing(s.main.om, Receiver), Executor);
    var replies := ExecutorReplies(s.published) + ExecutorReplies(s.outbound);
    assert replies + [] == replies;
  }

  lemma MovePutKeepsInv(env: Env, s: State)
    requires Inv(env, s) && Enabled(s, MovePut)
    ensures Inv(env, Apply(env, s, MovePut))
  {
    MessagesGrow(s.published, s.outbound, Outgoing(s.work.sample.om, Sampler(s.work.sample.id)), Executor);
    var replies := ExecutorReplies(s.published) + ExecutorReplies(s.outbound);
    assert replies + [] == replies;
  }

  lemma StepKeepsInv(env: Env, s: State, step: Step)
    requires Inv(env, s) && Enabled(s, step)
    ensures Inv(env, Apply(env, s, step))
  {
    match step
    case Take => TakeKeepsInv(env, s);
    case PutReply => PutReplyKeepsInv(env, s);
    case Publish => PublishKeepsInv(env, s);
    case Receive(pub) => ReceiveKeepsInv(env, s, pub);
    case SendRefusal => SendRefusalKeepsInv(env, s);
    case MovePut => MovePutKeepsInv(env, s);
    case _ =>
  }

  lemma {:induction false} RunKeepsInv(env: Env, s: State, steps: seq<Step>)
    requires Inv(env, s) && Run(env, s, steps)
    ensures Inv(env, After(env, s, steps))
    decreases |steps|
  {
    if steps != [] {
      StepKeepsInv(env, s, steps[0]);
      RunKeepsInv(env, Apply(env, s, steps[0]), steps[1..]);
    }
  }

  // ---------- what follows for every run ----------

  /** Sequential refinement, for every interleaving: the device is where running the
      commands taken so far one after the other, in acceptance order, would leave it,
      and the replies that exist are exactly the replies of that sequential run, in its
      order, each once, from the broker's end of the queue to the executor's hand. */
  lemma SequentialRefinement(env: Env, steps: seq<Step>)
    requires Run(env, Init(env), steps)
    ensures var t := After(env, Init(env), steps);
            && t.taken <= t.accepted
            && t.device == DeviceAfter(env, t.taken)
            && ExecutorReplies(t.published) + ExecutorReplies(t.outbound) +
               (if t.exec.Holding? then [t.exec.om] else []) == RepliesTo(env, t.taken)
  {
    InitInv(env);
    RunKeepsInv(env, Init(env), steps);
  }

  /** Conservation, connected or not: every accepted command is waiting, or has exactly
      one reply, which is in the executor's hand, in the outbound queue, or handed to
      the broker. */
  lemma NoReplyLostOrDoubled(env: Env, steps: seq<Step>)
    requires Run(env, Init(env), steps)
    ensures var t := After(env, Init(env), steps);
            |t.accepted| == |t.inbound| + (if t.exec.Holding? then 1 else 0) +
                            |ExecutorReplies(t.outbound)| + |ExecutorReplies(t.published)|
  {
    InitInv(env);
    RunKeepsInv(env, Init(env), steps);
  }
}
