/** The thread bodies as loops over the queues. Each loop is proved against a plain
    description of what it leaves in the queues, and each such description is shown to
    be what the steps of module Pipeline do when no other thread comes in between. */
module Threads {
  import opened CText
  import opened Sequences
  import opened MsgQueues
  import opened Messages
  import opened Dispatch
  import opened Receiving
  import opened Pipeline
  import opened Instruments

  // ---------- executor ----------

  /** One turn of the executor's loop, at a moment when neither wait takes time. */
  method ExecutorTurn(dec: Decoder, instrument: Instrument, inbound: MsgQueue<Command>, outbound: MsgQueue<Outgoing>)
    requires inbound.Valid() && outbound.Valid() && instrument.Valid() && inbound as object != outbound as object
    requires inbound.items != [] && |outbound.items| < outbound.depth && Shaped(inbound.items[0])
    modifies inbound`items, outbound`items, instrument`power, instrument.port, instrument.router.switches
    ensures inbound.Valid() && outbound.Valid() && instrument.Valid()
    ensures var env := Firmware(old(instrument.Cfg()), dec, old(instrument.Dev()));
            var (device, reply) := env.handle(old(instrument.Dev()), old(inbound.items[0]));
            && inbound.items == old(inbound.items)[1..]
            && outbound.items == old(outbound.items) + [Outgoing(reply, Executor)]
            && instrument.Dev() == device
  {
    var cmd := inbound.Get();
    var om := instrument.DispatchCommand(dec, cmd);
    outbound.Put(Outgoing(om, Executor));
  }

  /** The same two steps of the machine. */
  lemma ExecutorTurnIsRun(env: Env, s: State)
    requires s.exec == Waiting && s.inbound != [] && |s.outbound| < OUTBOUND_DEPTH
    ensures Run(env, s, [Take, PutReply])
    ensures var t := After(env, s, [Take, PutReply]);
            var (device, reply) := env.handle(s.device, s.inbound[0]);
            t.inbound == s.inbound[1..] && t.outbound == s.outbound + [Outgoing(reply, Executor)] && t.device == device
  {
    var u := Apply(env, s, Take);
    assert [Take, PutReply][1..] == [PutReply] && [PutReply][1..] == [];
    assert Run(env, Apply(env, u, PutReply), []);
    assert Run(env, u, [PutReply]) && After(env, u, [PutReply]) == Apply(env, u, PutReply);
  }

  // ---------- photodiode thread ----------

  /** The put, purge, retry loop. */
  method PutNewest(queue: MsgQueue<Sample>, sample: Sample)
    requires queue.Valid() && queue.depth > 0
    modifies queue`items
    ensures queue.Valid()
    ensures queue.items == (if |old(queue.items)| < queue.depth then old(queue.items) else []) + [sample]
  {
    var rc := queue.PutNoWait(sample);
    while rc != 0
      invariant queue.Valid()
      invariant rc == 0 ==>
                  queue.items == (if |old(queue.items)| < queue.depth then old(queue.items) else []) + [sample]
      invariant rc != 0 ==> queue.items == old(queue.items) && |queue.items| >= queue.depth
      decreases if rc != 0 then 1 else 0
    {
      queue.Purge();
      rc := queue.PutNoWait(sample);
    }
  }

  /** Without interference the loop is one put, or a put that fails, a purge and a put. */
  lemma PutNewestIsRun(env: Env, s: State)
    requires s.photodiode.Putting?
    ensures var steps := if |s.samples| < PHOTODIODE_DEPTH then [PutSample] else [PutFails, Purge, PutSample];
            && Run(env, s, steps)
            && After(env, s, steps).samples ==
               (if |s.samples| < PHOTODIODE_DEPTH then s.samples else []) + [s.photodiode.sample]
            && After(env, s, steps).photodiode == Resting
  {
    if |s.samples| < PHOTODIODE_DEPTH {
      assert Run(env, Apply(env, s, PutSample), []);
      assert [PutSample][1..] == [];
    } else {
      var u := Apply(env, s, PutFails);
      var v := Apply(env, u, Purge);
      var w := Apply(env, v, PutSample);
      assert [PutFails, Purge, PutSample][1..] == [Purge, PutSample] && [Purge, PutSample][1..] == [PutSample] && [PutSample][1..] == [];
      assert Run(env, w, []) && After(env, w, []) == w;
      assert Run(env, v, [PutSample]) && After(env, v, [PutSample]) == w;
      assert Run(env, u, [Purge, PutSample]) && After(env, u, [Purge, PutSample]) == w;
    }
  }

  // ---------- receive callback ----------

  /** The receive callback is one receive step, followed by the offer of a refusal when
      there is one; it has the effect that MqttCommandHandler is proved to have. */
  lemma CallbackIsRun(env: Env, s: State, pub: Publication)
    requires s.main == Processing
    ensures var v, room := env.judge(pub), |s.inbound| < INBOUND_DEPTH;
            var refusing := v.Refused? || (v.Accepted? && !room);
            var steps := if refusing then [Receive(pub), SendRefusal] else [Receive(pub)];
            && Run(env, s, steps)
            && var t := After(env, s, steps);
               && t.main == Processing
               && t.inbound == s.inbound + (if v.Accepted? && room then [v.cmd] else [])
               && t.outbound == if v.Refused? then Offered(s.outbound, OUTBOUND_DEPTH, env.refusal)
                                else if refusing then Offered(s.outbound, OUTBOUND_DEPTH, env.busy(v.cmd))
                                else s.outbound
  {
    var u := Apply(env, s, Receive(pub));
    assert [Receive(pub), SendRefusal][1..] == [SendRefusal] && [SendRefusal][1..] == [] && [Receive(pub)][1..] == [];
    assert Run(env, u, []) && After(env, u, []) == u;
    if u.main.Refusing? {
      var w := Apply(env, u, SendRefusal);
      assert Run(env, w, []) && After(env, w, []) == w;
      assert Run(env, u, [SendRefusal]) && After(env, u, [SendRefusal]) == w;
    }
  }

  // ---------- publish work item ----------

  function Tagged(samples: seq<Sample>): (q: seq<Outgoing>)
    ensures |q| == |samples|
  {
    seq(|samples|, i requires 0 <= i < |samples| => Outgoing(samples[i].om, Sampler(samples[i].id)))
  }

  /** How many of the samples find room. */
  function Room(outbound: seq<Outgoing>, depth: nat, samples: seq<Sample>): (n: nat)
    ensures n <= |samples|
  {
    if |outbound| >= depth then 0 else Min(|samples|, depth - |outbound|)
  }

  /** The outbound queue, and what was dropped, after the first i samples, when n find
      room. */
  function Moved(outbound: seq<Outgoing>, all: seq<Sample>, n: nat, i: nat): seq<Outgoing>
    requires i <= |all|
  {
    outbound + Tagged(all[..Min(i, n)])
  }

  function Left(all: seq<Sample>, n: nat, i: nat): seq<Sample>
    requires i <= |all|
  {
    if i <= n then [] else all[n..i]
  }

  lemma TurnOfPublish(all: seq<Sample>, n: nat, i: nat, outbound: seq<Outgoing>, depth: nat)
    requires i < |all| && n == Room(outbound, depth, all) && |outbound| <= depth
    ensures i < n <==> |Moved(outbound, all, n, i)| < depth
    ensures Moved(outbound, all, n, i + 1) ==
            Moved(outbound, all, n, i) + if i < n then [Outgoing(all[i].om, Sampler(all[i].id))] else []
    ensures Left(all, n, i + 1) == Left(all, n, i) + if i < n then [] else [all[i]]
  {
    if i < n {
      assert Tagged(all[..i + 1]) == Tagged(all[..i]) + [Outgoing(all[i].om, Sampler(all[i].id))];
    } else {
      assert Moved(outbound, all, n, i) + [] == Moved(outbound, all, n, i);
      assert all[n..i + 1] == (if i == n then [] else all[n..i]) + [all[i]];
    }
  }

  /** One run of the work item's loop: the oldest samples are moved over while there is
      room, in order, and the others are dropped. */
  method PhotodiodePublish(samples: MsgQueue<Sample>, outbound: MsgQueue<Outgoing>) returns (ghost dropped: seq<Sample>)
    requires samples.Valid() && outbound.Valid() && samples as object != outbound as object
    modifies samples`items, outbound`items
    ensures samples.Valid() && outbound.Valid() && samples.items == []
    ensures var n := Room(old(outbound.items), outbound.depth, old(samples.items));
            && outbound.items == old(outbound.items) + Tagged(old(samples.items)[..n])
            && dropped == old(samples.items)[n..]
  {
    dropped := [];
    ghost var all, n, i := samples.items, Room(outbound.items, outbound.depth, samples.items), 0;
    var r := samples.GetNoWait();
    while r.Some?
      invariant samples.Valid() && outbound.Valid() && 0 <= i <= |all|
      invariant r.Some? ==> i < |all| && r.value == all[i] && samples.items == all[i + 1..]
      invariant r.None? ==> i == |all| && samples.items == []
      invariant outbound.items == Moved(old(outbound.items), all, n, i)
      invariant dropped == Left(all, n, i)
      decreases |all| - i
    {
      TurnOfPublish(all, n, i, old(outbound.items), outbound.depth);
      var rc := outbound.PutNoWait(Outgoing(r.value.om, Sampler(r.value.id)));
      if rc != 0 {
        dropped := dropped + [r.value];
      }
      i := i + 1;
      r := samples.GetNoWait();
    }
  }

  // ---------- main's drain loop ----------

  /** A message as it is handed to the client library, with its packet identifier. */
  datatype Handed = Handed(id: nat, message: Outgoing)

  const ID_SPACE: nat := 65536

  /** The messages with consecutive 16-bit identifiers, starting with id. */
  function Numbered(q: seq<Outgoing>, id: nat): (r: seq<Handed>)
    ensures |r| == |q|
  {
    seq(|q|, i requires 0 <= i < |q| => Handed((id + i) % ID_SPACE, q[i]))
  }

  lemma ModAdds(x: nat, i: nat)
    ensures (x % ID_SPACE + i) % ID_SPACE == (x + i) % ID_SPACE
  {
  }

  lemma NumberedSnoc(all: seq<Outgoing>, i: nat, id: nat)
    requires i < |all|
    ensures Numbered(all[..i + 1], id) == Numbered(all[..i], id) + [Handed((id + i) % ID_SPACE, all[i])]
    ensures ((id + i) % ID_SPACE + 1) % ID_SPACE == (id + (i + 1)) % ID_SPACE
  {
    ModAdds(id + i, 1);
  }

  /** The drain loop: everything in the outbound queue is handed over once, in order,
      whether or not the library accepts it, and the identifier counts on. */
  method Drain(outbound: MsgQueue<Outgoing>, msgId: nat) returns (handed: seq<Handed>, nextId: nat)
    requires outbound.Valid() && msgId < ID_SPACE
    modifies outbound`items
    ensures outbound.Valid() && outbound.items == []
    ensures handed == Numbered(old(outbound.items), msgId)
    ensures nextId == (msgId + |old(outbound.items)|) % ID_SPACE
  {
    handed, nextId := [], msgId;
    ghost var all, i := outbound.items, 0;
    var om := outbound.GetNoWait();
    while om.Some?
      invariant outbound.Valid() && 0 <= i <= |all|
      invariant om.Some? ==> i < |all| && om.value == all[i] && outbound.items == all[i + 1..]
      invariant om.None? ==> i == |all| && outbound.items == []
      invariant handed == Numbered(all[..i], msgId) && nextId == (msgId + i) % ID_SPACE
      decreases |all| - i
    {
      NumberedSnoc(all, i, msgId);
      handed := handed + [Handed(nextId, om.value)];
      nextId := (nextId + 1) % ID_SPACE;
      i := i + 1;
      om := outbound.GetNoWait();
    }
    assert all[..i] == all;
  }

  function Repeat(step: Step, n: nat): (steps: seq<Step>)
    ensures |steps| == n
  {
    if n == 0 then [] else [step] + Repeat(step, n - 1)
  }

  /** The drain loop is as many publish steps as there are messages. */
  lemma {:induction false} DrainIsRun(env: Env, s: State)
    requires s.main == Draining
    ensures Run(env, s, Repeat(Publish, |s.outbound|))
    ensures var t := After(env, s, Repeat(Publish, |s.outbound|));
            t.outbound == [] && t.published == s.published + s.outbound && t.main == Draining
    decreases |s.outbound|
  {
    if s.outbound != [] {
      var u := Apply(env, s, Publish);
      DrainIsRun(env, u);
      assert Repeat(Publish, |s.outbound|)[1..] == Repeat(Publish, |u.outbound|);
      Assoc(s.published, [s.outbound[0]], u.outbound);
      assert s.outbound == [s.outbound[0]] + u.outbound;
    }
  }

  /** The work item's loop is as many get and put steps as there are samples. */
  function MoveSteps(n: nat): (steps: seq<Step>)
    ensures |steps| == 2 * n
  {
    if n == 0 then [] else [MoveGet, MovePut] + MoveSteps(n - 1)
  }

  lemma OneMoved(outbound: seq<Outgoing>, sample: Sample, rest: seq<Sample>, m: nat)
    requires m <= |rest|
    ensures outbound + Tagged(([sample] + rest)[..m + 1]) ==
            outbound + [Outgoing(sample.om, Sampler(sample.id))] + Tagged(rest[..m])
    ensures ([sample] + rest)[m + 1..] == rest[m..]
  {
    assert Tagged(([sample] + rest)[..m + 1]) == [Outgoing(sample.om, Sampler(sample.id))] + Tagged(rest[..m]);
    Assoc(outbound, [Outgoing(sample.om, Sampler(sample.id))], Tagged(rest[..m]));
  }

  lemma OneDropped(dropped: seq<nat>, sample: Sample, rest: seq<Sample>)
    ensures dropped + Ids(([sample] + rest)[0..]) == dropped + [sample.id] + Ids(rest[0..])
    ensures Tagged(([sample] + rest)[..0]) == [] && Tagged(rest[..0]) == []
  {
    assert rest[0..] == rest && ([sample] + rest)[0..] == [sample] + rest;
    assert Ids([sample] + rest) == [sample.id] + Ids(rest);
    Assoc(dropped, [sample.id], Ids(rest));
  }

  lemma {:induction false} PublishLoopIsRun(env: Env, s: State)
    requires s.work == Idle && |s.outbound| <= OUTBOUND_DEPTH
    ensures Run(env, s, MoveSteps(|s.samples|))
    ensures var t, n := After(env, s, MoveSteps(|s.samples|)), Room(s.outbound, OUTBOUND_DEPTH, s.samples);
            && t.samples == [] && t.work == Idle
            && t.outbound == s.outbound + Tagged(s.samples[..n])
            && t.dropped == s.dropped + Ids(s.samples[n..])
    decreases |s.samples|
  {
    if s.samples == [] {
      assert Tagged([]) == [] && Ids([]) == [];
    } else {
      var sample, rest := s.samples[0], s.samples[1..];
      var steps := MoveSteps(|s.samples|);
      var u := Apply(env, Apply(env, s, MoveGet), MovePut);
      assert u.samples == rest && steps[1..][1..] == MoveSteps(|rest|) && steps[1..][0] == MovePut;
      PublishLoopIsRun(env, u);
      var n, m := Room(s.outbound, OUTBOUND_DEPTH, s.samples), Room(u.outbound, OUTBOUND_DEPTH, rest);
      if |s.outbound| < OUTBOUND_DEPTH {
        assert n == m + 1;
        OneMoved(s.outbound, sample, rest, m);
      } else {
        assert n == 0 && m == 0;
        OneDropped(s.dropped, sample, rest);
      }
      assert s.samples == [sample] + rest;
    }
  }

  // ---------- packet identifiers ----------

  /** Draining twice numbers the messages as if they had come in one go. */
  lemma NumberedContinues(a: seq<Outgoing>, b: seq<Outgoing>, id: nat)
    ensures Numbered(a + b, id) == Numbered(a, id) + Numbered(b, (id + |a|) % ID_SPACE)
  {
    var whole, parts := Numbered(a + b, id), Numbered(a, id) + Numbered(b, (id + |a|) % ID_SPACE);
    forall k | 0 <= k < |whole| ensures whole[k] == parts[k] {
      if k >= |a| {
        ModAdds(id + |a|, k - |a|);
      }
    }
  }

  /** What the client library gets from successive drains, each of which counts on where
      the one before stopped, as Drain is proved to do. */
  function HandedOver(drains: seq<seq<Outgoing>>, id: nat): seq<Handed> {
    if drains == [] then []
    else Numbered(drains[0], id) + HandedOver(drains[1..], (id + |drains[0]|) % ID_SPACE)
  }

  function Drained(drains: seq<seq<Outgoing>>): seq<Outgoing> {
    if drains == [] then [] else drains[0] + Drained(drains[1..])
  }

  lemma {:induction false} HandedOverIsNumbered(drains: seq<seq<Outgoing>>, id: nat)
    ensures HandedOver(drains, id) == Numbered(Drained(drains), id)
  {
    if drains == [] {
      assert Numbered([], id) == [];
    } else {
      HandedOverIsNumbered(drains[1..], (id + |drains[0]|) % ID_SPACE);
      NumberedContinues(drains[0], Drained(drains[1..]), id);
    }
  }

  lemma SuccessorMod(k: nat)
    ensures (1 + k) % ID_SPACE == if k % ID_SPACE == ID_SPACE - 1 then 0 else k % ID_SPACE + 1
  {
  }

  /** Main counts from 1. However many drains the messages come in, the k-th one handed
      over since start, counting from 0, has identifier (1 + k) modulo 65536. It is the
      zero that section 2.2.1 of MQTT Version 5.0 forbids exactly for every 65536-th
      message, and two messages share an identifier exactly when a multiple of 65536 lies
      between them. */
  lemma IdentifierZero(drains: seq<seq<Outgoing>>, k: nat, j: nat)
    requires k < |Drained(drains)| && j < |Drained(drains)|
    ensures var handed := HandedOver(drains, 1);
            && |handed| == |Drained(drains)| && handed[k].message == Drained(drains)[k]
            && (handed[k].id == 0 <==> k % ID_SPACE == ID_SPACE - 1)
            && (handed[k].id == handed[j].id <==> k % ID_SPACE == j % ID_SPACE)
  {
    HandedOverIsNumbered(drains, 1);
    SuccessorMod(k);
    SuccessorMod(j);
  }
}
