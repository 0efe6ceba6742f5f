/** The running firmware as a state machine: the main thread, the executor thread, the
    photodiode thread and the publish work item, which share nothing but three bounded
    queues. Every queue operation is a step of its own and the steps interleave freely.
    The fields after `device` are history: they record what happened and no step looks
    at them. */
module Pipeline {
  import opened Messages
  import opened Dispatch
  import opened Receiving

  const INBOUND_DEPTH: nat := 2
  const OUTBOUND_DEPTH: nat := 8
  const PHOTODIODE_DEPTH: nat := 4

  /** What the threads compute between their queue operations: how a publication is
      judged, what is answered to refused and to surplus ones, what a command does to the
      device and is answered with; and the device at start. What is proved about the
      machine holds for every choice; `Firmware` is the one of this instrument. */
  datatype Env = Env(
    judge: Publication -> Verdict,
    refusal: OutMsg,
    busy: Command -> OutMsg,
    handle: (Device, Command) -> (Device, OutMsg),
    start: Device)

  /** The firmware behind any receiver. */
  function FirmwareWith(cfg: Config, dec: Decoder, judge: Publication -> Verdict, start: Device): Env {
    Env(judge,
        InvalidReply(),
        cmd => if Shaped(cmd) then BusyReply(cmd) else InvalidReply(),
        (dev: Device, cmd: Command) =>
          if |dev.states| == |cfg.names| && Shaped(cmd)
          then (Handle(cfg, dec, dev, cmd).device, Answered(cfg, dec, dev, cmd))
          else (dev, InvalidReply()),
        start)
  }

  /** The firmware as coded. Its receiver gives every command the payload length zero;
      what does not depend on that is proved behind any receiver. */
  function Firmware(cfg: Config, dec: Decoder, start: Device): Env {
    FirmwareWith(cfg, dec, pub => Judge(dec, pub), start)
  }

  datatype Sample = Sample(id: nat, om: OutMsg)

  /** Main is connecting, in its drain loop, in `coo_mqtt_process`, or has a refusal in
      hand that it is about to offer to the outbound queue. */
  datatype Main = Offline | Draining | Processing | Refusing(om: OutMsg)

  /** The executor waits for a command or has a reply in hand for the outbound queue. */
  datatype Exec = Waiting | Holding(om: OutMsg)

  /** The photodiode thread sleeps, is about to put a sample (having purged the queue for
      it or not), or is about to purge because the put failed. */
  datatype Photodiode = Resting | Putting(sample: Sample, purged: bool) | Purging(sample: Sample)

  /** The work item has taken a sample from the photodiode queue or has not. */
  datatype Work = Idle | Moving(sample: Sample)

  datatype State = State(
    main: Main, exec: Exec, photodiode: Photodiode, work: Work,
    inbound: seq<Command>, outbound: seq<Outgoing>, samples: seq<Sample>,
    device: Device,
    requests: seq<Publication>, accepted: seq<Command>, taken: seq<Command>,
    published: seq<Outgoing>, produced: nat, purged: seq<nat>, dropped: seq<nat>)

  datatype Step =
    | Connect | Publish | EnterProcess | Receive(pub: Publication) | SendRefusal | LeaveProcess | Disconnect
    | Take | PutReply
    | Produce(om: OutMsg) | PutSample | PutFails | Purge
    | MoveGet | MovePut

  function Init(env: Env): State {
    State(Offline, Waiting, Resting, Idle, [], [], [], env.start, [], [], [], [], 0, [], [])
  }

  predicate Enabled(s: State, step: Step) {
    match step
    case Connect => s.main == Offline
    case Publish => s.main == Draining && s.outbound != []
    case EnterProcess => s.main == Draining && s.outbound == []
    case Receive(_) => s.main == Processing
    case SendRefusal => s.main.Refusing?
    case LeaveProcess => s.main == Processing
    case Disconnect => s.main == Processing
    case Take => s.exec == Waiting && s.inbound != []
    case PutReply => s.exec.Holding? && |s.outbound| < OUTBOUND_DEPTH
    case Produce(_) => s.photodiode == Resting
    case PutSample => s.photodiode.Putting? && |s.samples| < PHOTODIODE_DEPTH
    case PutFails => s.photodiode.Putting? && |s.samples| >= PHOTODIODE_DEPTH
    case Purge => s.photodiode.Purging?
    case MoveGet => s.work == Idle && s.samples != []
    case MovePut => s.work.Moving?
  }

  function Ids(samples: seq<Sample>): (ids: seq<nat>)
    ensures |ids| == |samples|
  {
    seq(|samples|, i requires 0 <= i < |samples| => samples[i].id)
  }

  function Received(env: Env, s: State, pub: Publication): State {
    match env.judge(pub)
    case Ignored => s
    case Refused => s.(main := Refusing(env.refusal))
    case Accepted(cmd) =>
      if |s.inbound| < INBOUND_DEPTH
      then s.(inbound := s.inbound + [cmd], requests := s.requests + [pub], accepted := s.accepted + [cmd])
      else s.(main := Refusing(env.busy(cmd)))
  }

  function Apply(env: Env, s: State, step: Step): State
    requires Enabled(s, step)
  {
    match step
    case Connect => s.(main := Draining)
    case Publish => s.(outbound := s.outbound[1..], published := s.published + [s.outbound[0]])
    case EnterProcess => s.(main := Processing)
    case Receive(pub) => Received(env, s, pub)
    case SendRefusal => s.(main := Processing, outbound := Offered(s.outbound, OUTBOUND_DEPTH, s.main.om))
    case LeaveProcess => s.(main := Draining)
    case Disconnect => s.(main := Offline)
    case Take =>
      var cmd := s.inbound[0];
      var (device, reply) := env.handle(s.device, cmd);
      s.(inbound := s.inbound[1..], taken := s.taken + [cmd], device := device, exec := Holding(reply))
    case PutReply => s.(exec := Waiting, outbound := s.outbound + [Outgoing(s.exec.om, Executor)])
    case Produce(om) => s.(photodiode := Putting(Sample(s.produced, om), false), produced := s.produced + 1)
    case PutSample => s.(photodiode := Resting, samples := s.samples + [s.photodiode.sample])
    case PutFails => s.(photodiode := Purging(s.photodiode.sample))
    case Purge => s.(photodiode := Putting(s.photodiode.sample, true), samples := [], purged := s.purged + Ids(s.samples))
    case MoveGet => s.(work := Moving(s.samples[0]), samples := s.samples[1..])
    case MovePut =>
      var sample := s.work.sample;
      if |s.outbound| < OUTBOUND_DEPTH
      then s.(work := Idle, outbound := s.outbound + [Outgoing(sample.om, Sampler(sample.id))])
      else s.(work := Idle, dropped := s.dropped + [sample.id])
  }

  /** Who waits, who is turned away, and when: a third command is answered busy; the
      executor alone waits for room behind eight messages, a refusal or a sample is then
      dropped; a fifth sample clears the queue. */
  lemma QueueDepths(env: Env, s: State, pub: Publication)
    ensures s.main == Processing && env.judge(pub).Accepted? ==>
              && Apply(env, s, Receive(pub)).inbound == s.inbound + (if |s.inbound| < 2 then [env.judge(pub).cmd] else [])
              && Apply(env, s, Receive(pub)).main == if |s.inbound| < 2 then Processing else Refusing(env.busy(env.judge(pub).cmd))
    ensures Enabled(s, PutReply) <==> s.exec.Holding? && |s.outbound| < 8
    ensures s.main.Refusing? ==>
              Apply(env, s, SendRefusal).outbound == s.outbound + (if |s.outbound| < 8 then [Outgoing(s.main.om, Receiver)] else [])
    ensures s.work.Moving? ==>
              && Apply(env, s, MovePut).outbound ==
                 s.outbound + (if |s.outbound| < 8 then [Outgoing(s.work.sample.om, Sampler(s.work.sample.id))] else [])
              && Apply(env, s, MovePut).dropped == s.dropped + (if |s.outbound| < 8 then [] else [s.work.sample.id])
    ensures Enabled(s, PutSample) <==> s.photodiode.Putting? && |s.samples| < 4
    ensures Enabled(s, PutFails) <==> s.photodiode.Putting? && |s.samples| >= 4
    ensures s.photodiode.Purging? ==> Apply(env, s, Purge).samples == []
  {
  }

  // ---------- runs ----------

  /** The steps can be taken one after the other from s. */
  predicate Run(env: Env, s: State, steps: seq<Step>)
    decreases |steps|
  {
    steps == [] || (Enabled(s, steps[0]) && Run(env, Apply(env, s, steps[0]), steps[1..]))
  }

  /** The state after a run. */
  function After(env: Env, s: State, steps: seq<Step>): State
    requires Run(env, s, steps)
    decreases |steps|
  {
    if steps == [] then s else After(env, Apply(env, s, steps[0]), steps[1..])
  }

  lemma {:induction false} RunConcat(env: Env, s: State, a: seq<Step>, b: seq<Step>)
    requires Run(env, s, a) && Run(env, After(env, s, a), b)
    ensures Run(env, s, a + b) && After(env, s, a + b) == After(env, After(env, s, a), b)
    decreases |a|
  {
    if a == [] {
      assert a + b == b;
    } else {
      assert (a + b)[1..] == a[1..] + b;
      RunConcat(env, Apply(env, s, a[0]), a[1..], b);
    }
  }

  // ---------- queue bounds ----------

  /** No queue ever holds more than its depth. */
  ghost predicate Bounded(s: State) {
    |s.inbound| <= INBOUND_DEPTH && |s.outbound| <= OUTBOUND_DEPTH && |s.samples| <= PHOTODIODE_DEPTH
  }

  lemma StepKeepsBounded(env: Env, s: State, step: Step)
    requires Bounded(s) && Enabled(s, step)
    ensures Bounded(Apply(env, s, step))
  {
  }
}
