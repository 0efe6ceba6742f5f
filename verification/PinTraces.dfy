/** Which pin writes a run makes: exactly those of the commands taken, one command after
    the other, whatever the other threads do in between. */
module PinTraces {
  import opened Sequences
  import opened Routing
  import opened Pins
  import opened Messages
  import opened Dispatch
  import opened Receiving
  import opened Pipeline
  import opened PinRuns

  /** The pin writes of a command the executor takes. */
  function TakenWrites(cfg: Config, dec: Decoder, cmd: Command): Trace
    requires |cfg.names| == |cfg.pairs|
  {
    if Shaped(cmd) then Writes(cfg, dec, cmd) else []
  }

  /** The pin writes of commands, one after the other. */
  function Written(cfg: Config, dec: Decoder, cmds: seq<Command>): Trace
    requires |cfg.names| == |cfg.pairs|
  {
    if cmds == [] then []
    else Written(cfg, dec, cmds[..|cmds| - 1]) + TakenWrites(cfg, dec, cmds[|cmds| - 1])
  }

  lemma WrittenSnoc(cfg: Config, dec: Decoder, cmds: seq<Command>, cmd: Command)
    requires |cfg.names| == |cfg.pairs|
    ensures Written(cfg, dec, cmds + [cmd]) == Written(cfg, dec, cmds) + TakenWrites(cfg, dec, cmd)
  {
    assert (cmds + [cmd])[..|cmds|] == cmds;
  }

  lemma WrittenGrows(cfg: Config, dec: Decoder, before: Trace, all: Trace, cmds: seq<Command>, cmd: Command)
    requires |cfg.names| == |cfg.pairs| && all == before + Written(cfg, dec, cmds)
    ensures all + TakenWrites(cfg, dec, cmd) == before + Written(cfg, dec, cmds + [cmd])
  {
    WrittenSnoc(cfg, dec, cmds, cmd);
    Assoc(before, Written(cfg, dec, cmds), TakenWrites(cfg, dec, cmd));
  }

  /** The writes that are still to come for the steps from i on, with the pulse of step i
      in the given phase. */
  function Ahead(cfg: Config, steps: seq<RouteStep>, i: nat, phase: Phase): Trace
    requires |cfg.names| == |cfg.pairs| && i <= |steps|
    requires phase != Check ==> i < |steps| && StepOk(cfg.names, steps[i])
  {
    if phase == Check then StepPulses(cfg, steps[i..])
    else
      var pin := PinFor(cfg.pairs[FindSwitch(cfg.names, steps[i].switchName)], steps[i].state);
      Pulse(pin)[(match phase case Low => 1 case High => 2 case _ => 3)..] + StepPulses(cfg, steps[i + 1..])
  }

  /** The trace as it will be when the command under way is done. */
  function Finally(cfg: Config, f: FineState): Trace
    requires Sound(cfg, f)
  {
    match f.job
    case NoJob => f.trace
    case Setting(_, steps, i, phase) => f.trace + Ahead(cfg, steps, i, phase)
  }

  /** The first write of a pulse is made when the step has been checked. */
  lemma AheadUnfolds(cfg: Config, steps: seq<RouteStep>, i: nat)
    requires |cfg.names| == |cfg.pairs| && i < |steps|
    ensures StepOk(cfg.names, steps[i]) ==>
              var pin := PinFor(cfg.pairs[FindSwitch(cfg.names, steps[i].switchName)], steps[i].state);
              && Ahead(cfg, steps, i, Check) == [PinWrite(pin, false)] + Ahead(cfg, steps, i, Low)
              && Ahead(cfg, steps, i, Low) == [PinWrite(pin, true)] + Ahead(cfg, steps, i, High)
              && Ahead(cfg, steps, i, High) == [PinWrite(pin, false)] + Ahead(cfg, steps, i, Record)
              && Ahead(cfg, steps, i, Record) == Ahead(cfg, steps, i + 1, Check)
    ensures !StepOk(cfg.names, steps[i]) ==> Ahead(cfg, steps, i, Check) == []
  {
    assert steps[i..][0] == steps[i] && steps[i..][1..] == steps[i + 1..];
  }

  /** A step of a pulse: what was still to come begins with its write. */
  lemma WriteKeepsFinally(cfg: Config, f: FineState)
    requires Sound(cfg, f) && f.job.Setting? && f.job.i < |f.job.steps|
    requires StepOk(cfg.names, f.job.steps[f.job.i]) && f.job.phase != Record
    ensures Sound(cfg, MicroApply(cfg, f)) && Finally(cfg, MicroApply(cfg, f)) == Finally(cfg, f)
  {
    var steps, i, phase := f.job.steps, f.job.i, f.job.phase;
    var pin := PinFor(cfg.pairs[FindSwitch(cfg.names, steps[i].switchName)], steps[i].state);
    var next := if phase == Check then Low else if phase == Low then High else Record;
    AheadUnfolds(cfg, steps, i);
    Assoc(f.trace, [PinWrite(pin, phase == Low)], Ahead(cfg, steps, i, next));
  }

  lemma MicroKeepsFinally(cfg: Config, f: FineState)
    requires Sound(cfg, f) && f.job.Setting?
    ensures Sound(cfg, MicroApply(cfg, f)) && Finally(cfg, MicroApply(cfg, f)) == Finally(cfg, f)
  {
    MicroSound(cfg, f);
    var steps, i, phase := f.job.steps, f.job.i, f.job.phase;
    assert f.trace + [] == f.trace;
    if i < |steps| {
      AheadUnfolds(cfg, steps, i);
      if StepOk(cfg.names, steps[i]) && phase != Record {
        WriteKeepsFinally(cfg, f);
      }
    }
  }

  /** A command that starts no route writes no pin. */
  lemma NoJobNoWrites(cfg: Config, dec: Decoder, dev: Device, cmd: Command)
    requires |cfg.names| == |cfg.pairs| == |dev.states|
    requires !StartsJob(cfg, dec, dev, cmd)
    ensures TakenWrites(cfg, dec, cmd) == []
  {
  }

  lemma TakeAddsWrites(cfg: Config, dec: Decoder, judge: Publication -> Verdict, start: Device, f: FineState)
    requires Sound(cfg, f) && FineEnabled(f, Coarse(Take))
    ensures var g := FineApply(cfg, dec, judge, start, f, Coarse(Take));
            && Sound(cfg, g) && Finally(cfg, g) == Finally(cfg, f) + TakenWrites(cfg, dec, f.s.inbound[0])
            && g.s.taken == f.s.taken + [f.s.inbound[0]]
  {
    StepSimulates(cfg, dec, judge, start, f, Coarse(Take));
    var cmd := f.s.inbound[0];
    if StartsJob(cfg, dec, f.s.device, cmd) {
      var steps := RequestedSteps(cfg, dec, cmd).0;
      assert steps[0..] == steps;
    } else {
      NoJobNoWrites(cfg, dec, f.s.device, cmd);
      assert f.trace + [] == f.trace;
    }
  }

  lemma OnlyTakeTakes(env: Env, s: State, c: Step)
    requires Enabled(s, c) && !c.Take?
    ensures Apply(env, s, c).taken == s.taken
  {
  }

  lemma OthersAddNothing(cfg: Config, dec: Decoder, judge: Publication -> Verdict, start: Device, f: FineState, c: Step)
    requires Sound(cfg, f) && FineEnabled(f, Coarse(c)) && !c.Take?
    ensures var g := FineApply(cfg, dec, judge, start, f, Coarse(c));
            Sound(cfg, g) && Finally(cfg, g) == Finally(cfg, f) && g.s.taken == f.s.taken
  {
    StepSimulates(cfg, dec, judge, start, f, Coarse(c));
    OnlyTakeTakes(FirmwareWith(cfg, dec, judge, start), f.s, c);
  }

  lemma TakeKeepsWritten(cfg: Config, dec: Decoder, judge: Publication -> Verdict, start: Device, f: FineState, before: Trace)
    requires Sound(cfg, f) && FineEnabled(f, Coarse(Take))
    requires Finally(cfg, f) == before + Written(cfg, dec, f.s.taken)
    ensures var g := FineApply(cfg, dec, judge, start, f, Coarse(Take));
            Sound(cfg, g) && Finally(cfg, g) == before + Written(cfg, dec, g.s.taken)
  {
    WrittenGrows(cfg, dec, before, Finally(cfg, f), f.s.taken, f.s.inbound[0]);
    TakeAddsWrites(cfg, dec, judge, start, f);
  }

  lemma MicroKeepsWritten(cfg: Config, dec: Decoder, f: FineState, before: Trace)
    requires Sound(cfg, f) && f.job.Setting?
    requires Finally(cfg, f) == before + Written(cfg, dec, f.s.taken)
    ensures var g := MicroApply(cfg, f);
            Sound(cfg, g) && Finally(cfg, g) == before + Written(cfg, dec, g.s.taken)
  {
    MicroKeepsFinally(cfg, f);
    MicroFrame(cfg, f);
  }

  lemma StepKeepsWritten(cfg: Config, dec: Decoder, judge: Publication -> Verdict, start: Device,
                         f: FineState, step: FineStep, before: Trace)
    requires Sound(cfg, f) && FineEnabled(f, step)
    requires Finally(cfg, f) == before + Written(cfg, dec, f.s.taken)
    ensures var g := FineApply(cfg, dec, judge, start, f, step);
            Sound(cfg, g) && Finally(cfg, g) == before + Written(cfg, dec, g.s.taken)
  {
    match step
    case Micro => MicroKeepsWritten(cfg, dec, f, before);
    case Coarse(c) =>
      if c.Take? {
        TakeKeepsWritten(cfg, dec, judge, start, f, before);
      } else {
        OthersAddNothing(cfg, dec, judge, start, f, c);
      }
  }

  lemma {:induction false} RunKeepsWritten(cfg: Config, dec: Decoder, judge: Publication -> Verdict, start: Device,
                                           f: FineState, steps: seq<FineStep>, before: Trace)
    requires Sound(cfg, f) && FineRun(cfg, dec, judge, start, f, steps)
    requires Finally(cfg, f) == before + Written(cfg, dec, f.s.taken)
    ensures var g := FineAfter(cfg, dec, judge, start, f, steps);
            Finally(cfg, g) == before + Written(cfg, dec, g.s.taken)
    decreases |steps|
  {
    if steps != [] {
      StepKeepsWritten(cfg, dec, judge, start, f, steps[0], before);
      RunKeepsWritten(cfg, dec, judge, start, FineApply(cfg, dec, judge, start, f, steps[0]), steps[1..], before);
    }
  }

  /** Every pin write of every run: between two dispatches the trace is what the commands
      taken so far write one after the other, each route a pulse for every step up to the
      first that is refused; in the middle of a dispatch it is a beginning of that. */
  lemma WritesAreSequential(cfg: Config, dec: Decoder, judge: Publication -> Verdict, start: Device,
                            before: Trace, steps: seq<FineStep>)
    requires |cfg.names| == |cfg.pairs| == |start.states|
    requires FineRun(cfg, dec, judge, start, FineInit(FirmwareWith(cfg, dec, judge, start), before), steps)
    ensures var g := FineAfter(cfg, dec, judge, start, FineInit(FirmwareWith(cfg, dec, judge, start), before), steps);
            && g.trace <= before + Written(cfg, dec, g.s.taken)
            && (g.job == NoJob ==> g.trace == before + Written(cfg, dec, g.s.taken))
  {
    assert before + [] == before;
    RunKeepsWritten(cfg, dec, judge, start, FineInit(FirmwareWith(cfg, dec, judge, start), before), steps, before);
  }

  // ---------- the receiver as coded ----------

  /** No route is under way and no waiting command has an argument. */
  ghost predicate NothingAsked(f: FineState) {
    && f.job == NoJob
    && forall i :: 0 <= i < |f.s.inbound| ==> Shaped(f.s.inbound[i]) && f.s.inbound[i].payloadLen == 0
  }

  lemma NothingStarts(cfg: Config, dec: Decoder, dev: Device, cmd: Command)
    requires Shaped(cmd) && cmd.payloadLen == 0 && RefusesEmpty(dec)
    ensures !StartsJob(cfg, dec, dev, cmd)
  {
    assert Argument(cmd) == "";
  }

  lemma ReceivedAskNothing(cfg: Config, dec: Decoder, start: Device, s: State, pub: Publication)
    requires forall i :: 0 <= i < |s.inbound| ==> Shaped(s.inbound[i]) && s.inbound[i].payloadLen == 0
    ensures var t := Received(Firmware(cfg, dec, start), s, pub);
            t.device == s.device && forall i :: 0 <= i < |t.inbound| ==> Shaped(t.inbound[i]) && t.inbound[i].payloadLen == 0
  {
    var v := Judge(dec, pub);
    assert Firmware(cfg, dec, start).judge(pub) == v;
  }

  lemma TakeAsksNothing(cfg: Config, dec: Decoder, start: Device, f: FineState)
    requires Sound(cfg, f) && FineEnabled(f, Coarse(Take)) && RefusesEmpty(dec) && NothingAsked(f)
    ensures var g := FineApply(cfg, dec, Firmware(cfg, dec, start).judge, start, f, Coarse(Take));
            NothingAsked(g) && g.trace == f.trace && g.s.device == f.s.device
  {
    NothingStarts(cfg, dec, f.s.device, f.s.inbound[0]);
    EmptyArgumentChangesNothing(cfg, dec, f.s.device, f.s.inbound[0]);
  }

  lemma StepAsksNothing(cfg: Config, dec: Decoder, start: Device, f: FineState, step: FineStep)
    requires Sound(cfg, f) && FineEnabled(f, step) && RefusesEmpty(dec) && NothingAsked(f)
    ensures var g := FineApply(cfg, dec, Firmware(cfg, dec, start).judge, start, f, step);
            NothingAsked(g) && g.trace == f.trace && g.s.device == f.s.device
  {
    var c := step.step;
    match c
    case Take => TakeAsksNothing(cfg, dec, start, f);
    case Receive(pub) => ReceivedAskNothing(cfg, dec, start, f.s, pub);
    case _ =>
  }

  lemma {:induction false} RunAsksNothing(cfg: Config, dec: Decoder, start: Device, f: FineState, steps: seq<FineStep>)
    requires Sound(cfg, f) && FineRun(cfg, dec, Firmware(cfg, dec, start).judge, start, f, steps)
    requires RefusesEmpty(dec) && NothingAsked(f)
    ensures var g := FineAfter(cfg, dec, Firmware(cfg, dec, start).judge, start, f, steps);
            NothingAsked(g) && g.trace == f.trace && g.s.device == f.s.device
    decreases |steps|
  {
    if steps != [] {
      var judge := Firmware(cfg, dec, start).judge;
      StepAsksNothing(cfg, dec, start, f, steps[0]);
      StepSimulates(cfg, dec, judge, start, f, steps[0]);
      RunAsksNothing(cfg, dec, start, FineApply(cfg, dec, judge, start, f, steps[0]), steps[1..]);
    }
  }

  /** The firmware as coded, with a library that refuses the empty text, never writes a
      control pin after setup, and no route is ever under way, in any run. */
  lemma CodedNeverWrites(cfg: Config, dec: Decoder, start: Device, before: Trace, steps: seq<FineStep>)
    requires |cfg.names| == |cfg.pairs| == |start.states| && RefusesEmpty(dec)
    requires FineRun(cfg, dec, Firmware(cfg, dec, start).judge, start, FineInit(Firmware(cfg, dec, start), before), steps)
    ensures var g := FineAfter(cfg, dec, Firmware(cfg, dec, start).judge, start, FineInit(Firmware(cfg, dec, start), before), steps);
            g.trace == before && g.job == NoJob && g.s.device == start
  {
    RunAsksNothing(cfg, dec, start, FineInit(Firmware(cfg, dec, start), before), steps);
  }
}
