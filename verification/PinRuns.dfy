/** The firmware with the executor's pin writes as steps of their own: setting a route
    is no longer one step but a low, a high and a low write and a record for each switch,
    and every other thread may run in between. This machine refines the one of module
    Pipeline, and in each of its states the control pins are as they should be. */
module PinRuns {
  import opened CText
  import opened Routing
  import opened Pins
  import opened Messages
  import opened Dispatch
  import opened Receiving
  import opened Pipeline
  import CommandRuns

  /** How far the pulse for the current step has got. */
  datatype Phase = Check | Low | High | Record

  /** What the executor is doing inside `dispatch_command`: nothing, or setting the
      steps of a route and having arrived at step i. */
  datatype Job = NoJob | Setting(cmd: Command, steps: seq<RouteStep>, i: nat, phase: Phase)

  datatype FineState = FineState(s: State, job: Job, trace: Trace)

  datatype FineStep = Coarse(step: Step) | Micro

  predicate FineEnabled(f: FineState, step: FineStep) {
    match step
    case Coarse(c) => Enabled(f.s, c) && (c.Take? ==> f.job == NoJob)
    case Micro => f.job.Setting? && f.job.i <= |f.job.steps|
  }

  /** Commands whose dispatch sets a route. */
  predicate StartsJob(cfg: Config, dec: Decoder, dev: Device, cmd: Command) {
    && |dev.states| == |cfg.names| && Shaped(cmd)
    && FindDispatch(TextOf(cmd.key)) == 0 && cmd.msgType == SET
    && RequestedSteps(cfg, dec, cmd).1 == ""
  }

  function Finished(f: FineState, msgType: MsgType, text: CString): FineState
    requires f.job.Setting? && Shaped(f.job.cmd)
  {
    f.(job := NoJob, s := f.s.(exec := Holding(Reply(f.job.cmd, msgType, text))))
  }

  /** One statement of the loop in `memsroute_set` or of `mems_switch_set_state`. */
  function MicroApply(cfg: Config, f: FineState): FineState
    requires f.job.Setting? && f.job.i <= |f.job.steps| && Shaped(f.job.cmd)
    requires |f.s.device.states| == |cfg.names| == |cfg.pairs|
  {
    if f.job.i == |f.job.steps| then Finished(f, RESP_OK, OK_TEXT)
    else
      var step := f.job.steps[f.job.i];
      var k := FindSwitch(cfg.names, step.switchName);
      if k == |cfg.names| then Finished(f, RESP_ERROR, ROUTE_ERROR)
      else if !Settable(step.state) then Finished(f, RESP_ERROR, SwitchFailed(step))
      else
        var pin := PinFor(cfg.pairs[k], step.state);
        match f.job.phase
        case Check => f.(job := f.job.(phase := Low), trace := f.trace + [PinWrite(pin, false)])
        case Low => f.(job := f.job.(phase := High), trace := f.trace + [PinWrite(pin, true)])
        case High => f.(job := f.job.(phase := Record), trace := f.trace + [PinWrite(pin, false)])
        case Record =>
          f.(job := f.job.(phase := Check, i := f.job.i + 1),
             s := f.s.(device := f.s.device.(states := f.s.device.states[k := step.state])))
  }

  /** A set request is taken: the steps of its route are still to be done. */
  function BeginJob(cfg: Config, dec: Decoder, f: FineState): FineState
    requires f.s.inbound != [] && f.s.inbound[0].payloadLen <= |f.s.inbound[0].payload|
  {
    var cmd := f.s.inbound[0];
    f.(s := f.s.(inbound := f.s.inbound[1..], taken := f.s.taken + [cmd]),
       job := Setting(cmd, RequestedSteps(cfg, dec, cmd).0, 0, Check))
  }

  /** The states of the machine: the job's command and the device have their shape, and
      the executor holds no reply while it works. */
  predicate Sound(cfg: Config, f: FineState) {
    && |f.s.device.states| == |cfg.names| == |cfg.pairs|
    && (f.job.Setting? ==>
          && Shaped(f.job.cmd) && f.job.i <= |f.job.steps| && f.s.exec == Waiting
          && (f.job.phase != Check ==> f.job.i < |f.job.steps| && StepOk(cfg.names, f.job.steps[f.job.i])))
  }

  function FineApply(cfg: Config, dec: Decoder, judge: Publication -> Verdict, start: Device, f: FineState, step: FineStep): FineState
    requires Sound(cfg, f) && FineEnabled(f, step)
  {
    match step
    case Micro => MicroApply(cfg, f)
    case Coarse(c) =>
      if c.Take? && StartsJob(cfg, dec, f.s.device, f.s.inbound[0]) then BeginJob(cfg, dec, f)
      else f.(s := Apply(FirmwareWith(cfg, dec, judge, start), f.s, c))
  }

  // ---------- the abstraction ----------

  /** What the job will have done when it is finished. */
  function Outcome(cfg: Config, f: FineState): Answer
    requires Sound(cfg, f) && f.job.Setting?
  {
    SetRoute(cfg, f.s.device, f.job.steps[f.job.i..])
  }

  /** The state of the coarse machine a state stands for: a command that has been taken
      counts as done. */
  function Abs(cfg: Config, f: FineState): State
    requires Sound(cfg, f)
  {
    match f.job
    case NoJob => f.s
    case Setting(cmd, _, _, _) =>
      var a := Outcome(cfg, f);
      f.s.(device := a.device, exec := Holding(Reply(cmd, a.msgType, a.text)))
  }

  /** The executor is at a step of a route that can be applied. */
  predicate AtGoodStep(cfg: Config, f: FineState) {
    f.job.Setting? && f.job.i < |f.job.steps| && StepOk(cfg.names, f.job.steps[f.job.i])
  }

  /** A pin write leaves the job's outcome alone. */
  lemma WriteStutters(cfg: Config, f: FineState)
    requires Sound(cfg, f) && AtGoodStep(cfg, f) && f.job.phase != Record
    ensures Sound(cfg, MicroApply(cfg, f)) && Abs(cfg, MicroApply(cfg, f)) == Abs(cfg, f)
  {
  }

  /** After a record the outcome is that of the steps that are left. */
  lemma RecordStutters(cfg: Config, f: FineState)
    requires Sound(cfg, f) && AtGoodStep(cfg, f) && f.job.phase == Record
    ensures Sound(cfg, MicroApply(cfg, f)) && Abs(cfg, MicroApply(cfg, f)) == Abs(cfg, f)
  {
    var rest := f.job.steps[f.job.i..];
    SetRouteUnfolds(cfg, f.s.device, rest);
    assert rest[0] == f.job.steps[f.job.i] && rest[1..] == f.job.steps[f.job.i + 1..];
  }

  /** At the end of the steps, or at one that cannot be applied, the outcome is there. */
  lemma FinishStutters(cfg: Config, f: FineState)
    requires Sound(cfg, f) && f.job.Setting? && !AtGoodStep(cfg, f)
    ensures Sound(cfg, MicroApply(cfg, f)) && Abs(cfg, MicroApply(cfg, f)) == Abs(cfg, f)
  {
    var rest := f.job.steps[f.job.i..];
    SetRouteUnfolds(cfg, f.s.device, rest);
    assert rest != [] ==> rest[0] == f.job.steps[f.job.i];
  }

  /** A pin write or a record is no step of the coarse machine at all. */
  lemma MicroStutters(cfg: Config, f: FineState)
    requires Sound(cfg, f) && f.job.Setting?
    ensures Sound(cfg, MicroApply(cfg, f)) && Abs(cfg, MicroApply(cfg, f)) == Abs(cfg, f)
  {
    if !AtGoodStep(cfg, f) {
      FinishStutters(cfg, f);
    } else if f.job.phase == Record {
      RecordStutters(cfg, f);
    } else {
      WriteStutters(cfg, f);
    }
  }

  /** Taking a set request is the coarse machine's taking it. */
  lemma BeginIsTake(cfg: Config, dec: Decoder, judge: Publication -> Verdict, start: Device, f: FineState)
    requires Sound(cfg, f) && FineEnabled(f, Coarse(Take))
    requires StartsJob(cfg, dec, f.s.device, f.s.inbound[0])
    ensures Sound(cfg, BeginJob(cfg, dec, f))
    ensures Abs(cfg, BeginJob(cfg, dec, f)) == Apply(FirmwareWith(cfg, dec, judge, start), Abs(cfg, f), Take)
  {
    var cmd := f.s.inbound[0];
    var steps := RequestedSteps(cfg, dec, cmd).0;
    assert steps[0..] == steps;
    assert Handle(cfg, dec, f.s.device, cmd) == SetRoute(cfg, f.s.device, steps);
  }

  /** The steps of the other threads do not look at what the executor is doing. */
  lemma OthersIgnoreExecutor(env: Env, s: State, c: Step, device: Device, exec: Exec)
    requires Enabled(s, c) && !c.Take? && !c.PutReply?
    ensures Enabled(s.(device := device, exec := exec), c)
    ensures Apply(env, s.(device := device, exec := exec), c) == Apply(env, s, c).(device := device, exec := exec)
    ensures Apply(env, s, c).device == s.device && Apply(env, s, c).exec == s.exec
  {
  }

  lemma OthersCommute(cfg: Config, env: Env, f: FineState, c: Step)
    requires Sound(cfg, f) && f.job.Setting? && FineEnabled(f, Coarse(c))
    ensures Enabled(Abs(cfg, f), c)
    ensures Sound(cfg, f.(s := Apply(env, f.s, c)))
    ensures Abs(cfg, f.(s := Apply(env, f.s, c))) == Apply(env, Abs(cfg, f), c)
  {
    var a := Outcome(cfg, f);
    OthersIgnoreExecutor(env, f.s, c, a.device, Holding(Reply(f.job.cmd, a.msgType, a.text)));
  }

  lemma TakeSound(cfg: Config, dec: Decoder, judge: Publication -> Verdict, start: Device, f: FineState, c: Step)
    requires Sound(cfg, f) && f.job == NoJob && Enabled(f.s, c)
    ensures Sound(cfg, f.(s := Apply(FirmwareWith(cfg, dec, judge, start), f.s, c)))
  {
  }

  /** The coarse steps one fine step stands for: itself, or none. */
  function CoarseSteps(step: FineStep): seq<Step> {
    match step
    case Coarse(c) => [c]
    case Micro => []
  }

  lemma StepSimulates(cfg: Config, dec: Decoder, judge: Publication -> Verdict, start: Device, f: FineState, step: FineStep)
    requires Sound(cfg, f) && FineEnabled(f, step)
    ensures var g, env := FineApply(cfg, dec, judge, start, f, step), FirmwareWith(cfg, dec, judge, start);
            && Sound(cfg, g)
            && (step.Micro? ==> Abs(cfg, g) == Abs(cfg, f))
            && (step.Coarse? ==> Enabled(Abs(cfg, f), step.step) && Abs(cfg, g) == Apply(env, Abs(cfg, f), step.step))
  {
    match step
    case Micro => MicroStutters(cfg, f);
    case Coarse(c) =>
      if f.job.Setting? {
        OthersCommute(cfg, FirmwareWith(cfg, dec, judge, start), f, c);
      } else if c.Take? && StartsJob(cfg, dec, f.s.device, f.s.inbound[0]) {
        BeginIsTake(cfg, dec, judge, start, f);
      } else {
        TakeSound(cfg, dec, judge, start, f, c);
      }
  }

  // ---------- runs ----------

  predicate FineRun(cfg: Config, dec: Decoder, judge: Publication -> Verdict, start: Device, f: FineState, steps: seq<FineStep>)
    requires Sound(cfg, f)
    decreases |steps|
  {
    steps == [] ||
    (&& FineEnabled(f, steps[0])
     && (StepSimulates(cfg, dec, judge, start, f, steps[0]);
         FineRun(cfg, dec, judge, start, FineApply(cfg, dec, judge, start, f, steps[0]), steps[1..])))
  }

  function FineAfter(cfg: Config, dec: Decoder, judge: Publication -> Verdict, start: Device, f: FineState, steps: seq<FineStep>): (g: FineState)
    requires Sound(cfg, f) && FineRun(cfg, dec, judge, start, f, steps)
    ensures Sound(cfg, g)
    decreases |steps|
  {
    if steps == [] then f
    else
      StepSimulates(cfg, dec, judge, start, f, steps[0]);
      FineAfter(cfg, dec, judge, start, FineApply(cfg, dec, judge, start, f, steps[0]), steps[1..])
  }

  /** The steps of the coarse machine in a run. */
  function CoarseRun(steps: seq<FineStep>): seq<Step> {
    if steps == [] then [] else CoarseSteps(steps[0]) + CoarseRun(steps[1..])
  }

  /** Refinement: leave the pin writes out of any run and what remains is a run of the
      coarse machine, ending in the state the fine state stands for. */
  lemma {:induction false} RunSimulates(cfg: Config, dec: Decoder, judge: Publication -> Verdict, start: Device, f: FineState, steps: seq<FineStep>)
    requires Sound(cfg, f) && FineRun(cfg, dec, judge, start, f, steps)
    ensures var env := FirmwareWith(cfg, dec, judge, start);
            && Run(env, Abs(cfg, f), CoarseRun(steps))
            && After(env, Abs(cfg, f), CoarseRun(steps)) == Abs(cfg, FineAfter(cfg, dec, judge, start, f, steps))
    decreases |steps|
  {
    if steps != [] {
      StepSimulates(cfg, dec, judge, start, f, steps[0]);
      RunSimulates(cfg, dec, judge, start, FineApply(cfg, dec, judge, start, f, steps[0]), steps[1..]);
      var rest := CoarseRun(steps[1..]);
      if steps[0].Coarse? {
        var all := [steps[0].step] + rest;
        assert all[0] == steps[0].step && all[1..] == rest;
      } else {
        assert [] + rest == rest;
      }
    }
  }

  function FineInit(env: Env, trace: Trace): FineState {
    FineState(Init(env), NoJob, trace)
  }

  /** Sequential refinement down to the pins: whenever the executor is between two
      dispatches the device is where the commands taken so far, run one after the other,
      leave it; in the middle of one the device is on its way to where that command,
      too, leaves it. */
  lemma RefinementAtPinLevel(cfg: Config, dec: Decoder, judge: Publication -> Verdict, start: Device, trace: Trace, steps: seq<FineStep>)
    requires |cfg.names| == |cfg.pairs| == |start.states|
    requires FineRun(cfg, dec, judge, start, FineInit(FirmwareWith(cfg, dec, judge, start), trace), steps)
    ensures var env := FirmwareWith(cfg, dec, judge, start);
            var g := FineAfter(cfg, dec, judge, start, FineInit(env, trace), steps);
            && (g.job == NoJob ==> g.s.device == CommandRuns.DeviceAfter(env, g.s.taken))
            && (g.job.Setting? ==> Outcome(cfg, g).device == CommandRuns.DeviceAfter(env, g.s.taken))
            && CommandRuns.AllReplies(Abs(cfg, g)) == CommandRuns.RepliesTo(env, g.s.taken)
  {
    var env := FirmwareWith(cfg, dec, judge, start);
    RunSimulates(cfg, dec, judge, start, FineInit(env, trace), steps);
    CommandRuns.SequentialRefinement(env, CoarseRun(steps));
  }

  /** What is left of the job, in steps. */
  function JobLeft(job: Job): nat
    requires job.Setting? ==> job.i <= |job.steps|
  {
    match job
    case NoJob => 0
    case Setting(_, steps, i, phase) =>
      4 * (|steps| - i) + 4 - (match phase case Check => 0 case Low => 1 case High => 2 case Record => 3)
  }

  lemma MicroSound(cfg: Config, f: FineState)
    requires Sound(cfg, f) && f.job.Setting?
    ensures Sound(cfg, MicroApply(cfg, f))
  {
  }

  /** A pin write or a record touches only the device, the executor and the job. */
  lemma MicroFrame(cfg: Config, f: FineState)
    requires Sound(cfg, f) && f.job.Setting?
    ensures var g := MicroApply(cfg, f);
            && g.s == f.s.(device := g.s.device, exec := g.s.exec)
            && (g.job.Setting? ==> g.s.exec == f.s.exec && g.job.steps == f.job.steps)
  {
  }

  /** A job ends: it can always go on, and every step of it brings it nearer to its end. */
  lemma JobEnds(cfg: Config, f: FineState)
    requires Sound(cfg, f) && f.job.Setting?
    ensures FineEnabled(f, Micro)
    ensures Sound(cfg, MicroApply(cfg, f)) && JobLeft(MicroApply(cfg, f).job) < JobLeft(f.job)
  {
    MicroSound(cfg, f);
  }

  // ---------- the pins ----------

  /** The states the device will record when the pulse under way is complete. */
  function Recorded(cfg: Config, f: FineState): seq<char>
    requires Sound(cfg, f)
  {
    if f.job.Setting? && (f.job.phase == High || f.job.phase == Record) then
      var step := f.job.steps[f.job.i];
      f.s.device.states[FindSwitch(cfg.names, step.switchName) := step.state]
    else f.s.device.states
  }

  /** The pins that are high: the one being pulsed, or none. */
  function Raised(cfg: Config, f: FineState): set<nat>
    requires Sound(cfg, f)
  {
    if f.job.Setting? && f.job.phase == High then
      var step := f.job.steps[f.job.i];
      {PinFor(cfg.pairs[FindSwitch(cfg.names, step.switchName)], step.state)}
    else {}
  }

  ghost predicate PinsRight(cfg: Config, f: FineState)
    requires Sound(cfg, f)
  {
    && HighAfter(f.trace) == Raised(cfg, f)
    && NeverTwoHigh(f.trace)
    && Agrees(f.trace, cfg.pairs, Recorded(cfg, f))
  }

  /** Writing one control pin of a switch when no other pin is high. */
  lemma WriteKeepsPins(trace: Trace, pairs: seq<PinPair>, states: seq<char>, k: nat, state: char, level: bool)
    requires Agrees(trace, pairs, states) && Disjoint(pairs) && k < |pairs| && Settable(state)
    requires NeverTwoHigh(trace) && HighAfter(trace) <= {PinFor(pairs[k], state)}
    ensures var pin := PinFor(pairs[k], state);
            var longer := trace + [PinWrite(pin, level)];
            && HighAfter(longer) == (if level then {pin} else {}) && NeverTwoHigh(longer)
            && Agrees(longer, pairs, if level then states[k := state] else states)
  {
    var w := PinWrite(PinFor(pairs[k], state), level);
    HighAfterSnoc(trace, w);
    NeverTwoHighSnoc(trace, w);
    forall j | 0 <= j < |pairs|
      ensures LastPulsed(trace + [w], pairs[j]) == (if level then states[k := state] else states)[j]
    {
      LastPulsedSnoc(trace, w, pairs[j]);
    }
  }

  lemma CheckKeepsPins(cfg: Config, f: FineState)
    requires Sound(cfg, f) && AtGoodStep(cfg, f) && Disjoint(cfg.pairs) && PinsRight(cfg, f) && f.job.phase == Check
    ensures Sound(cfg, MicroApply(cfg, f)) && PinsRight(cfg, MicroApply(cfg, f))
  {
    var step := f.job.steps[f.job.i];
    WriteKeepsPins(f.trace, cfg.pairs, f.s.device.states, FindSwitch(cfg.names, step.switchName), step.state, false);
  }

  lemma LowKeepsPins(cfg: Config, f: FineState)
    requires Sound(cfg, f) && AtGoodStep(cfg, f) && Disjoint(cfg.pairs) && PinsRight(cfg, f) && f.job.phase == Low
    ensures Sound(cfg, MicroApply(cfg, f)) && PinsRight(cfg, MicroApply(cfg, f))
  {
    var step := f.job.steps[f.job.i];
    WriteKeepsPins(f.trace, cfg.pairs, f.s.device.states, FindSwitch(cfg.names, step.switchName), step.state, true);
  }

  lemma HighKeepsPins(cfg: Config, f: FineState)
    requires Sound(cfg, f) && AtGoodStep(cfg, f) && Disjoint(cfg.pairs) && PinsRight(cfg, f) && f.job.phase == High
    ensures Sound(cfg, MicroApply(cfg, f)) && PinsRight(cfg, MicroApply(cfg, f))
  {
    var step := f.job.steps[f.job.i];
    WriteKeepsPins(f.trace, cfg.pairs, Recorded(cfg, f), FindSwitch(cfg.names, step.switchName), step.state, false);
  }

  /** Recording the new position, or stopping, writes no pin. */
  lemma RestKeepsPins(cfg: Config, f: FineState)
    requires Sound(cfg, f) && f.job.Setting? && PinsRight(cfg, f)
    requires !AtGoodStep(cfg, f) || f.job.phase == Record
    ensures Sound(cfg, MicroApply(cfg, f)) && PinsRight(cfg, MicroApply(cfg, f))
  {
    MicroSound(cfg, f);
  }

  lemma MicroKeepsPins(cfg: Config, f: FineState)
    requires Sound(cfg, f) && f.job.Setting? && Disjoint(cfg.pairs) && PinsRight(cfg, f)
    ensures Sound(cfg, MicroApply(cfg, f)) && PinsRight(cfg, MicroApply(cfg, f))
  {
    if !AtGoodStep(cfg, f) || f.job.phase == Record {
      RestKeepsPins(cfg, f);
    } else {
      match f.job.phase
      case Check => CheckKeepsPins(cfg, f);
      case Low => LowKeepsPins(cfg, f);
      case High => HighKeepsPins(cfg, f);
    }
  }

  /** Apart from set requests for routes, nothing that comes through dispatch moves a
      switch. */
  lemma OnlyRoutesMoveSwitches(cfg: Config, dec: Decoder, dev: Device, cmd: Command)
    requires |dev.states| == |cfg.names| && Shaped(cmd) && !StartsJob(cfg, dec, dev, cmd)
    ensures Handle(cfg, dec, dev, cmd).device.states == dev.states
  {
    if FindDispatch(TextOf(cmd.key)) == 1 {
      SingleDevicesUnreachable(cfg, dec, dev, cmd);
    }
  }

  lemma TakeMovesNoSwitch(cfg: Config, dec: Decoder, judge: Publication -> Verdict, start: Device, dev: Device, cmd: Command)
    requires !StartsJob(cfg, dec, dev, cmd)
    ensures FirmwareWith(cfg, dec, judge, start).handle(dev, cmd).0.states == dev.states
  {
    if |dev.states| == |cfg.names| && Shaped(cmd) {
      OnlyRoutesMoveSwitches(cfg, dec, dev, cmd);
    }
  }

  /** The steps of the coarse machine write no pin and move no switch. */
  lemma CoarseMovesNoSwitch(cfg: Config, dec: Decoder, judge: Publication -> Verdict, start: Device, f: FineState, c: Step)
    requires Sound(cfg, f) && FineEnabled(f, Coarse(c))
    ensures var g := FineApply(cfg, dec, judge, start, f, Coarse(c));
            && g.trace == f.trace && g.s.device.states == f.s.device.states
            && (g.job == f.job || (f.job == NoJob && g.job.Setting? && g.job.phase == Check))
  {
    if c.Take? && !StartsJob(cfg, dec, f.s.device, f.s.inbound[0]) {
      TakeMovesNoSwitch(cfg, dec, judge, start, f.s.device, f.s.inbound[0]);
    }
  }

  lemma SamePins(cfg: Config, f: FineState, g: FineState)
    requires Sound(cfg, f) && Sound(cfg, g) && PinsRight(cfg, f)
    requires g.trace == f.trace && g.s.device.states == f.s.device.states
    requires g.job == f.job || (f.job == NoJob && g.job.Setting? && g.job.phase == Check)
    ensures PinsRight(cfg, g)
  {
  }

  lemma StepKeepsPins(cfg: Config, dec: Decoder, judge: Publication -> Verdict, start: Device, f: FineState, step: FineStep)
    requires Sound(cfg, f) && FineEnabled(f, step) && Disjoint(cfg.pairs) && PinsRight(cfg, f)
    ensures Sound(cfg, FineApply(cfg, dec, judge, start, f, step)) && PinsRight(cfg, FineApply(cfg, dec, judge, start, f, step))
  {
    match step
    case Micro => MicroKeepsPins(cfg, f);
    case Coarse(c) =>
      StepSimulates(cfg, dec, judge, start, f, step);
      CoarseMovesNoSwitch(cfg, dec, judge, start, f, c);
      SamePins(cfg, f, FineApply(cfg, dec, judge, start, f, step));
  }

  lemma {:induction false} RunKeepsPins(cfg: Config, dec: Decoder, judge: Publication -> Verdict, start: Device, f: FineState, steps: seq<FineStep>)
    requires Sound(cfg, f) && FineRun(cfg, dec, judge, start, f, steps) && Disjoint(cfg.pairs) && PinsRight(cfg, f)
    ensures PinsRight(cfg, FineAfter(cfg, dec, judge, start, f, steps))
    decreases |steps|
  {
    if steps != [] {
      StepKeepsPins(cfg, dec, judge, start, f, steps[0]);
      RunKeepsPins(cfg, dec, judge, start, FineApply(cfg, dec, judge, start, f, steps[0]), steps[1..]);
    }
  }

  /** Hardware agreement over every run of all threads, provided no pin is wired twice:
      at no instant were two control pins of the instrument high; between two dispatches
      all are low and each switch's recorded state names the pin pulsed for it last. */
  lemma HardwareAgreement(cfg: Config, dec: Decoder, judge: Publication -> Verdict, start: Device, trace: Trace, steps: seq<FineStep>)
    requires |cfg.names| == |cfg.pairs| == |start.states| && Disjoint(cfg.pairs)
    requires Settled(trace, cfg.pairs, start.states)
    requires FineRun(cfg, dec, judge, start, FineInit(FirmwareWith(cfg, dec, judge, start), trace), steps)
    ensures var g := FineAfter(cfg, dec, judge, start, FineInit(FirmwareWith(cfg, dec, judge, start), trace), steps);
            && NeverTwoHigh(g.trace)
            && (g.job == NoJob ==> Settled(g.trace, cfg.pairs, g.s.device.states))
  {
    RunKeepsPins(cfg, dec, judge, start, FineInit(FirmwareWith(cfg, dec, judge, start), trace), steps);
  }
}
