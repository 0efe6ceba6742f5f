/** Deadlock freedom and progress when setting a route takes many steps, and what follows
    for requests one after the other: each is carried out, pins and all. */
module PinProgress {
  import opened Sequences
  import opened Routing
  import opened Pins
  import opened Messages
  import opened Dispatch
  import opened Receiving
  import opened Pipeline
  import opened PinRuns
  import PinTraces
  import CommandRuns
  import Progress
  import Telemetry

  /** The steps of the longest route there may be. */
  const JOB_STEPS: nat := 4 * MAX_ROUTE_PATH + 4

  /** What `mems_router_define_route` sees to. */
  ghost predicate RoutesFit(cfg: Config) {
    forall i :: 0 <= i < |cfg.routes| ==> |cfg.routes[i].steps| <= MAX_ROUTE_PATH
  }

  predicate Arrival(step: FineStep) {
    step.Coarse? && Progress.Arrival(step.step)
  }

  /** A queue operation, a pin write or a record. */
  predicate Work(step: FineStep) {
    step.Micro? || Progress.Work(step.step)
  }

  /** What is still to be done: the queue operations, and for every command that waits or
      is under way the steps of a route. */
  function Measure(f: FineState): nat
    requires f.job.Setting? ==> f.job.i <= |f.job.steps|
  {
    Progress.Measure(f.s) + JOB_STEPS * |f.s.inbound| + JobLeft(f.job) + if f.job.Setting? then 2 else 0
  }

  /** The states of runs. */
  ghost predicate Going(cfg: Config, f: FineState) {
    && Sound(cfg, f) && Bounded(f.s) && Telemetry.PurgeHolds(f.s)
    && (f.job.Setting? ==> |f.job.steps| <= MAX_ROUTE_PATH)
  }

  lemma MeasureBounded(cfg: Config, f: FineState)
    requires Going(cfg, f)
    ensures Measure(f) <= 110
  {
  }

  lemma RequestedFit(cfg: Config, dec: Decoder, cmd: Command)
    requires RoutesFit(cfg) && cmd.payloadLen <= |cmd.payload|
    ensures |RequestedSteps(cfg, dec, cmd).0| <= MAX_ROUTE_PATH
  {
  }

  lemma BeginGoes(cfg: Config, dec: Decoder, f: FineState)
    requires Going(cfg, f) && RoutesFit(cfg) && FineEnabled(f, Coarse(Take))
    requires StartsJob(cfg, dec, f.s.device, f.s.inbound[0])
    ensures Going(cfg, BeginJob(cfg, dec, f)) && Measure(BeginJob(cfg, dec, f)) < Measure(f)
  {
    RequestedFit(cfg, dec, f.s.inbound[0]);
  }

  lemma InboundShrinks(env: Env, s: State, c: Step)
    requires Enabled(s, c) && !Progress.Arrival(c)
    ensures |Apply(env, s, c).inbound| <= |s.inbound|
    ensures Progress.Turn(c) ==> Apply(env, s, c).inbound == s.inbound
  {
  }

  lemma CoarseGoes(cfg: Config, env: Env, f: FineState, c: Step)
    requires Going(cfg, f) && FineEnabled(f, Coarse(c)) && Sound(cfg, f.(s := Apply(env, f.s, c)))
    ensures var g := f.(s := Apply(env, f.s, c));
            && Going(cfg, g)
            && (Progress.Work(c) ==> Measure(g) < Measure(f))
            && (Progress.Turn(c) ==> Measure(g) == Measure(f))
  {
    StepKeepsBounded(env, f.s, c);
    Telemetry.PurgeHoldsStep(env, f.s, c);
    if !Progress.Arrival(c) {
      Progress.WorkDecreases(env, f.s, c);
      InboundShrinks(env, f.s, c);
    }
  }

  /** What a pin write or a record leaves to be done. */
  lemma JobGoes(cfg: Config, f: FineState, g: FineState)
    requires Going(cfg, f) && f.job.Setting? && Sound(cfg, g) && JobLeft(g.job) < JobLeft(f.job)
    requires g.s == f.s.(device := g.s.device, exec := g.s.exec)
    requires g.job.Setting? ==> g.s.exec == f.s.exec && g.job.steps == f.job.steps
    ensures Going(cfg, g) && Measure(g) < Measure(f)
  {
  }

  lemma MicroGoes(cfg: Config, f: FineState)
    requires Going(cfg, f) && f.job.Setting?
    ensures Going(cfg, MicroApply(cfg, f)) && Measure(MicroApply(cfg, f)) < Measure(f)
    ensures MicroApply(cfg, f).s.main == f.s.main && MicroApply(cfg, f).s.accepted == f.s.accepted
  {
    var g := MicroApply(cfg, f);
    JobEnds(cfg, f);
    MicroFrame(cfg, f);
    JobGoes(cfg, f, g);
  }

  /** Every working step counts, main going round its loop does not set it back, and
      every step leads to a state of the kind. */
  lemma StepGoes(cfg: Config, dec: Decoder, judge: Publication -> Verdict, start: Device, f: FineState, step: FineStep)
    requires Going(cfg, f) && RoutesFit(cfg) && FineEnabled(f, step)
    ensures var g := FineApply(cfg, dec, judge, start, f, step);
            && Going(cfg, g)
            && (Work(step) ==> Measure(g) < Measure(f))
            && (!Work(step) && !Arrival(step) ==> Measure(g) == Measure(f))
  {
    match step
    case Micro => MicroGoes(cfg, f);
    case Coarse(c) =>
      StepSimulates(cfg, dec, judge, start, f, step);
      if c.Take? && StartsJob(cfg, dec, f.s.device, f.s.inbound[0]) {
        BeginGoes(cfg, dec, f);
      } else {
        CoarseGoes(cfg, FirmwareWith(cfg, dec, judge, start), f, c);
      }
  }

  /** Nothing waits, nothing is in a hand, no route is under way. */
  predicate Idle(f: FineState) {
    && f.job == NoJob
    && f.s.inbound == [] && f.s.outbound == [] && f.s.samples == []
    && f.s.exec == Waiting && f.s.work == Pipeline.Idle && f.s.photodiode == Resting && !f.s.main.Refusing?
  }

  lemma NothingLeft(f: FineState)
    requires f.job.Setting? ==> f.job.i <= |f.job.steps|
    ensures Measure(f) == 0 <==> Idle(f)
  {
  }

  /** A working step that is possible now, if there is one. */
  function NextWork(f: FineState): FineStep {
    if f.job.Setting? then Micro else Coarse(Progress.NextWork(f.s))
  }

  /** No deadlock, inside a route or outside: connected and with anything left to do, a
      working step is possible, or main only has to come back from `coo_mqtt_process`
      and can then publish. */
  lemma NoDeadlock(cfg: Config, env: Env, f: FineState)
    requires Going(cfg, f) && !f.s.main.Offline? && Measure(f) > 0
    ensures
      || (Work(NextWork(f)) && FineEnabled(f, NextWork(f)))
      || (&& f.job == NoJob && f.s.main == Processing && f.s.outbound != []
          && FineEnabled(f, Coarse(LeaveProcess)) && Enabled(Apply(env, f.s, LeaveProcess), Publish))
  {
    if f.job.Setting? {
      JobEnds(cfg, f);
    } else {
      Progress.NoDeadlock(env, f.s);
    }
  }

  ghost predicate NoArrivals(steps: seq<FineStep>) {
    forall i :: 0 <= i < |steps| ==> !Arrival(steps[i])
  }

  function CountWork(steps: seq<FineStep>): nat {
    if steps == [] then 0 else (if Work(steps[0]) then 1 else 0) + CountWork(steps[1..])
  }

  lemma {:induction false} RunGoes(cfg: Config, dec: Decoder, judge: Publication -> Verdict, start: Device,
                                   f: FineState, steps: seq<FineStep>)
    requires Going(cfg, f) && RoutesFit(cfg) && FineRun(cfg, dec, judge, start, f, steps)
    ensures Going(cfg, FineAfter(cfg, dec, judge, start, f, steps))
    decreases |steps|
  {
    if steps != [] {
      StepGoes(cfg, dec, judge, start, f, steps[0]);
      RunGoes(cfg, dec, judge, start, FineApply(cfg, dec, judge, start, f, steps[0]), steps[1..]);
    }
  }

  /** Any run without arrivals, however it interleaves, makes no more queue operations,
      pin writes and records than the measure says. */
  lemma {:induction false} WorkIsBounded(cfg: Config, dec: Decoder, judge: Publication -> Verdict, start: Device,
                                         f: FineState, steps: seq<FineStep>)
    requires Going(cfg, f) && RoutesFit(cfg) && FineRun(cfg, dec, judge, start, f, steps) && NoArrivals(steps)
    ensures Going(cfg, FineAfter(cfg, dec, judge, start, f, steps))
    ensures Measure(FineAfter(cfg, dec, judge, start, f, steps)) + CountWork(steps) <= Measure(f) <= 110
    decreases |steps|
  {
    MeasureBounded(cfg, f);
    if steps != [] {
      assert !Arrival(steps[0]);
      assert forall i :: 0 <= i < |steps[1..]| ==> steps[1..][i] == steps[i + 1];
      StepGoes(cfg, dec, judge, start, f, steps[0]);
      WorkIsBounded(cfg, dec, judge, start, FineApply(cfg, dec, judge, start, f, steps[0]), steps[1..]);
    }
  }

  // ---------- runs put together ----------

  lemma OneStep(cfg: Config, dec: Decoder, judge: Publication -> Verdict, start: Device, f: FineState, step: FineStep)
    requires Sound(cfg, f) && FineEnabled(f, step)
    ensures FineRun(cfg, dec, judge, start, f, [step])
    ensures FineAfter(cfg, dec, judge, start, f, [step]) == FineApply(cfg, dec, judge, start, f, step)
  {
    StepSimulates(cfg, dec, judge, start, f, step);
    var g := FineApply(cfg, dec, judge, start, f, step);
    assert [step][1..] == [];
    assert FineRun(cfg, dec, judge, start, g, []) && FineAfter(cfg, dec, judge, start, g, []) == g;
  }

  lemma RunFrom(cfg: Config, dec: Decoder, judge: Publication -> Verdict, start: Device, f: FineState, first: FineStep, rest: seq<FineStep>)
    requires Sound(cfg, f) && FineEnabled(f, first) && Sound(cfg, FineApply(cfg, dec, judge, start, f, first))
    requires FineRun(cfg, dec, judge, start, FineApply(cfg, dec, judge, start, f, first), rest)
    ensures FineRun(cfg, dec, judge, start, f, [first] + rest)
    ensures FineAfter(cfg, dec, judge, start, f, [first] + rest) ==
            FineAfter(cfg, dec, judge, start, FineApply(cfg, dec, judge, start, f, first), rest)
  {
    var all := [first] + rest;
    assert all[0] == first && all[1..] == rest;
  }

  lemma {:induction false} RunOn(cfg: Config, dec: Decoder, judge: Publication -> Verdict, start: Device,
                                 f: FineState, a: seq<FineStep>, b: seq<FineStep>)
    requires Sound(cfg, f) && FineRun(cfg, dec, judge, start, f, a)
    requires FineRun(cfg, dec, judge, start, FineAfter(cfg, dec, judge, start, f, a), b)
    ensures FineRun(cfg, dec, judge, start, f, a + b)
    ensures FineAfter(cfg, dec, judge, start, f, a + b) ==
            FineAfter(cfg, dec, judge, start, FineAfter(cfg, dec, judge, start, f, a), b)
    decreases |a|
  {
    if a == [] {
      assert a + b == b;
    } else {
      var first, rest := a[0], a[1..];
      FirstThenRest(a, b);
      StepSimulates(cfg, dec, judge, start, f, first);
      RunOn(cfg, dec, judge, start, FineApply(cfg, dec, judge, start, f, first), rest, b);
      RunFrom(cfg, dec, judge, start, f, first, rest + b);
    }
  }

  lemma StaysConnected(env: Env, s: State, c: Step)
    requires Enabled(s, c) && !Progress.Arrival(c) && (Progress.Turn(c) ==> c.LeaveProcess?) && !s.main.Offline?
    ensures !Apply(env, s, c).main.Offline? && Apply(env, s, c).accepted == s.accepted
    ensures c.LeaveProcess? ==> Apply(env, s, c).main == Draining
  {
  }

  /** The next step of a run that drains the system: a working step, or main's return. */
  lemma Onwards(cfg: Config, dec: Decoder, judge: Publication -> Verdict, start: Device, f: FineState)
    returns (step: FineStep)
    requires Going(cfg, f) && RoutesFit(cfg) && !f.s.main.Offline? && Measure(f) > 0
    ensures FineEnabled(f, step) && !Arrival(step)
    ensures var g := FineApply(cfg, dec, judge, start, f, step);
            && Going(cfg, g) && !g.s.main.Offline? && g.s.accepted == f.s.accepted
            && 2 * Measure(g) + (if g.s.main == Processing then 1 else 0) <
               2 * Measure(f) + (if f.s.main == Processing then 1 else 0)
  {
    var env := FirmwareWith(cfg, dec, judge, start);
    NoDeadlock(cfg, env, f);
    step := if FineEnabled(f, NextWork(f)) then NextWork(f) else Coarse(LeaveProcess);
    StepGoes(cfg, dec, judge, start, f, step);
    if f.job.Setting? {
      MicroGoes(cfg, f);
    } else {
      StaysConnected(env, f.s, step.step);
    }
  }

  /** And a connected system can always finish: some run without arrivals completes the
      route under way, carries out what waits and drains all queues, within two steps for
      each step of work. */
  lemma {:induction false} CanDrain(cfg: Config, dec: Decoder, judge: Publication -> Verdict, start: Device, f: FineState)
    returns (steps: seq<FineStep>)
    requires Going(cfg, f) && RoutesFit(cfg) && !f.s.main.Offline?
    ensures FineRun(cfg, dec, judge, start, f, steps) && NoArrivals(steps)
    ensures |steps| <= 2 * Measure(f) + (if f.s.main == Processing then 1 else 0)
    ensures var g := FineAfter(cfg, dec, judge, start, f, steps);
            && Going(cfg, g) && Measure(g) == 0 && !g.s.main.Offline? && g.s.accepted == f.s.accepted
    decreases 2 * Measure(f) + (if f.s.main == Processing then 1 else 0)
  {
    if Measure(f) == 0 {
      return [];
    }
    var step := Onwards(cfg, dec, judge, start, f);
    OneStep(cfg, dec, judge, start, f, step);
    var rest := CanDrain(cfg, dec, judge, start, FineApply(cfg, dec, judge, start, f, step));
    steps := [step] + rest;
    RunOn(cfg, dec, judge, start, f, [step], rest);
  }

  // ---------- whole runs ----------

  lemma InitGoes(cfg: Config, env: Env, before: Trace)
    requires |cfg.names| == |cfg.pairs| == |env.start.states|
    ensures Going(cfg, FineInit(env, before))
  {
  }

  /** No run leads into a dead end: in every state a run reaches, connected and with
      anything left to do, a working step is possible, at once or after main's return. */
  lemma NeverStuck(cfg: Config, dec: Decoder, judge: Publication -> Verdict, start: Device, before: Trace, steps: seq<FineStep>)
    requires |cfg.names| == |cfg.pairs| == |start.states| && RoutesFit(cfg)
    requires FineRun(cfg, dec, judge, start, FineInit(FirmwareWith(cfg, dec, judge, start), before), steps)
    ensures var env := FirmwareWith(cfg, dec, judge, start);
            var f := FineAfter(cfg, dec, judge, start, FineInit(env, before), steps);
            !f.s.main.Offline? && !Idle(f) ==>
              || (Work(NextWork(f)) && FineEnabled(f, NextWork(f)))
              || (FineEnabled(f, Coarse(LeaveProcess)) && Enabled(Apply(env, f.s, LeaveProcess), Publish))
  {
    var env := FirmwareWith(cfg, dec, judge, start);
    InitGoes(cfg, env, before);
    RunGoes(cfg, dec, judge, start, FineInit(env, before), steps);
    var f := FineAfter(cfg, dec, judge, start, FineInit(env, before), steps);
    NothingLeft(f);
    if !f.s.main.Offline? && !Idle(f) {
      NoDeadlock(cfg, env, f);
    }
  }

  /** From every state a run reaches while connected the system can be drained: in at most
      221 steps, of which at most 110 are work. */
  lemma EveryRunCanDrain(cfg: Config, dec: Decoder, judge: Publication -> Verdict, start: Device,
                         before: Trace, steps: seq<FineStep>) returns (more: seq<FineStep>)
    requires |cfg.names| == |cfg.pairs| == |start.states| && RoutesFit(cfg)
    requires FineRun(cfg, dec, judge, start, FineInit(FirmwareWith(cfg, dec, judge, start), before), steps)
    requires !FineAfter(cfg, dec, judge, start, FineInit(FirmwareWith(cfg, dec, judge, start), before), steps).s.main.Offline?
    ensures var f := FineAfter(cfg, dec, judge, start, FineInit(FirmwareWith(cfg, dec, judge, start), before), steps);
            && FineRun(cfg, dec, judge, start, f, more) && NoArrivals(more) && |more| <= 221 && CountWork(more) <= 110
            && Idle(FineAfter(cfg, dec, judge, start, f, more))
  {
    var env := FirmwareWith(cfg, dec, judge, start);
    InitGoes(cfg, env, before);
    RunGoes(cfg, dec, judge, start, FineInit(env, before), steps);
    var f := FineAfter(cfg, dec, judge, start, FineInit(env, before), steps);
    more := CanDrain(cfg, dec, judge, start, f);
    WorkIsBounded(cfg, dec, judge, start, f, more);
    NothingLeft(FineAfter(cfg, dec, judge, start, f, more));
  }

  /** The commands made of publications. */
  function Commands(judge: Publication -> Verdict, pubs: seq<Publication>): (cmds: seq<Command>)
    requires forall i :: 0 <= i < |pubs| ==> judge(pubs[i]).Accepted?
    ensures |cmds| == |pubs|
  {
    seq(|pubs|, i requires 0 <= i < |pubs| => judge(pubs[i]).cmd)
  }

  /** All that is true of a run when it is over: what was accepted has been taken. */
  lemma TakenWhenIdle(cfg: Config, dec: Decoder, judge: Publication -> Verdict, start: Device, before: Trace, steps: seq<FineStep>)
    requires |cfg.names| == |cfg.pairs| == |start.states|
    requires FineRun(cfg, dec, judge, start, FineInit(FirmwareWith(cfg, dec, judge, start), before), steps)
    ensures var g := FineAfter(cfg, dec, judge, start, FineInit(FirmwareWith(cfg, dec, judge, start), before), steps);
            g.s.accepted == g.s.taken + g.s.inbound
  {
    var env := FirmwareWith(cfg, dec, judge, start);
    RunSimulates(cfg, dec, judge, start, FineInit(env, before), steps);
    CommandRuns.InitInv(env);
    CommandRuns.RunKeepsInv(env, Init(env), CoarseRun(steps));
  }

  /** Connected, with everything drained: one more accepted publication can come in and be
      carried out. */
  lemma OneMore(cfg: Config, dec: Decoder, judge: Publication -> Verdict, start: Device, f: FineState, pub: Publication)
    returns (steps: seq<FineStep>)
    requires Going(cfg, f) && RoutesFit(cfg) && Idle(f) && !f.s.main.Offline? && judge(pub).Accepted?
    ensures FineRun(cfg, dec, judge, start, f, steps)
    ensures var g := FineAfter(cfg, dec, judge, start, f, steps);
            Going(cfg, g) && Idle(g) && !g.s.main.Offline? && g.s.accepted == f.s.accepted + [judge(pub).cmd]
  {
    var first := if f.s.main == Draining then [Coarse(EnterProcess)] else [];
    if f.s.main == Draining {
      OneStep(cfg, dec, judge, start, f, Coarse(EnterProcess));
      StepGoes(cfg, dec, judge, start, f, Coarse(EnterProcess));
    }
    var u := FineAfter(cfg, dec, judge, start, f, first);
    assert u.s.inbound == [] && u.s.main == Processing && u.s.accepted == f.s.accepted;
    OneStep(cfg, dec, judge, start, u, Coarse(Receive(pub)));
    StepGoes(cfg, dec, judge, start, u, Coarse(Receive(pub)));
    var v := FineApply(cfg, dec, judge, start, u, Coarse(Receive(pub)));
    assert v.s.accepted == f.s.accepted + [judge(pub).cmd] && v.s.main == Processing;
    var rest := CanDrain(cfg, dec, judge, start, v);
    NothingLeft(FineAfter(cfg, dec, judge, start, v, rest));
    RunOn(cfg, dec, judge, start, u, [Coarse(Receive(pub))], rest);
    RunOn(cfg, dec, judge, start, f, first, [Coarse(Receive(pub))] + rest);
    steps := first + ([Coarse(Receive(pub))] + rest);
  }

  lemma ConnectIdle(cfg: Config, dec: Decoder, judge: Publication -> Verdict, start: Device, before: Trace)
    requires |cfg.names| == |cfg.pairs| == |start.states|
    ensures var f := FineInit(FirmwareWith(cfg, dec, judge, start), before);
            && Sound(cfg, f) && FineRun(cfg, dec, judge, start, f, [Coarse(Connect)])
            && var g := FineAfter(cfg, dec, judge, start, f, [Coarse(Connect)]);
               Going(cfg, g) && Idle(g) && !g.s.main.Offline? && g.s.accepted == []
  {
    OneStep(cfg, dec, judge, start, FineInit(FirmwareWith(cfg, dec, judge, start), before), Coarse(Connect));
  }

  lemma CommandsSnoc(judge: Publication -> Verdict, pubs: seq<Publication>)
    requires pubs != [] && forall i :: 0 <= i < |pubs| ==> judge(pubs[i]).Accepted?
    ensures Commands(judge, pubs) == Commands(judge, pubs[..|pubs| - 1]) + [judge(pubs[|pubs| - 1]).cmd]
  {
  }

  lemma {:induction false} OneByOne(cfg: Config, dec: Decoder, judge: Publication -> Verdict, start: Device,
                                    before: Trace, pubs: seq<Publication>) returns (steps: seq<FineStep>)
    requires |cfg.names| == |cfg.pairs| == |start.states| && RoutesFit(cfg)
    requires forall i :: 0 <= i < |pubs| ==> judge(pubs[i]).Accepted?
    ensures FineRun(cfg, dec, judge, start, FineInit(FirmwareWith(cfg, dec, judge, start), before), steps)
    ensures var g := FineAfter(cfg, dec, judge, start, FineInit(FirmwareWith(cfg, dec, judge, start), before), steps);
            Going(cfg, g) && Idle(g) && !g.s.main.Offline? && g.s.accepted == Commands(judge, pubs)
  {
    if pubs == [] {
      ConnectIdle(cfg, dec, judge, start, before);
      return [Coarse(Connect)];
    }
    var last := |pubs| - 1;
    var f := FineInit(FirmwareWith(cfg, dec, judge, start), before);
    var most := OneByOne(cfg, dec, judge, start, before, pubs[..last]);
    var more := OneMore(cfg, dec, judge, start, FineAfter(cfg, dec, judge, start, f, most), pubs[last]);
    RunOn(cfg, dec, judge, start, f, most, more);
    CommandsSnoc(judge, pubs);
    steps := most + more;
  }

  /** Every sequence of requests that a receiver accepts has a run that carries it out:
      at its end nothing is under way, the device is where the requests, one after the
      other, leave it, and the pins have been written exactly as they ask. */
  lemma EveryRequestCarriedOut(cfg: Config, dec: Decoder, judge: Publication -> Verdict, start: Device,
                               before: Trace, pubs: seq<Publication>) returns (steps: seq<FineStep>)
    requires |cfg.names| == |cfg.pairs| == |start.states| && RoutesFit(cfg)
    requires forall i :: 0 <= i < |pubs| ==> judge(pubs[i]).Accepted?
    ensures FineRun(cfg, dec, judge, start, FineInit(FirmwareWith(cfg, dec, judge, start), before), steps)
    ensures var env, cmds := FirmwareWith(cfg, dec, judge, start), Commands(judge, pubs);
            var g := FineAfter(cfg, dec, judge, start, FineInit(env, before), steps);
            && Idle(g) && g.s.taken == cmds && g.s.device == CommandRuns.DeviceAfter(env, cmds)
            && g.trace == before + PinTraces.Written(cfg, dec, cmds)
  {
    steps := OneByOne(cfg, dec, judge, start, before, pubs);
    TakenWhenIdle(cfg, dec, judge, start, before, steps);
    RefinementAtPinLevel(cfg, dec, judge, start, before, steps);
    PinTraces.WritesAreSequential(cfg, dec, judge, start, before, steps);
  }
}
