/** Deadlock freedom and progress of the firmware. */
module Progress {
  import opened Pipeline
  import Telemetry

  /** New work from outside: a publication, or a new photodiode sample. */
  predicate Arrival(step: Step) {
    step.Receive? || step.Produce?
  }

  /** Main going round its loop, or losing or regaining the connection. */
  predicate Turn(step: Step) {
    step.Connect? || step.EnterProcess? || step.LeaveProcess? || step.Disconnect?
  }

  /** A queue operation that moves work along. */
  predicate Work(step: Step) {
    !Arrival(step) && !Turn(step)
  }

  /** The queue operations still to be done for what is in the system: three for each
      waiting command, two for a reply in hand, one for each outbound message, three for
      each queued sample, two for one on its way over, two for a refusal in hand, and
      four to six for a sample the photodiode thread is putting. */
  function Measure(s: State): nat {
    3 * |s.inbound| + (if s.exec.Holding? then 2 else 0) + |s.outbound|
    + 3 * |s.samples| + (if s.work.Moving? then 2 else 0)
    + (if s.main.Refusing? then 2 else 0)
    + (match s.photodiode
       case Resting => 0
       case Putting(_, purged) => if purged then 4 else 6
       case Purging(_) => 5)
  }

  /** With the queue depths of the firmware there are never more than 38. */
  lemma MeasureBounded(s: State)
    requires Bounded(s)
    ensures Measure(s) <= 38
  {
  }

  lemma CommandWorkDecreases(env: Env, s: State, step: Step)
    requires Enabled(s, step) && (step.Take? || step.PutReply? || step.Publish? || step.SendRefusal?)
    ensures Measure(Apply(env, s, step)) < Measure(s)
  {
  }

  lemma SampleWorkDecreases(env: Env, s: State, step: Step)
    requires Bounded(s) && Telemetry.PurgeHolds(s) && Enabled(s, step)
    requires step.PutSample? || step.PutFails? || step.Purge? || step.MoveGet? || step.MovePut?
    ensures Measure(Apply(env, s, step)) < Measure(s)
  {
  }

  /** Every queue operation counts, and going round the loop does not set it back. */
  lemma WorkDecreases(env: Env, s: State, step: Step)
    requires Bounded(s) && Telemetry.PurgeHolds(s) && Enabled(s, step) && !Arrival(step)
    ensures Work(step) ==> Measure(Apply(env, s, step)) < Measure(s)
    ensures Turn(step) ==> Measure(Apply(env, s, step)) == Measure(s)
  {
    if step.Take? || step.PutReply? || step.Publish? || step.SendRefusal? {
      CommandWorkDecreases(env, s, step);
    } else if Work(step) {
      SampleWorkDecreases(env, s, step);
    }
  }

  /** A queue operation that is possible now, if there is one. */
  function NextWork(s: State): Step {
    if Enabled(s, SendRefusal) then SendRefusal
    else if Enabled(s, Publish) then Publish
    else if Enabled(s, PutReply) then PutReply
    else if Enabled(s, Take) then Take
    else if Enabled(s, MovePut) then MovePut
    else if Enabled(s, MoveGet) then MoveGet
    else if Enabled(s, PutSample) then PutSample
    else if Enabled(s, Purge) then Purge
    else PutFails
  }

  /** No deadlock: with main in its connected loop and anything left to do, a queue
      operation is possible, or the only thing in the way is that main has not come back
      from `coo_mqtt_process` yet; the outbound queue is then full, the executor holds a
      reply for it, and on main's return publishing is possible. */
  lemma NoDeadlock(env: Env, s: State)
    requires Bounded(s) && !s.main.Offline? && Measure(s) > 0
    ensures
      || (Work(NextWork(s)) && Enabled(s, NextWork(s)))
      || (&& s.main == Processing && s.outbound != [] && s.photodiode == Resting && s.samples == [] && s.work == Idle
          && ((s.inbound == [] && s.exec == Waiting) || (|s.outbound| == OUTBOUND_DEPTH && s.exec.Holding?))
          && Enabled(s, LeaveProcess) && Enabled(Apply(env, s, LeaveProcess), Publish))
  {
  }

  function CountWork(steps: seq<Step>): nat {
    if steps == [] then 0 else (if Work(steps[0]) then 1 else 0) + CountWork(steps[1..])
  }

  ghost predicate NoArrivals(steps: seq<Step>) {
    forall i :: 0 <= i < |steps| ==> !Arrival(steps[i])
  }

  /** Any run without arrivals, however it interleaves and however often main turns or
      loses the connection, does no more queue operations than the measure says. */
  lemma {:induction false} WorkIsBounded(env: Env, s: State, steps: seq<Step>)
    requires Bounded(s) && Telemetry.PurgeHolds(s) && Run(env, s, steps) && NoArrivals(steps)
    ensures Measure(After(env, s, steps)) + CountWork(steps) <= Measure(s) <= 38
    ensures Bounded(After(env, s, steps))
    decreases |steps|
  {
    MeasureBounded(s);
    if steps != [] {
      assert !Arrival(steps[0]);
      var t := Apply(env, s, steps[0]);
      WorkDecreases(env, s, steps[0]);
      StepKeepsBounded(env, s, steps[0]);
      Telemetry.PurgeHoldsStep(env, s, steps[0]);
      assert forall i :: 0 <= i < |steps[1..]| ==> steps[1..][i] == steps[i + 1];
      WorkIsBounded(env, t, steps[1..]);
    }
  }

  lemma RunOfTwo(env: Env, s: State, a: Step, b: Step)
    requires Enabled(s, a) && Enabled(Apply(env, s, a), b)
    ensures Run(env, s, [a, b]) && After(env, s, [a, b]) == Apply(env, Apply(env, s, a), b)
  {
    var u := Apply(env, s, a);
    var v := Apply(env, u, b);
    assert Run(env, v, []) && After(env, v, []) == v;
    assert [b][1..] == [];
    assert Run(env, u, [b]) && After(env, u, [b]) == v;
    assert [a, b][1..] == [b];
  }

  lemma Ahead(env: Env, s: State, first: seq<Step>) returns (t: State)
    requires Bounded(s) && Telemetry.PurgeHolds(s) && !s.main.Offline? && Measure(s) > 0
    requires first == if Enabled(s, NextWork(s)) then [NextWork(s)] else [LeaveProcess, Publish]
    ensures Run(env, s, first) && t == After(env, s, first) && NoArrivals(first)
    ensures Bounded(t) && Telemetry.PurgeHolds(t) && !t.main.Offline? && Measure(t) < Measure(s)
  {
    NoDeadlock(env, s);
    var u := Apply(env, s, first[0]);
    WorkDecreases(env, s, first[0]);
    StepKeepsBounded(env, s, first[0]);
    Telemetry.PurgeHoldsStep(env, s, first[0]);
    if |first| == 1 {
      t := u;
      assert first[1..] == [];
    } else {
      assert u.outbound == s.outbound && u.main == Draining;
      t := Apply(env, u, Publish);
      WorkDecreases(env, u, Publish);
      StepKeepsBounded(env, u, Publish);
      Telemetry.PurgeHoldsStep(env, u, Publish);
      RunOfTwo(env, s, LeaveProcess, Publish);
    }
  }

  /** And a connected system can always finish: some run without arrivals drains all
      queues and hands within two steps for each queue operation, one operation and at
      most one turn of main before it. */
  lemma {:induction false} CanDrain(env: Env, s: State) returns (steps: seq<Step>)
    requires Bounded(s) && Telemetry.PurgeHolds(s) && !s.main.Offline?
    ensures Run(env, s, steps) && NoArrivals(steps) && |steps| <= 2 * Measure(s)
    ensures var t := After(env, s, steps);
            && !t.main.Offline? && t.inbound == [] && t.outbound == [] && t.samples == []
            && t.exec == Waiting && t.work == Idle && t.photodiode == Resting && !t.main.Refusing?
    decreases Measure(s)
  {
    if Measure(s) == 0 {
      return [];
    }
    NoDeadlock(env, s);
    var first := if Enabled(s, NextWork(s)) then [NextWork(s)] else [LeaveProcess, Publish];
    var t := Ahead(env, s, first);
    var rest := CanDrain(env, t);
    steps := first + rest;
    RunConcat(env, s, first, rest);
  }

  /** Every state of every run of the firmware is one these lemmas speak about. */
  lemma {:induction false} ReachedStates(env: Env, s: State, steps: seq<Step>)
    requires Bounded(s) && Telemetry.PurgeHolds(s) && Run(env, s, steps)
    ensures Bounded(After(env, s, steps)) && Telemetry.PurgeHolds(After(env, s, steps))
    decreases |steps|
  {
    if steps != [] {
      StepKeepsBounded(env, s, steps[0]);
      Telemetry.PurgeHoldsStep(env, s, steps[0]);
      ReachedStates(env, Apply(env, s, steps[0]), steps[1..]);
    }
  }

  /** No run ever leads into a dead end: in every state a run reaches, connected and with
      work left, a queue operation is possible, at once or after main's return from
      `coo_mqtt_process`. */
  lemma NeverStuck(env: Env, steps: seq<Step>)
    requires Run(env, Init(env), steps)
    requires !After(env, Init(env), steps).main.Offline? && Measure(After(env, Init(env), steps)) > 0
    ensures var s := After(env, Init(env), steps);
            || (exists step :: Work(step) && Enabled(s, step))
            || (Enabled(s, LeaveProcess) && Enabled(Apply(env, s, LeaveProcess), Publish))
  {
    ReachedStates(env, Init(env), steps);
    NoDeadlock(env, After(env, Init(env), steps));
  }

  lemma NothingLeft(t: State)
    ensures Measure(t) == 0 <==>
            && t.inbound == [] && t.outbound == [] && t.samples == []
            && t.exec == Waiting && t.work == Idle && t.photodiode == Resting && !t.main.Refusing?
  {
  }

  /** Progress over whole runs: from any state a run reaches while connected, all that is
      in the system can be drained, and no run without arrivals does more than 38 queue
      operations. */
  lemma EveryRunCanDrain(env: Env, steps: seq<Step>) returns (more: seq<Step>)
    requires Run(env, Init(env), steps) && !After(env, Init(env), steps).main.Offline?
    ensures var s := After(env, Init(env), steps);
            && Run(env, s, more) && NoArrivals(more) && |more| <= 76 && CountWork(more) <= 38
            && Measure(After(env, s, more)) == 0
  {
    ReachedStates(env, Init(env), steps);
    var s := After(env, Init(env), steps);
    MeasureBounded(s);
    more := CanDrain(env, s);
    WorkIsBounded(env, s, more);
    NothingLeft(After(env, s, more));
  }
}
