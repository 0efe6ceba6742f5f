/** The PID controller, over exact real numbers instead of floats. */
module Pid {
  datatype Gains = Gains(kp: real, ki: real, kd: real)
  datatype Limits = Limits(outMin: real, outMax: real, intMin: real, intMax: real)
  datatype Memory = Memory(integral: real, prevError: real)
  datatype Input = Input(setpoint: real, measured: real, dt: real)

  function Error(u: Input): real {
    u.setpoint - u.measured
  }

  /** Two tests, upper bound first, as in the source: with the bounds crossed the
      upper bound is not respected. */
  function Clamp(x: real, lo: real, hi: real): real {
    if x > hi then hi else if x < lo then lo else x
  }

  function Abs(x: real): real {
    if x < 0.0 then -x else x
  }

  function NextIntegral(lim: Limits, integral: real, u: Input): real {
    Clamp(integral + Error(u) * u.dt, lim.intMin, lim.intMax)
  }

  function Derivative(m: Memory, u: Input): real {
    if u.dt > 0.0 then (Error(u) - m.prevError) / u.dt else 0.0
  }

  function PTerm(g: Gains, u: Input): real {
    g.kp * Error(u)
  }

  function ITerm(g: Gains, integral: real): real {
    g.ki * integral
  }

  function DTerm(g: Gains, m: Memory, u: Input): real {
    g.kd * Derivative(m, u)
  }

  function Limited(p: real, i: real, d: real, lim: Limits): real {
    Clamp(p + i + d, lim.outMin, lim.outMax)
  }

  function Output(g: Gains, lim: Limits, m: Memory, u: Input): real {
    Limited(PTerm(g, u), ITerm(g, NextIntegral(lim, m.integral, u)), DTerm(g, m, u), lim)
  }

  function NextMemory(lim: Limits, m: Memory, u: Input): Memory {
    Memory(NextIntegral(lim, m.integral, u), Error(u))
  }

  class Controller {
    var gains: Gains
    var limits: Limits
    var memory: Memory

    constructor (kp: real, ki: real, kd: real, outMin: real, outMax: real)
      ensures gains == Gains(kp, ki, kd) && memory == Memory(0.0, 0.0)
      ensures limits == Limits(outMin, outMax, outMin, outMax)
    {
      gains := Gains(kp, ki, kd);
      limits := Limits(outMin, outMax, outMin, outMax);
      memory := Memory(0.0, 0.0);
    }

    method Reset()
      modifies this`memory
      ensures memory == Memory(0.0, 0.0)
    {
      memory := Memory(0.0, 0.0);
    }

    method Update(setpoint: real, measured: real, dt: real) returns (output: real)
      modifies this`memory
      ensures var u := Input(setpoint, measured, dt);
              output == Output(gains, limits, old(memory), u) && memory == NextMemory(limits, old(memory), u)
      ensures limits.outMin <= output <= limits.outMax <==> limits.outMin <= limits.outMax
      ensures limits.intMin <= memory.integral <= limits.intMax <==> limits.intMin <= limits.intMax
    {
      ghost var m, u := memory, Input(setpoint, measured, dt);
      var error := setpoint - measured;
      var pTerm := gains.kp * error;
      var integral := memory.integral + error * dt;
      if integral > limits.intMax {
        integral := limits.intMax;
      } else if integral < limits.intMin {
        integral := limits.intMin;
      }
      var iTerm := gains.ki * integral;
      var derivative := if dt > 0.0 then (error - memory.prevError) / dt else 0.0;
      var dTerm := gains.kd * derivative;
      assert pTerm == PTerm(gains, u);
      assert integral == NextIntegral(limits, m.integral, u);
      assert iTerm == ITerm(gains, integral);
      assert dTerm == DTerm(gains, m, u);
      output := pTerm + iTerm + dTerm;
      if output > limits.outMax {
        output := limits.outMax;
      } else if output < limits.outMin {
        output := limits.outMin;
      }
      assert output == Limited(pTerm, iTerm, dTerm, limits);
      memory := Memory(integral, error);
    }
  }

  // ---------- sequences of updates ----------

  /** The memory after the updates, oldest first. */
  function After(lim: Limits, m: Memory, us: seq<Input>): Memory {
    if us == [] then m else NextMemory(lim, After(lim, m, us[..|us| - 1]), us[|us| - 1])
  }

  lemma {:induction false} IntegralInLimits(lim: Limits, m: Memory, us: seq<Input>)
    requires lim.intMin <= lim.intMax
    requires us != [] || lim.intMin <= m.integral <= lim.intMax
    ensures lim.intMin <= After(lim, m, us).integral <= lim.intMax
  {
  }

  lemma {:induction false} WindDown(lim: Limits, m: Memory, us: seq<Input>, d: real)
    requires lim.intMin <= lim.intMax && lim.intMin <= m.integral <= lim.intMax && d >= 0.0
    requires forall i :: 0 <= i < |us| ==> Error(us[i]) * us[i].dt <= -d
    ensures After(lim, m, us).integral == lim.intMin || After(lim, m, us).integral <= m.integral - (|us| as real) * d
    ensures lim.intMin <= After(lim, m, us).integral
  {
    if us != [] {
      var n := |us| - 1;
      WindDown(lim, m, us[..n], d);
      var before := After(lim, m, us[..n]).integral;
      IntegralInLimits(lim, m, us[..n]);
      assert After(lim, m, us).integral == NextIntegral(lim, before, us[n]);
      assert (|us| as real) * d == (n as real) * d + d;
    }
  }

  /** Bounded windup recovery: after any history, n updates that each pull the integral
      down by at least d, with n * d no less than the integral's range, bring it to its
      minimum. */
  lemma WindupRecovery(lim: Limits, start: Memory, history: seq<Input>, us: seq<Input>, d: real)
    requires lim.intMin <= lim.intMax && d >= 0.0
    requires history != [] || lim.intMin <= start.integral <= lim.intMax
    requires forall i :: 0 <= i < |us| ==> Error(us[i]) * us[i].dt <= -d
    requires (|us| as real) * d >= lim.intMax - lim.intMin
    ensures After(lim, After(lim, start, history), us).integral == lim.intMin
  {
    var m := After(lim, start, history);
    IntegralInLimits(lim, start, history);
    WindDown(lim, m, us, d);
  }

  // ---------- what the output means ----------

  /** Inputs, gains and limits under which neither the integral nor the output is cut. */
  ghost predicate Unbound(g: Gains, lim: Limits, m: Memory, u: Input) {
    && lim.intMin <= m.integral + (u.setpoint - u.measured) * u.dt <= lim.intMax
    && lim.outMin < Output(g, lim, m, u) < lim.outMax
  }

  /** Where no limit binds the output is the textbook sum. */
  lemma OutputFormula(g: Gains, lim: Limits, m: Memory, u: Input)
    requires Unbound(g, lim, m, u)
    ensures var error := u.setpoint - u.measured;
            Output(g, lim, m, u) == g.kp * error + g.ki * (m.integral + error * u.dt) +
                                    (if u.dt > 0.0 then g.kd * ((error - m.prevError) / u.dt) else g.kd * 0.0)
  {
  }

  lemma DifferenceOverStep(x: real, y: real, dt: real)
    requires dt > 0.0
    ensures y / dt - x / dt == (y - x) / dt
    ensures x <= y ==> x / dt <= y / dt
  {
  }

  lemma ProductOfQuotient(k: real, e: real, dt: real)
    requires dt > 0.0
    ensures k * (e / dt) == (k / dt) * e
  {
    var q := e / dt;
    assert e == q * dt;
    var r := k / dt;
    assert k == r * dt;
    assert k * q == r * dt * q == r * (q * dt);
  }

  lemma ProductSlope(k: real, x: real, y: real, e: real)
    requires y - x == e
    ensures k * y - k * x == k * e
  {
  }

  lemma SumSlope(k: real, integral: real, x: real, y: real, e: real, dt: real)
    requires y - x == e
    ensures k * (integral + y * dt) - k * (integral + x * dt) == (k * dt) * e
  {
    ProductSlope(dt, x, y, e);
    ProductSlope(k, integral + x * dt, integral + y * dt, dt * e);
    assert k * (dt * e) == (k * dt) * e;
  }

  lemma QuotientSlope(k: real, x: real, y: real, e: real, dt: real)
    requires dt > 0.0 && y - x == e
    ensures k * (y / dt) - k * (x / dt) == (k / dt) * e
  {
    DifferenceOverStep(x, y, dt);
    ProductSlope(k, x / dt, y / dt, e / dt);
    ProductOfQuotient(k, e, dt);
  }

  lemma ProportionalTermSlope(g: Gains, u: Input, v: Input, e: real)
    requires Error(v) - Error(u) == e
    ensures PTerm(g, v) - PTerm(g, u) == g.kp * e
  {
    ProductSlope(g.kp, Error(u), Error(v), e);
  }

  lemma IntegralTermSlope(g: Gains, lim: Limits, integral: real, u: Input, v: Input, e: real)
    requires lim.intMin <= integral + Error(u) * u.dt <= lim.intMax && lim.intMin <= integral + Error(v) * v.dt <= lim.intMax
    requires v.dt == u.dt && Error(v) - Error(u) == e
    ensures ITerm(g, NextIntegral(lim, integral, v)) - ITerm(g, NextIntegral(lim, integral, u)) == (g.ki * u.dt) * e
  {
    SumSlope(g.ki, integral, Error(u), Error(v), e, u.dt);
  }

  lemma DerivativeTermSlope(g: Gains, m: Memory, u: Input, v: Input, e: real)
    requires v.dt == u.dt && Error(v) - Error(u) == e
    ensures DTerm(g, m, v) - DTerm(g, m, u) == (if u.dt > 0.0 then g.kd / u.dt else 0.0) * e
  {
    if u.dt > 0.0 {
      QuotientSlope(g.kd, Error(u) - m.prevError, Error(v) - m.prevError, e, u.dt);
    }
  }

  lemma NotCut(p: real, i: real, d: real, lim: Limits)
    requires lim.outMin < Limited(p, i, d, lim) < lim.outMax
    ensures Limited(p, i, d, lim) == p + i + d
  {
  }

  lemma OutputSum(g: Gains, lim: Limits, m: Memory, u: Input)
    requires Unbound(g, lim, m, u)
    ensures Output(g, lim, m, u) == PTerm(g, u) + ITerm(g, NextIntegral(lim, m.integral, u)) + DTerm(g, m, u)
    ensures lim.intMin <= m.integral + Error(u) * u.dt <= lim.intMax
  {
    NotCut(PTerm(g, u), ITerm(g, NextIntegral(lim, m.integral, u)), DTerm(g, m, u), lim);
  }

  lemma AddSlopes(p: real, i: real, d: real, q: real, j: real, f: real, a: real, b: real, c: real, e: real)
    requires q - p == a * e && j - i == b * e && f - d == c * e
    ensures (q + j + f) - (p + i + d) == (a + b + c) * e
  {
  }

  lemma TermSlopes(g: Gains, lim: Limits, m: Memory, u: Input, v: Input, e: real)
    requires lim.intMin <= m.integral + Error(u) * u.dt <= lim.intMax && lim.intMin <= m.integral + Error(v) * v.dt <= lim.intMax
    requires v.dt == u.dt && Error(v) - Error(u) == e
    ensures PTerm(g, v) + ITerm(g, NextIntegral(lim, m.integral, v)) + DTerm(g, m, v) -
            (PTerm(g, u) + ITerm(g, NextIntegral(lim, m.integral, u)) + DTerm(g, m, u)) ==
            (g.kp + g.ki * u.dt + (if u.dt > 0.0 then g.kd / u.dt else 0.0)) * e
  {
    ProportionalTermSlope(g, u, v, e);
    IntegralTermSlope(g, lim, m.integral, u, v, e);
    DerivativeTermSlope(g, m, u, v, e);
    AddSlopes(PTerm(g, u), ITerm(g, NextIntegral(lim, m.integral, u)), DTerm(g, m, u),
              PTerm(g, v), ITerm(g, NextIntegral(lim, m.integral, v)), DTerm(g, m, v),
              g.kp, g.ki * u.dt, if u.dt > 0.0 then g.kd / u.dt else 0.0, e);
  }

  /** Where no limit binds, raising the error by e raises the output by exactly
      (kp + ki * dt + kd / dt) * e; without the last term when dt is not positive. */
  lemma OutputSlope(g: Gains, lim: Limits, m: Memory, u: Input, v: Input, e: real)
    requires Unbound(g, lim, m, u) && Unbound(g, lim, m, v) && v.dt == u.dt
    requires v.setpoint - v.measured == u.setpoint - u.measured + e
    ensures Output(g, lim, m, v) - Output(g, lim, m, u) ==
            (g.kp + g.ki * u.dt + (if u.dt > 0.0 then g.kd / u.dt else 0.0)) * e
  {
    OutputSum(g, lim, m, u);
    OutputSum(g, lim, m, v);
    TermSlopes(g, lim, m, u, v, e);
  }

  lemma ClampMonotone(x: real, y: real, lo: real, hi: real)
    requires lo <= hi && x <= y
    ensures Clamp(x, lo, hi) <= Clamp(y, lo, hi)
  {
  }

  lemma SumMonotone(p: real, i: real, d: real, q: real, j: real, e: real, lim: Limits)
    requires lim.outMin <= lim.outMax && p <= q && i <= j && d <= e
    ensures Limited(p, i, d, lim) <= Limited(q, j, e, lim)
  {
    ClampMonotone(p + i + d, q + j + e, lim.outMin, lim.outMax);
  }

  lemma ScaleUp(k: real, x: real, y: real)
    requires k >= 0.0 && x <= y
    ensures k * x <= k * y
  {
  }

  lemma IntegralMonotone(lim: Limits, integral: real, u: Input, v: Input)
    requires lim.intMin <= lim.intMax && u.dt == v.dt > 0.0 && Error(u) <= Error(v)
    ensures NextIntegral(lim, integral, u) <= NextIntegral(lim, integral, v)
  {
    ScaleUp(u.dt, Error(u), Error(v));
    ClampMonotone(integral + Error(u) * u.dt, integral + Error(v) * v.dt, lim.intMin, lim.intMax);
  }

  lemma DerivativeMonotone(m: Memory, u: Input, v: Input)
    requires u.dt == v.dt > 0.0 && Error(u) <= Error(v)
    ensures Derivative(m, u) <= Derivative(m, v)
  {
    DifferenceOverStep(Error(u) - m.prevError, Error(v) - m.prevError, u.dt);
  }

  /** With non-negative gains and time going forward a higher setpoint or a lower
      measurement never lowers the output. */
  lemma OutputFollowsError(g: Gains, lim: Limits, m: Memory, u: Input, v: Input)
    requires lim.intMin <= lim.intMax && lim.outMin <= lim.outMax
    requires g.kp >= 0.0 && g.ki >= 0.0 && g.kd >= 0.0 && u.dt == v.dt > 0.0
    requires v.setpoint - v.measured >= u.setpoint - u.measured
    ensures Output(g, lim, m, u) <= Output(g, lim, m, v)
  {
    ScaleUp(g.kp, Error(u), Error(v));
    IntegralMonotone(lim, m.integral, u, v);
    ScaleUp(g.ki, NextIntegral(lim, m.integral, u), NextIntegral(lim, m.integral, v));
    DerivativeMonotone(m, u, v);
    ScaleUp(g.kd, Derivative(m, u), Derivative(m, v));
    SumMonotone(PTerm(g, u), ITerm(g, NextIntegral(lim, m.integral, u)), DTerm(g, m, u),
                PTerm(g, v), ITerm(g, NextIntegral(lim, m.integral, v)), DTerm(g, m, v), lim);
  }

  /** A larger previous error never raises the output, and has no influence at all when
      time does not go forward. */
  lemma PreviousErrorDamps(g: Gains, lim: Limits, m: Memory, n: Memory, u: Input)
    requires lim.outMin <= lim.outMax && n.integral == m.integral
    ensures u.dt > 0.0 && g.kd >= 0.0 && n.prevError >= m.prevError ==> Output(g, lim, n, u) <= Output(g, lim, m, u)
    ensures u.dt <= 0.0 ==> Output(g, lim, n, u) == Output(g, lim, m, u)
  {
    var p, i := PTerm(g, u), ITerm(g, NextIntegral(lim, m.integral, u));
    if u.dt > 0.0 && g.kd >= 0.0 && n.prevError >= m.prevError {
      DifferenceOverStep(Error(u) - n.prevError, Error(u) - m.prevError, u.dt);
      ScaleUp(g.kd, Derivative(n, u), Derivative(m, u));
      SumMonotone(p, i, DTerm(g, n, u), p, i, DTerm(g, m, u), lim);
    }
  }

  /** What is remembered: this error, and the integral with this error's share as long as
      that stays in its limits, otherwise the limit it would cross. */
  lemma MemoryMeans(lim: Limits, m: Memory, u: Input)
    requires lim.intMin <= lim.intMax
    ensures var n, sum := NextMemory(lim, m, u), m.integral + (u.setpoint - u.measured) * u.dt;
            && n.prevError == u.setpoint - u.measured
            && (lim.intMin <= sum <= lim.intMax ==> n.integral == sum)
            && (sum < lim.intMin ==> n.integral == lim.intMin) && (sum > lim.intMax ==> n.integral == lim.intMax)
  {
  }

  // ---------- two controllers fed the same inputs ----------

  lemma ClampContracts(x: real, y: real, lo: real, hi: real)
    requires lo <= hi
    ensures Abs(Clamp(x, lo, hi) - Clamp(y, lo, hi)) <= Abs(x - y)
  {
  }

  lemma IntegralGap(lim: Limits, a: Memory, b: Memory, u: Input)
    requires lim.intMin <= lim.intMax
    ensures Abs(NextIntegral(lim, a.integral, u) - NextIntegral(lim, b.integral, u)) <= Abs(a.integral - b.integral)
  {
    var step := Error(u) * u.dt;
    ClampContracts(a.integral + step, b.integral + step, lim.intMin, lim.intMax);
  }

  /** Fed the same inputs, two controllers with the same limits never move apart in their
      integrals. */
  lemma {:induction false} IntegralsApproach(lim: Limits, a: Memory, b: Memory, us: seq<Input>)
    requires lim.intMin <= lim.intMax
    ensures Abs(After(lim, a, us).integral - After(lim, b, us).integral) <= Abs(a.integral - b.integral)
    ensures us != [] ==> After(lim, a, us).prevError == After(lim, b, us).prevError
  {
    if us != [] {
      var n := |us| - 1;
      IntegralsApproach(lim, a, b, us[..n]);
      IntegralGap(lim, After(lim, a, us[..n]), After(lim, b, us[..n]), us[n]);
    }
  }

  lemma AbsProduct(k: real, x: real)
    ensures Abs(k * x) == Abs(k) * Abs(x)
  {
    if k >= 0.0 && x >= 0.0 {
      assert k * x >= 0.0;
    } else if k >= 0.0 {
      assert k * (-x) >= 0.0;
    } else if x >= 0.0 {
      assert (-k) * x >= 0.0;
    } else {
      assert (-k) * (-x) >= 0.0;
    }
  }

  lemma ITermGap(g: Gains, x: real, y: real, gap: real)
    requires Abs(x - y) <= gap
    ensures Abs(ITerm(g, x) - ITerm(g, y)) <= Abs(g.ki) * gap
  {
    assert g.ki * x - g.ki * y == g.ki * (x - y);
    AbsProduct(g.ki, x - y);
    ScaleUp(Abs(g.ki), Abs(x - y), gap);
  }

  /** Two outputs that differ in their integral terms alone. */
  lemma SumGap(p: real, a: real, b: real, d: real, lim: Limits, gap: real)
    requires lim.outMin <= lim.outMax && Abs(a - b) <= gap
    ensures Abs(Limited(p, a, d, lim) - Limited(p, b, d, lim)) <= gap
  {
  }

  /** Outputs of two controllers with the same previous error, when their integrals are
      no further apart than gap. */
  lemma OutputGap(g: Gains, lim: Limits, a: Memory, b: Memory, u: Input, gap: real)
    requires lim.intMin <= lim.intMax && lim.outMin <= lim.outMax
    requires a.prevError == b.prevError && Abs(a.integral - b.integral) <= gap
    ensures Abs(Output(g, lim, a, u) - Output(g, lim, b, u)) <= Abs(g.ki) * gap
  {
    var x, y := NextIntegral(lim, a.integral, u), NextIntegral(lim, b.integral, u);
    IntegralGap(lim, a, b, u);
    ITermGap(g, x, y, gap);
    assert DTerm(g, a, u) == DTerm(g, b, u) by {
      assert Derivative(a, u) == Derivative(b, u);
    }
    SumGap(PTerm(g, u), ITerm(g, x), ITerm(g, y), DTerm(g, a, u), lim, Abs(g.ki) * gap);
  }

  lemma SharedUpdates(lim: Limits, a: Memory, b: Memory, us: seq<Input>) returns (ma: Memory, mb: Memory)
    requires lim.intMin <= lim.intMax && us != []
    ensures ma == After(lim, a, us) && mb == After(lim, b, us)
    ensures ma.prevError == mb.prevError && Abs(ma.integral - mb.integral) <= Abs(a.integral - b.integral)
  {
    ma, mb := After(lim, a, us), After(lim, b, us);
    IntegralsApproach(lim, a, b, us);
  }

  /** From their second shared update on, with the same gains, their outputs differ by no
      more than |ki| times the distance their integrals started with. */
  lemma OutputsClose(g: Gains, lim: Limits, a: Memory, b: Memory, us: seq<Input>, u: Input)
    requires lim.intMin <= lim.intMax && lim.outMin <= lim.outMax && us != []
    ensures Abs(Output(g, lim, After(lim, a, us), u) - Output(g, lim, After(lim, b, us), u))
            <= Abs(g.ki) * Abs(a.integral - b.integral)
  {
    var ma, mb := SharedUpdates(lim, a, b, us);
    OutputGap(g, lim, ma, mb, u, Abs(a.integral - b.integral));
  }
}
