/** The attenuator driver: a calibration polynomial, a clamp, and a 12-bit quantiser, over
    exact real numbers instead of doubles. */
module Attenuator {
  const MAX_VOLTAGE: real := 4.096
  const DAC_MAX_CODE: nat := 4095

  /** Coefficients of 1, x and x squared. */
  datatype Poly = Poly(c0: real, c1: real, c2: real)

  function Eval(p: Poly, x: real): real {
    p.c0 + p.c2 * x * x + p.c1 * x
  }

  /** The two functions of the source write the products in different orders. */
  lemma SameTerms(p: Poly, x: real)
    ensures p.c0 + x * x * p.c2 + x * p.c1 == Eval(p, x)
  {
    assert p.c2 * x * x == x * x * p.c2;
  }

  function Clamped(v: real): (r: real)
    ensures 0.0 <= r <= MAX_VOLTAGE
    ensures r == v <==> 0.0 <= v <= MAX_VOLTAGE
  {
    if v < 0.0 then 0.0 else if v > MAX_VOLTAGE then MAX_VOLTAGE else v
  }

  /** The conversion to an unsigned integer truncates. */
  function Code(v: real): int {
    ((v / MAX_VOLTAGE) * (DAC_MAX_CODE as real)).Floor
  }

  /** What the three DAC calls of a set return. */
  datatype Dac = Dac(ready: bool, setupOk: bool, writeOk: bool)

  /** The driver as a value, and one request. */
  datatype Stored = Stored(voltage: real, written: bool, code: int)
  datatype Request = Request(volts: real, dac: Dac)

  /** What Driver.Set leaves behind for a request of that many volts. */
  function AfterSet(s: Stored, r: Request): Stored {
    var v := Clamped(r.volts);
    if r.dac.ready && r.dac.setupOk && r.dac.writeOk then Stored(v, true, Code(v)) else s.(voltage := v)
  }

  class Driver {
    var dbToVolt: Poly
    var voltToDb: Poly
    var voltage: real
    const channel: nat
    /** The code the DAC holds, once one has been written. */
    var written: bool
    var dacCode: int

    constructor (channel: nat)
      ensures voltage == 0.0 && this.channel == channel && !written
    {
      this.channel := channel;
      voltage, written, dacCode := 0.0, false, 0;
      dbToVolt, voltToDb := Poly(0.0, 0.0, 0.0), Poly(0.0, 0.0, 0.0);
    }

    function State(): Stored
      reads this
    {
      Stored(voltage, written, dacCode)
    }

    function Requested(value: real, raw: bool): real
      reads this
    {
      if raw then value else Eval(dbToVolt, value)
    }

    /** The clamped voltage is stored in any case; the DAC follows when its calls succeed. */
    method Set(value: real, raw: bool, dac: Dac) returns (ok: bool)
      modifies this`voltage, this`written, this`dacCode
      ensures ok <==> dac.ready && dac.setupOk && dac.writeOk
      ensures State() == old(AfterSet(State(), Request(Requested(value, raw), dac)))
      ensures var v := if raw then value else dbToVolt.c0 + dbToVolt.c1 * value + dbToVolt.c2 * value * value;
              voltage == if v < 0.0 then 0.0 else if v > 4.096 then 4.096 else v
    {
      var v := if raw then value else dbToVolt.c0 + dbToVolt.c2 * value * value + dbToVolt.c1 * value;
      assert v == Requested(value, raw);
      if v < 0.0 {
        v := 0.0;
      } else if v > MAX_VOLTAGE {
        v := MAX_VOLTAGE;
      }
      voltage := v;
      if !dac.ready || !dac.setupOk {
        return false;
      }
      var code := ((voltage / MAX_VOLTAGE) * (DAC_MAX_CODE as real)).Floor;
      if !dac.writeOk {
        return false;
      }
      written, dacCode := true, code;
      return true;
    }

    method Get(raw: bool) returns (value: real)
      ensures value == if raw then voltage else Eval(voltToDb, voltage)
      ensures !raw ==> value == voltToDb.c0 + voltToDb.c1 * voltage + voltToDb.c2 * voltage * voltage
    {
      value := if raw then voltage else voltToDb.c0 + voltage * voltage * voltToDb.c2 + voltage * voltToDb.c1;
      SameTerms(voltToDb, voltage);
    }

    /** The coefficient branch of `atten_setting_set`: the dB value is read with the old
        coefficients and set again with the new ones. */
    method Recalibrate(newDbToVolt: Poly, newVoltToDb: Poly, dac: Dac) returns (db: real)
      modifies this
      ensures db == old(Eval(voltToDb, voltage))
      ensures dbToVolt == newDbToVolt && voltToDb == newVoltToDb
      ensures State() == AfterSet(old(State()), Request(Eval(newDbToVolt, db), dac))
    {
      db := Get(false);
      dbToVolt := newDbToVolt;
      voltToDb := newVoltToDb;
      var _ := Set(db, false, dac);
    }
  }

  // ---------- the quantiser ----------

  lemma CodeBounds(v: real)
    requires 0.0 <= v <= 4.096
    ensures 0 <= Code(v) <= 4095
    ensures (Code(v) as real) * 4.096 <= v * 4095.0 < ((Code(v) + 1) as real) * 4.096
  {
    var q := v / MAX_VOLTAGE;
    assert q * MAX_VOLTAGE == v;
    var x := q * (DAC_MAX_CODE as real);
    assert 0.0 <= q <= 1.0;
    assert (Code(v) as real) <= x < (Code(v) as real) + 1.0;
    assert x * MAX_VOLTAGE == v * (DAC_MAX_CODE as real);
  }

  lemma CodeMonotone(v: real, w: real)
    requires 0.0 <= v <= w <= MAX_VOLTAGE
    ensures Code(v) <= Code(w)
  {
    assert v / MAX_VOLTAGE <= w / MAX_VOLTAGE;
  }

  // ---------- sequences of sets ----------

  function AfterSets(s: Stored, rs: seq<Request>): Stored {
    if rs == [] then s else AfterSet(AfterSets(s, rs[..|rs| - 1]), rs[|rs| - 1])
  }

  /** The DAC holds the code of the stored voltage. */
  predicate InStep(s: Stored) {
    s.written && s.code == Code(s.voltage)
  }

  predicate Succeeds(r: Request) {
    r.dac.ready && r.dac.setupOk && r.dac.writeOk
  }

  /** After any sequence of sets that ends in success the DAC holds a 12-bit code within
      one step below the stored voltage. A failed set stores its voltage without telling
      the DAC: after it the two agree exactly when they agreed before and the clamped
      voltage has the same code. */
  lemma DacFollows(s: Stored, rs: seq<Request>)
    requires rs != []
    ensures var before, last, t := AfterSets(s, rs[..|rs| - 1]), rs[|rs| - 1], AfterSets(s, rs);
            && (Succeeds(last) ==>
                  && InStep(t) && 0 <= t.code <= 4095
                  && (t.code as real) * 4.096 <= t.voltage * 4095.0 < ((t.code + 1) as real) * 4.096)
            && (!Succeeds(last) ==> (InStep(t) <==> before.written && before.code == Code(Clamped(last.volts))))
  {
    CodeBounds(Clamped(rs[|rs| - 1].volts));
  }

  // ---------- recalibration ----------

  /** The dB value reported after a recalibration. */
  function ReportedAfter(dbToVolt: Poly, voltToDb: Poly, db: real): real {
    Eval(voltToDb, Clamped(Eval(dbToVolt, db)))
  }

  /** How far the clamp moves the value of a polynomial. */
  lemma ClampShift(p: Poly, v: real)
    ensures Eval(p, v) - Eval(p, Clamped(v)) == (v - Clamped(v)) * (p.c1 + p.c2 * (v + Clamped(v)))
  {
    var w := Clamped(v);
    assert (v - w) * (p.c2 * (v + w)) == p.c2 * v * v - p.c2 * w * w;
    assert (v - w) * p.c1 == p.c1 * v - p.c1 * w;
  }

  lemma NoZeroProduct(x: real, y: real)
    ensures x * y == 0.0 <==> x == 0.0 || y == 0.0
  {
    if x * y == 0.0 && x != 0.0 {
      assert y == (x * y) / x;
    }
  }

  /** A recalibration whose new polynomials invert each other at the old dB value keeps the
      reported value exactly if the new voltage is in range, or if the clamp moves it to
      the other point where the parabola has that height: the two points then lie
      symmetric to its vertex. */
  lemma RecalibrationKeepsDb(dbToVolt: Poly, voltToDb: Poly, db: real)
    requires Eval(voltToDb, Eval(dbToVolt, db)) == db
    ensures var v := Eval(dbToVolt, db);
            ReportedAfter(dbToVolt, voltToDb, db) == db <==>
            0.0 <= v <= MAX_VOLTAGE || voltToDb.c1 + voltToDb.c2 * (v + Clamped(v)) == 0.0
  {
    var v := Eval(dbToVolt, db);
    ClampShift(voltToDb, v);
    NoZeroProduct(v - Clamped(v), voltToDb.c1 + voltToDb.c2 * (v + Clamped(v)));
  }

  /** For any new polynomials: the reported value stays exactly if what the clamp takes
      off is the error of the inversion. */
  lemma RecalibrationError(dbToVolt: Poly, voltToDb: Poly, db: real)
    ensures var v := Eval(dbToVolt, db);
            ReportedAfter(dbToVolt, voltToDb, db) == db <==>
            Eval(voltToDb, v) - db == (v - Clamped(v)) * (voltToDb.c1 + voltToDb.c2 * (v + Clamped(v)))
  {
    ClampShift(voltToDb, Eval(dbToVolt, db));
  }

  /** A recalibration that changes the reported value although its polynomials invert each
      other everywhere, and one out of range that happens to keep it. */
  lemma RecalibrationOutOfRange(db: real)
    ensures var halving, doubling := Poly(0.0, 0.5, 0.0), Poly(0.0, 2.0, 0.0);
            && Eval(doubling, Eval(halving, db)) == db
            && ReportedAfter(halving, doubling, 10.0) == 8.192
    ensures var flat, parabola := Poly(5.0, 0.0, 0.0), Poly(20.48, -9.096, 1.0);
            && Eval(parabola, Eval(flat, 0.0)) == 0.0 && Eval(flat, 0.0) > MAX_VOLTAGE
            && ReportedAfter(flat, parabola, 0.0) == 0.0
  {
    var halving, doubling := Poly(0.0, 0.5, 0.0), Poly(0.0, 2.0, 0.0);
    assert Eval(halving, db) == 0.5 * db && Eval(halving, 10.0) == 5.0;
    assert Eval(doubling, 0.5 * db) == 2.0 * (0.5 * db);
    var flat, parabola := Poly(5.0, 0.0, 0.0), Poly(20.48, -9.096, 1.0);
    assert Eval(flat, 0.0) == 5.0;
    assert Eval(parabola, MAX_VOLTAGE) == 20.48 + MAX_VOLTAGE * MAX_VOLTAGE - 9.096 * MAX_VOLTAGE;
  }

  /** The driver, asked before and after: with new polynomials that invert each other at
      the old dB value it answers the same exactly under that condition, whether or not
      the DAC took the new voltage. */
  method RecalibrateAndAsk(driver: Driver, newDbToVolt: Poly, newVoltToDb: Poly, dac: Dac) returns (before: real, after: real)
    modifies driver
    ensures before == old(Eval(driver.voltToDb, driver.voltage))
    ensures after == ReportedAfter(newDbToVolt, newVoltToDb, before)
    ensures Eval(newVoltToDb, Eval(newDbToVolt, before)) == before ==>
              var v := Eval(newDbToVolt, before);
              after == before <==> 0.0 <= v <= MAX_VOLTAGE || newVoltToDb.c1 + newVoltToDb.c2 * (v + Clamped(v)) == 0.0
  {
    before := driver.Recalibrate(newDbToVolt, newVoltToDb, dac);
    assert driver.State().voltage == driver.voltage == Clamped(Eval(newDbToVolt, before));
    after := driver.Get(false);
    if Eval(newVoltToDb, Eval(newDbToVolt, before)) == before {
      RecalibrationKeepsDb(newDbToVolt, newVoltToDb, before);
    }
  }
}
