/** The output pins of the GPIO expander, seen through the order in which they were
    written. A trace holds every write since power-up, oldest first. */
module Pins {
  datatype PinWrite = PinWrite(pin: nat, level: bool)
  type Trace = seq<PinWrite>

  /** The pins that are high after the writes. */
  function HighAfter(trace: Trace): (high: set<nat>)
  {
    if trace == [] then {}
    else
      var last := trace[|trace| - 1];
      var before := HighAfter(trace[..|trace| - 1]);
      if last.level then before + {last.pin} else before - {last.pin}
  }

  lemma HighAfterSnoc(trace: Trace, w: PinWrite)
    ensures HighAfter(trace + [w]) == if w.level then HighAfter(trace) + {w.pin} else HighAfter(trace) - {w.pin}
  {
    assert (trace + [w])[..|trace|] == trace;
  }

  /** At every instant, past or present, at most one pin is high. */
  ghost predicate NeverTwoHigh(trace: Trace) {
    forall n :: 0 <= n <= |trace| ==> |HighAfter(trace[..n])| <= 1
  }

  lemma NeverTwoHighSnoc(trace: Trace, w: PinWrite)
    requires NeverTwoHigh(trace) && |HighAfter(trace + [w])| <= 1
    ensures NeverTwoHigh(trace + [w])
  {
    forall n | 0 <= n <= |trace + [w]| ensures |HighAfter((trace + [w])[..n])| <= 1 {
      if n <= |trace| {
        assert (trace + [w])[..n] == trace[..n];
      } else {
        assert (trace + [w])[..n] == trace + [w];
      }
    }
  }

  /** The two control pins of a switch. */
  datatype PinPair = PinPair(a: nat, b: nat)

  /** No pin is wired twice. */
  ghost predicate Disjoint(pairs: seq<PinPair>) {
    && (forall i :: 0 <= i < |pairs| ==> pairs[i].a != pairs[i].b)
    && (forall i, j :: 0 <= i < j < |pairs| ==>
      pairs[i].a != pairs[j].a && pairs[i].a != pairs[j].b && pairs[i].b != pairs[j].a && pairs[i].b != pairs[j].b)
  }

  /** Which control pin of the pair was driven high last: 'A', 'B', or 'U' for neither. */
  function LastPulsed(trace: Trace, pair: PinPair): (state: char)
  {
    if trace == [] then 'U'
    else
      var last := trace[|trace| - 1];
      if last.level && last.pin == pair.a then 'A'
      else if last.level && last.pin == pair.b then 'B'
      else LastPulsed(trace[..|trace| - 1], pair)
  }

  lemma LastPulsedSnoc(trace: Trace, w: PinWrite, pair: PinPair)
    ensures LastPulsed(trace + [w], pair) ==
            if w.level && w.pin == pair.a then 'A'
            else if w.level && w.pin == pair.b then 'B'
            else LastPulsed(trace, pair)
  {
    assert (trace + [w])[..|trace|] == trace;
  }

  /** The control pin for a position. */
  function PinFor(pair: PinPair, state: char): nat {
    if state == 'A' then pair.a else pair.b
  }

  /** The three writes that pulse a pin: low, high, low. */
  function Pulse(pin: nat): Trace {
    [PinWrite(pin, false), PinWrite(pin, true), PinWrite(pin, false)]
  }

  /** A pulse on a quiet port raises one pin, lets it fall again, and is from then on
      the last pulse of the pair it belongs to; pairs without that pin do not notice. */
  lemma PulseEffect(trace: Trace, pin: nat)
    requires HighAfter(trace) == {} && NeverTwoHigh(trace)
    ensures HighAfter(trace + Pulse(pin)) == {} && NeverTwoHigh(trace + Pulse(pin))
    ensures forall pair: PinPair ::
              (LastPulsed(trace + Pulse(pin), pair) ==
               if pin == pair.a then 'A' else if pin == pair.b then 'B' else LastPulsed(trace, pair))
  {
    var t1 := trace + [PinWrite(pin, false)];
    var t2 := t1 + [PinWrite(pin, true)];
    var t3 := t2 + [PinWrite(pin, false)];
    assert trace + Pulse(pin) == t3;
    HighAfterSnoc(trace, PinWrite(pin, false));
    HighAfterSnoc(t1, PinWrite(pin, true));
    HighAfterSnoc(t2, PinWrite(pin, false));
    NeverTwoHighSnoc(trace, PinWrite(pin, false));
    NeverTwoHighSnoc(t1, PinWrite(pin, true));
    NeverTwoHighSnoc(t2, PinWrite(pin, false));
    forall pair: PinPair
      ensures LastPulsed(t3, pair) == if pin == pair.a then 'A' else if pin == pair.b then 'B' else LastPulsed(trace, pair)
    {
      LastPulsedSnoc(trace, PinWrite(pin, false), pair);
      LastPulsedSnoc(t1, PinWrite(pin, true), pair);
      LastPulsedSnoc(t2, PinWrite(pin, false), pair);
    }
  }

  /** The recorded states say which pin of each pair was pulsed last. */
  ghost predicate Agrees(trace: Trace, pairs: seq<PinPair>, states: seq<char>) {
    |pairs| == |states| && forall k :: 0 <= k < |pairs| ==> states[k] == LastPulsed(trace, pairs[k])
  }

  /** Between two commands: every pin is low, never were two high at once, and the
      recorded states agree with the pulses. */
  ghost predicate Settled(trace: Trace, pairs: seq<PinPair>, states: seq<char>) {
    HighAfter(trace) == {} && NeverTwoHigh(trace) && Agrees(trace, pairs, states)
  }

  /** Pulsing a switch and recording the new position keeps the port settled, provided
      no other switch shares the pin. */
  lemma PulseKeepsSettled(trace: Trace, pairs: seq<PinPair>, states: seq<char>, k: nat, state: char)
    requires Settled(trace, pairs, states) && Disjoint(pairs)
    requires k < |pairs| && (state == 'A' || state == 'B')
    ensures Settled(trace + Pulse(PinFor(pairs[k], state)), pairs, states[k := state])
  {
    PulseEffect(trace, PinFor(pairs[k], state));
  }

  /** A low write to a settled port changes nothing. */
  lemma LowKeepsSettled(trace: Trace, pairs: seq<PinPair>, states: seq<char>, pin: nat)
    requires Settled(trace, pairs, states)
    ensures Settled(trace + [PinWrite(pin, false)], pairs, states)
  {
    HighAfterSnoc(trace, PinWrite(pin, false));
    NeverTwoHighSnoc(trace, PinWrite(pin, false));
    forall k | 0 <= k < |pairs| ensures states[k] == LastPulsed(trace + [PinWrite(pin, false)], pairs[k]) {
      LastPulsedSnoc(trace, PinWrite(pin, false), pairs[k]);
    }
  }
}
