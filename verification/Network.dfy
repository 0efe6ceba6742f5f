/** Waiting for the network, in wrapping 32-bit arithmetic, and sending with retries. */
module Network {
  const TWO_32: nat := 0x1_0000_0000
  const CHECK_INTERVAL: nat := 100

  /** `elapsed` after k additions of the interval. */
  function Elapsed(k: nat): nat {
    (CHECK_INTERVAL * k) % TWO_32
  }

  /** How the wait stands after the given readings of the online flag. */
  datatype Wait = Ready(sleeps: nat) | TimedOut(sleeps: nat) | Waiting(sleeps: nat)

  /** The bounded wait goes on after k sleeps: offline at each test so far, and the
      counter below the timeout at each. */
  ghost predicate KeepsWaiting(timeout: nat, k: nat) {
    forall j :: 0 <= j < k ==> Elapsed(j) < timeout
  }

  lemma ModIs(x: nat, q: nat, r: nat)
    requires r < TWO_32 && x == q * TWO_32 + r
    ensures x % TWO_32 == r
  {
  }

  lemma ModAdd(x: nat, y: nat)
    requires y < TWO_32
    ensures (x % TWO_32 + y) % TWO_32 == (x + y) % TWO_32
  {
    var q, r := x / TWO_32, x % TWO_32;
    assert x == q * TWO_32 + r;
    if r + y < TWO_32 {
      ModIs(x + y, q, r + y);
      ModIs(r + y, 0, r + y);
    } else {
      ModIs(x + y, q + 1, r + y - TWO_32);
      ModIs(r + y, 1, r + y - TWO_32);
    }
  }

  lemma AddInterval(k: nat)
    ensures (Elapsed(k) + CHECK_INTERVAL) % TWO_32 == Elapsed(k + 1)
  {
    ModAdd(CHECK_INTERVAL * k, CHECK_INTERVAL);
  }

  /** The wait with a timeout, fed with the successive readings of the volatile flag.
      After the loop the flag is read once more, and that reading decides: a network that
      comes up during the last sleep is not missed, and one that goes down again between
      the two readings is reported as a timeout, however early. */
  method WaitReady(timeout: nat, online: seq<bool>) returns (w: Wait)
    requires 0 < timeout < TWO_32
    ensures !w.Waiting? ==>
              && w.sleeps + 1 < |online| && (w.Ready? <==> online[w.sleeps + 1])
              && (online[w.sleeps] || Elapsed(w.sleeps) >= timeout)
    ensures w.sleeps <= |online| && KeepsWaiting(timeout, w.sleeps) && forall j :: 0 <= j < w.sleeps ==> !online[j]
    ensures w.Waiting? ==> |online| <= w.sleeps + 1
  {
    var elapsed, k := 0, 0;
    while k < |online| && !online[k] && elapsed < timeout
      invariant 0 <= k <= |online| && elapsed == Elapsed(k)
      invariant forall j :: 0 <= j < k ==> !online[j]
      invariant KeepsWaiting(timeout, k)
    {
      AddInterval(k);
      elapsed := (elapsed + CHECK_INTERVAL) % TWO_32;
      k := k + 1;
    }
    if k + 1 >= |online| {
      return Waiting(k);
    }
    return if online[k + 1] then Ready(k) else TimedOut(k);
  }

  /** The wait without a timeout ends with the first reading that is up. */
  method WaitForever(online: seq<bool>) returns (w: Wait)
    ensures w.Ready? ==> w.sleeps < |online| && online[w.sleeps] && forall j :: 0 <= j < w.sleeps ==> !online[j]
    ensures !w.Ready? ==> w == Waiting(|online|) && forall j :: 0 <= j < |online| ==> !online[j]
  {
    var elapsed, k := 0, 0;
    while k < |online| && !online[k]
      invariant 0 <= k <= |online| && 0 <= elapsed < 10000
      invariant forall j :: 0 <= j < k ==> !online[j]
    {
      k := k + 1;
      elapsed := elapsed + CHECK_INTERVAL;
      if elapsed >= 10000 {
        elapsed := 0;
      }
    }
    w := if k < |online| then Ready(k) else Waiting(k);
  }

  /** The wait of `timeout` milliseconds on a network that never comes up ends after
      exactly k sleeps. */
  ghost predicate EndsAfter(timeout: nat, k: nat) {
    Elapsed(k) >= timeout && KeepsWaiting(timeout, k)
  }

  function Ceil100(t: nat): nat {
    (t + 99) / 100
  }

  /** The exact bound: a dead network is reported after the rounded-up number of sleeps
      for every timeout up to 4294967200 ms, and for no larger one, because the next
      addition wraps the counter first. */
  lemma ExactTimeout(timeout: nat)
    requires 0 < timeout < TWO_32
    ensures EndsAfter(timeout, Ceil100(timeout)) <==> timeout <= 4294967200
  {
    var k := Ceil100(timeout);
    if timeout <= 4294967200 {
      assert k <= 42949672;
      assert CHECK_INTERVAL * k < TWO_32;
      forall j | 0 <= j < k ensures Elapsed(j) < timeout {
        assert CHECK_INTERVAL * j < timeout;
      }
    } else {
      assert k == 42949673;
      assert Elapsed(k) == 4;
    }
  }

  /** A sleep count whose multiple of 100 is the largest value the counter takes. */
  const LONGEST: nat := 1030792151

  lemma ElapsedIsEven(k: nat)
    ensures Elapsed(k) % 4 == 0 && Elapsed(k) <= 4294967292
  {
    var x := CHECK_INTERVAL * k;
    var q := x / TWO_32;
    assert x == q * TWO_32 + Elapsed(k);
    assert x == 4 * (25 * k) && q * TWO_32 == 4 * (q * 0x4000_0000);
    assert Elapsed(k) == 4 * (25 * k - q * 0x4000_0000);
  }

  lemma {:induction false} FirstAtLeast(timeout: nat, bound: nat) returns (k: nat)
    requires Elapsed(bound) >= timeout
    ensures k <= bound && EndsAfter(timeout, k)
  {
    if j :| 0 <= j < bound && Elapsed(j) >= timeout {
      k := FirstAtLeast(timeout, j);
    } else {
      k := bound;
    }
  }

  /** Beyond that bound: the wait still ends, after many turns of the counter, exactly
      for the timeouts up to 4294967292 ms; the last three never end. */
  lemma EventuallyTimesOut(timeout: nat)
    requires 0 < timeout < TWO_32
    ensures (exists k :: EndsAfter(timeout, k)) <==> timeout <= 4294967292
  {
    if timeout <= 4294967292 {
      assert Elapsed(LONGEST) == 4294967292;
      var k := FirstAtLeast(timeout, LONGEST);
      assert EndsAfter(timeout, k);
    } else {
      forall k ensures !EndsAfter(timeout, k) {
        ElapsedIsEven(k);
      }
    }
  }

  // ---------- sending with retries ----------

  /** What a call of `send` returns: a byte count, a full buffer, or another error. */
  datatype SendResult = Sent(bytes: nat) | Again | Broken(errno: nat)

  const ETIMEDOUT: int := -116

  /** The retry loop, over the results the socket has in store for as many calls as it
      may make. The first result that is not Again decides; without one among the allowed
      calls it is a timeout. */
  method SendRetry(results: seq<SendResult>, maxRetries: int) returns (rc: int, calls: nat)
    requires |results| >= maxRetries
    ensures calls <= |results| && forall i :: 0 <= i < calls - 1 ==> results[i] == Again
    ensures (forall i :: 0 <= i < maxRetries ==> results[i] == Again) ==>
              rc == -116 && calls == if maxRetries > 0 then maxRetries else 0
    ensures (exists i :: 0 <= i < maxRetries && results[i] != Again) ==>
              && 0 < calls <= maxRetries && results[calls - 1] != Again
              && (results[calls - 1].Sent? ==> rc == results[calls - 1].bytes)
              && (results[calls - 1].Broken? ==> rc == -(results[calls - 1].errno as int))
  {
    calls := 0;
    while calls < maxRetries
      invariant calls <= |results| && (calls <= maxRetries || calls == 0)
      invariant forall i :: 0 <= i < calls ==> results[i] == Again
      decreases maxRetries - calls
    {
      var r := results[calls];
      calls := calls + 1;
      if r.Sent? {
        return r.bytes, calls;
      }
      if r.Broken? {
        return -(r.errno as int), calls;
      }
    }
    rc := ETIMEDOUT;
  }
}
