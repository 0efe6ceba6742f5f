/** What happens to photodiode samples in every run of the firmware. Samples are numbered
    in the order in which they are produced. */
module Telemetry {
  import opened Sequences
  import opened Messages
  import opened Receiving
  import opened Pipeline

  /** The sample numbers among queued or published messages. */
  function SampleIds(q: seq<Outgoing>): seq<nat> {
    if q == [] then []
    else
      var last := q[|q| - 1];
      SampleIds(q[..|q| - 1]) + if last.origin.Sampler? then [last.origin.id] else []
  }

  lemma SampleIdsSnoc(q: seq<Outgoing>, out: Outgoing)
    ensures SampleIds(q + [out]) == SampleIds(q) + if out.origin.Sampler? then [out.origin.id] else []
  {
    assert (q + [out])[..|q|] == q;
  }

  lemma {:induction false} SampleIdsHead(q: seq<Outgoing>)
    requires q != []
    ensures SampleIds(q) == (if q[0].origin.Sampler? then [q[0].origin.id] else []) + SampleIds(q[1..])
  {
    var n := |q| - 1;
    if n == 0 {
      assert q[..0] == [];
    } else {
      SampleIdsHead(q[..n]);
      assert q[..n][1..] == q[1..][..n - 1];
    }
  }

  function InHand(s: State): seq<nat> {
    match s.photodiode
    case Resting => []
    case Putting(sample, _) => [sample.id]
    case Purging(sample) => [sample.id]
  }

  function Moved(s: State): seq<nat> {
    if s.work.Moving? then [s.work.sample.id] else []
  }

  /** The samples on their way out: handed to the broker or in the outbound queue. */
  function Forwarded(s: State): seq<nat> {
    SampleIds(s.published) + SampleIds(s.outbound)
  }

  /** The samples on their way in: in the photodiode queue or in the sampler's hand. */
  function Pending(s: State): seq<nat> {
    Ids(s.samples) + InHand(s)
  }

  /** All samples that still exist, from the broker back to the sampler. */
  function Chain(s: State): seq<nat> {
    Forwarded(s) + Moved(s) + Pending(s)
  }

  ghost predicate Below(ids: seq<nat>, n: nat) {
    forall i :: 0 <= i < |ids| ==> ids[i] < n
  }

  /** Of n samples produced so far, those in the chain still exist, in order, and the
      others are gone: each number is accounted for exactly once. */
  ghost predicate Ledger(chain: seq<nat>, gone: multiset<nat>, n: nat) {
    Increasing(chain) && Below(chain, n) && multiset(chain) + gone == multiset(Upto(n))
  }

  lemma LedgerGrows(chain: seq<nat>, longer: seq<nat>, gone: multiset<nat>, n: nat, m: nat)
    requires Ledger(chain, gone, n) && longer == chain + [n] && m == n + 1
    ensures Ledger(longer, gone, m)
  {
    var all := Upto(n);
    assert Upto(m) == all + [n];
    assert multiset(all + [n]) == multiset(all) + multiset([n]);
    assert multiset(longer) == multiset(chain) + multiset([n]);
  }

  /** A stretch of the chain is lost: the rest stays in order and nothing else changes. */
  lemma LedgerCut(a: seq<nat>, b: seq<nat>, c: seq<nat>, gone: multiset<nat>, n: nat)
    requires Ledger(a + b + c, gone, n)
    ensures Ledger(a + c, gone + multiset(b), n)
  {
    var all, rest := a + b + c, a + c;
    forall i | 0 <= i < |rest| ensures rest[i] < n {
      assert rest[i] == all[if i < |a| then i else i + |b|];
    }
    forall i, j | 0 <= i < j < |rest| ensures rest[i] < rest[j] {
      assert rest[i] == all[if i < |a| then i else i + |b|];
      assert rest[j] == all[if j < |a| then j else j + |b|];
    }
    assert multiset(all) == multiset(a) + multiset(b) + multiset(c);
  }

  function Gone(s: State): multiset<nat> {
    multiset(s.purged) + multiset(s.dropped)
  }

  /** After its purge the sampler finds the queue empty: nobody else puts into it. */
  predicate PurgeHolds(s: State) {
    s.photodiode.Putting? && s.photodiode.purged ==> s.samples == []
  }

  ghost predicate Inv(s: State) {
    Ledger(Chain(s), Gone(s), s.produced) && PurgeHolds(s)
  }

  lemma InitInv(env: Env)
    ensures Inv(Init(env))
  {
    assert Chain(Init(env)) == [];
  }

  // ---------- what each step does to the chain ----------

  lemma PublishChain(env: Env, s: State)
    requires Enabled(s, Publish)
    ensures Chain(Apply(env, s, Publish)) == Chain(s)
  {
    var head := if s.outbound[0].origin.Sampler? then [s.outbound[0].origin.id] else [];
    SampleIdsHead(s.outbound);
    SampleIdsSnoc(s.published, s.outbound[0]);
    Assoc(SampleIds(s.published), head, SampleIds(s.outbound[1..]));
  }

  /** A message that is no sample joins the outbound queue. */
  lemma OtherKeepsChain(s: State, t: State, out: Outgoing)
    requires t.published == s.published && t.outbound == s.outbound + [out] && !out.origin.Sampler?
    requires Moved(t) == Moved(s) && Pending(t) == Pending(s)
    ensures Chain(t) == Chain(s)
  {
    SampleIdsSnoc(s.outbound, out);
    assert SampleIds(s.outbound) + [] == SampleIds(s.outbound);
  }

  lemma ProduceChain(env: Env, s: State, om: OutMsg)
    requires Enabled(s, Produce(om))
    ensures Chain(Apply(env, s, Produce(om))) == Chain(s) + [s.produced]
  {
    Assoc(Ids(s.samples), [], [s.produced]);
    assert Ids(s.samples) + [] == Ids(s.samples);
    Assoc(Forwarded(s) + Moved(s), Ids(s.samples), [s.produced]);
  }

  lemma PutSampleChain(env: Env, s: State)
    requires Enabled(s, PutSample)
    ensures Chain(Apply(env, s, PutSample)) == Chain(s)
  {
    var t := Apply(env, s, PutSample);
    assert Ids(t.samples) == Ids(s.samples) + [s.photodiode.sample.id];
    assert Ids(t.samples) + [] == Ids(t.samples);
  }

  lemma PurgeChain(env: Env, s: State)
    requires Enabled(s, Purge)
    ensures Chain(s) == (Forwarded(s) + Moved(s)) + Ids(s.samples) + InHand(s)
    ensures Chain(Apply(env, s, Purge)) == (Forwarded(s) + Moved(s)) + InHand(s)
  {
    Assoc(Forwarded(s) + Moved(s), Ids(s.samples), InHand(s));
    assert [] + InHand(s) == InHand(s);
  }

  lemma MoveGetChain(env: Env, s: State)
    requires Enabled(s, MoveGet)
    ensures Chain(Apply(env, s, MoveGet)) == Chain(s)
  {
    var t := Apply(env, s, MoveGet);
    assert Ids(s.samples) == [s.samples[0].id] + Ids(t.samples);
    Assoc([s.samples[0].id], Ids(t.samples), InHand(s));
    assert Forwarded(s) + [] == Forwarded(s);
    Assoc(Forwarded(s), [s.samples[0].id], Pending(t));
  }

  lemma MovePutChain(env: Env, s: State)
    requires Enabled(s, MovePut)
    ensures |s.outbound| < OUTBOUND_DEPTH ==> Chain(Apply(env, s, MovePut)) == Chain(s)
    ensures |s.outbound| >= OUTBOUND_DEPTH ==> Chain(Apply(env, s, MovePut)) == Forwarded(s) + Pending(s)
  {
    var id := s.work.sample.id;
    SampleIdsSnoc(s.outbound, Outgoing(s.work.sample.om, Sampler(id)));
    Assoc(SampleIds(s.published), SampleIds(s.outbound), [id]);
    var forwarded := Forwarded(Apply(env, s, MovePut));
    assert forwarded + [] == forwarded;
  }

  /** The steps that do not touch the chain's ends: it stays as it is. */
  lemma ChainStays(env: Env, s: State, step: Step)
    requires Enabled(s, step) && !step.Produce? && !step.Purge? && !(step.MovePut? && |s.outbound| >= OUTBOUND_DEPTH)
    ensures Chain(Apply(env, s, step)) == Chain(s)
  {
    var t := Apply(env, s, step);
    match step
    case Publish => PublishChain(env, s);
    case PutSample => PutSampleChain(env, s);
    case MoveGet => MoveGetChain(env, s);
    case MovePut => MovePutChain(env, s);
    case PutReply => OtherKeepsChain(s, t, Outgoing(s.exec.om, Executor));
    case SendRefusal =>
      if |s.outbound| < OUTBOUND_DEPTH {
        OtherKeepsChain(s, t, Outgoing(s.main.om, Receiver));
      }
    case _ =>
  }

  lemma PurgeHoldsStep(env: Env, s: State, step: Step)
    requires PurgeHolds(s) && Enabled(s, step)
    ensures PurgeHolds(Apply(env, s, step))
  {
  }

  lemma GoneStays(env: Env, s: State, step: Step)
    requires Enabled(s, step) && !step.Purge? && !(step.MovePut? && |s.outbound| >= OUTBOUND_DEPTH)
    ensures Gone(Apply(env, s, step)) == Gone(s)
    ensures !step.Produce? ==> Apply(env, s, step).produced == s.produced
  {
  }

  lemma ProduceKeepsLedger(env: Env, s: State, om: OutMsg)
    requires Inv(s) && Enabled(s, Produce(om))
    ensures Inv(Apply(env, s, Produce(om)))
  {
    var t := Apply(env, s, Produce(om));
    ProduceChain(env, s, om);
    GoneStays(env, s, Produce(om));
    LedgerGrows(Chain(s), Chain(t), Gone(s), s.produced, t.produced);
  }

  lemma PurgeKeepsLedger(env: Env, s: State)
    requires Inv(s) && Enabled(s, Purge)
    ensures Inv(Apply(env, s, Purge))
  {
    PurgeChain(env, s);
    LedgerCut(Forwarded(s) + Moved(s), Ids(s.samples), InHand(s), Gone(s), s.produced);
    assert Gone(Apply(env, s, Purge)) == Gone(s) + multiset(Ids(s.samples));
  }

  lemma DropKeepsLedger(env: Env, s: State)
    requires Inv(s) && Enabled(s, MovePut) && |s.outbound| >= OUTBOUND_DEPTH
    ensures Inv(Apply(env, s, MovePut))
  {
    MovePutChain(env, s);
    LedgerCut(Forwarded(s), Moved(s), Pending(s), Gone(s), s.produced);
    assert Gone(Apply(env, s, MovePut)) == Gone(s) + multiset(Moved(s));
  }

  lemma StepKeepsInv(env: Env, s: State, step: Step)
    requires Inv(s) && Enabled(s, step)
    ensures Inv(Apply(env, s, step))
  {
    if step.Produce? {
      ProduceKeepsLedger(env, s, step.om);
    } else if step.Purge? {
      PurgeKeepsLedger(env, s);
    } else if step.MovePut? && |s.outbound| >= OUTBOUND_DEPTH {
      DropKeepsLedger(env, s);
    } else {
      PurgeHoldsStep(env, s, step);
      ChainStays(env, s, step);
      GoneStays(env, s, step);
    }
  }

  lemma {:induction false} RunKeepsInv(env: Env, s: State, steps: seq<Step>)
    requires Inv(s) && Run(env, s, steps)
    ensures Inv(After(env, s, steps))
    decreases |steps|
  {
    if steps != [] {
      StepKeepsInv(env, s, steps[0]);
      RunKeepsInv(env, Apply(env, s, steps[0]), steps[1..]);
    }
  }

  // ---------- what follows for every run ----------

  /** Every stretch of the chain is in order. */
  lemma StretchInOrder(a: seq<nat>, b: seq<nat>, c: seq<nat>, gone: multiset<nat>, n: nat)
    requires Ledger(a + b + c, gone, n)
    ensures Increasing(b) && Below(b, n)
  {
    forall i | 0 <= i < |b| ensures b[i] == (a + b + c)[|a| + i] {
    }
  }

  lemma FrontInOrder(a: seq<nat>, b: seq<nat>, gone: multiset<nat>, n: nat)
    requires Ledger(a + b, gone, n)
    ensures Increasing(a) && Below(a, n)
  {
    assert [] + a + b == a + b;
    StretchInOrder([], a, b, gone, n);
  }

  lemma BackInOrder(a: seq<nat>, b: seq<nat>, gone: multiset<nat>, n: nat)
    requires Ledger(a + b, gone, n)
    ensures Increasing(b) && Below(b, n)
  {
    assert a + b + [] == a + b;
    StretchInOrder(a, b, [], gone, n);
  }

  lemma ChainInOrder(t: State)
    requires Inv(t)
    ensures Increasing(SampleIds(t.published)) && Below(SampleIds(t.published), t.produced)
    ensures Increasing(Forwarded(t)) && Increasing(Pending(t))
  {
    var p, q, r := SampleIds(t.published), SampleIds(t.outbound), Moved(t) + Pending(t);
    BackInOrder(Forwarded(t) + Moved(t), Pending(t), Gone(t), t.produced);
    Assoc(Forwarded(t), Moved(t), Pending(t));
    FrontInOrder(Forwarded(t), r, Gone(t), t.produced);
    Assoc(p, q, r);
    FrontInOrder(p, q + r, Gone(t), t.produced);
  }

  /** Telemetry order: the samples handed to the broker are in the order in which they
      were produced, none twice, and so are those on their way out and those waiting. */
  lemma PublishedInOrder(env: Env, steps: seq<Step>)
    requires Run(env, Init(env), steps)
    ensures var t := After(env, Init(env), steps);
            && Increasing(SampleIds(t.published)) && Below(SampleIds(t.published), t.produced)
            && Increasing(Forwarded(t)) && Increasing(Pending(t))
  {
    InitInv(env);
    RunKeepsInv(env, Init(env), steps);
    ChainInOrder(After(env, Init(env), steps));
  }

  lemma LedgerCounts(chain: seq<nat>, purged: seq<nat>, dropped: seq<nat>, n: nat)
    requires Ledger(chain, multiset(purged) + multiset(dropped), n)
    ensures n == |chain| + |purged| + |dropped|
  {
    assert |multiset(Upto(n))| == n;
    assert |multiset(chain) + (multiset(purged) + multiset(dropped))| == |chain| + |purged| + |dropped|;
  }

  /** Telemetry conservation: every sample produced is forwarded, waiting, purged or
      dropped, and only one of these. */
  lemma SamplesConserved(env: Env, steps: seq<Step>)
    requires Run(env, Init(env), steps)
    ensures var t := After(env, Init(env), steps);
            && multiset(Forwarded(t) + Moved(t) + Pending(t)) + (multiset(t.purged) + multiset(t.dropped)) == multiset(Upto(t.produced))
            && t.produced == |Forwarded(t)| + |Moved(t)| + |t.samples| + |InHand(t)| + |t.purged| + |t.dropped|
  {
    InitInv(env);
    RunKeepsInv(env, Init(env), steps);
    var t := After(env, Init(env), steps);
    LedgerCounts(Chain(t), t.purged, t.dropped, t.produced);
  }

  /** The steps of the photodiode thread that work on getting a sample into the queue. */
  predicate PutStep(step: Step) {
    step.PutSample? || step.PutFails? || step.Purge?
  }

  /** How many more such steps the thread can need. */
  function PutEffort(s: State): nat {
    match s.photodiode
    case Resting => 0
    case Putting(_, purged) => if purged then 1 else 3
    case Purging(_) => 2
  }

  /** The put, purge, retry loop ends, whatever the other threads do in between: while
      it runs one of its steps is always possible, each of them brings it nearer to its
      end, and no step of another thread brings it further away. */
  lemma PutLoopEnds(env: Env, s: State, step: Step)
    requires PurgeHolds(s) && Enabled(s, step) && PutEffort(s) > 0
    ensures Enabled(s, PutSample) || Enabled(s, PutFails) || Enabled(s, Purge)
    ensures PutStep(step) ==> PutEffort(Apply(env, s, step)) < PutEffort(s)
    ensures !PutStep(step) ==> Apply(env, s, step).photodiode == s.photodiode
  {
  }

  /** All samples but the last of the chain are older than id. */
  ghost predicate NewestLast(chain: seq<nat>, id: nat) {
    forall i :: 0 <= i < |chain| - 1 ==> chain[i] < id
  }

  lemma LastIsLargest(front: seq<nat>, last: nat, all: seq<nat>)
    requires all == front + [last] && Increasing(all)
    ensures NewestLast(all, last)
  {
    assert all[|all| - 1] == last;
  }

  lemma HandIsLast(s: State)
    requires s.photodiode.Putting?
    ensures Chain(s) == (Forwarded(s) + Moved(s) + Ids(s.samples)) + [s.photodiode.sample.id]
  {
    Assoc(Forwarded(s) + Moved(s), Ids(s.samples), InHand(s));
  }

  lemma HandIsNewest(s: State)
    requires Inv(s) && s.photodiode.Putting?
    ensures NewestLast(Chain(s), s.photodiode.sample.id)
  {
    HandIsLast(s);
    LastIsLargest(Forwarded(s) + Moved(s) + Ids(s.samples), s.photodiode.sample.id, Chain(s));
  }

  lemma EndIsPut(env: Env, s: State, step: Step)
    requires Enabled(s, step) && PutEffort(s) > 0 && PutEffort(Apply(env, s, step)) == 0
    ensures step == PutSample && s.photodiode.Putting?
    ensures var t := Apply(env, s, step); t.samples != [] && t.samples[|t.samples| - 1] == s.photodiode.sample
  {
  }

  lemma PutAppendsNewest(env: Env, s: State)
    requires Inv(s) && Enabled(s, PutSample)
    ensures NewestLast(Chain(Apply(env, s, PutSample)), s.photodiode.sample.id)
  {
    PutSampleChain(env, s);
    HandIsNewest(s);
  }

  /** It ends with the sample at the back of the queue, and that is the newest one. */
  lemma PutLoopEndsWithNewest(env: Env, s: State, step: Step)
    requires Inv(s) && Enabled(s, step) && PutEffort(s) > 0 && PutEffort(Apply(env, s, step)) == 0
    ensures var t := Apply(env, s, step);
            && t.samples != [] && t.samples[|t.samples| - 1] == s.photodiode.sample
            && NewestLast(Chain(t), s.photodiode.sample.id)
  {
    EndIsPut(env, s, step);
    PutAppendsNewest(env, s);
  }
}
