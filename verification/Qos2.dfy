/** The event handler as a QoS 2 receiver, run against a sender that follows section
    4.3.3 of MQTT Version 5.0 over two channels that neither lose nor reorder packets.
    Messages are numbered in the order in which the sender first sends them. */
module Qos2 {
  import opened Sequences
  import opened MqttClient

  const MAX_ID: nat := 65535

  /** The channels, the sender's unfinished messages by packet identifier, and those of
      them for which PUBREL has been sent. The rest is history: the message numbers of all
      transmissions, of all the receiver has handled with whether their payload was
      readable, of all callbacks, and of all the sender has finished. */
  datatype State = State(
    toClient: seq<Packet>, toBroker: seq<Packet>,
    inflight: map<nat, nat>, released: set<nat>, next: nat,
    sent: seq<nat>, handled: seq<(nat, bool)>, delivered: seq<nat>, finished: seq<nat>, resent: bool)

  datatype Step =
    | Send(id: nat)
    | Resend(id: nat)
    | ClientTurn(readable: bool)
    | BrokerTurn

  function Init(): State {
    State([], [], map[], {}, 0, [], [], [], [], false)
  }

  predicate Enabled(s: State, step: Step) {
    match step
    case Send(id) => 1 <= id <= MAX_ID && id !in s.inflight
    case Resend(id) => id in s.inflight && id !in s.released
    case ClientTurn(_) => s.toClient != []
    case BrokerTurn => s.toBroker != []
  }

  /** The client handles the packet at the front of its channel. */
  function ClientApply(s: State, readable: bool): State
    requires s.toClient != []
  {
    var p := s.toClient[0];
    var e := PacketEvent(p, 0, readable);
    s.(toClient := s.toClient[1..], toBroker := s.toBroker + Responses(e),
       handled := s.handled + (if p.Publish? then [(p.message, readable)] else []),
       delivered := s.delivered + Callbacks(e))
  }

  /** The sender answers PUBREC with PUBREL and gives the identifier free on PUBCOMP. */
  function BrokerApply(s: State): State
    requires s.toBroker != []
  {
    var t := s.(toBroker := s.toBroker[1..]);
    match s.toBroker[0]
    case PubRec(id) =>
      if id in s.inflight then t.(toClient := s.toClient + [PubRel(id)], released := s.released + {id}) else t
    case PubComp(id) =>
      if id in s.inflight && id in s.released
      then t.(inflight := s.inflight - {id}, released := s.released - {id}, finished := s.finished + [s.inflight[id]])
      else t
    case _ => t
  }

  function Apply(s: State, step: Step): State
    requires Enabled(s, step)
  {
    match step
    case Send(id) =>
      s.(toClient := s.toClient + [Publish(id, ExactlyOnce, s.next)], inflight := s.inflight[id := s.next],
         sent := s.sent + [s.next], next := s.next + 1)
    case Resend(id) =>
      s.(toClient := s.toClient + [Publish(id, ExactlyOnce, s.inflight[id])], sent := s.sent + [s.inflight[id]], resent := true)
    case ClientTurn(readable) => ClientApply(s, readable)
    case BrokerTurn => BrokerApply(s)
  }

  predicate Run(s: State, steps: seq<Step>)
    decreases |steps|
  {
    steps == [] || (Enabled(s, steps[0]) && Run(Apply(s, steps[0]), steps[1..]))
  }

  function After(s: State, steps: seq<Step>): State
    requires Run(s, steps)
    decreases |steps|
  {
    if steps == [] then s else After(Apply(s, steps[0]), steps[1..])
  }

  // ---------- every transmission is handled once, in order ----------

  /** The message numbers of the publications in a channel. */
  function Pending(q: seq<Packet>): seq<nat> {
    if q == [] then [] else Pending(q[..|q| - 1]) + if q[|q| - 1].Publish? then [q[|q| - 1].message] else []
  }

  lemma PendingSnoc(q: seq<Packet>, p: Packet)
    ensures Pending(q + [p]) == Pending(q) + if p.Publish? then [p.message] else []
  {
    assert (q + [p])[..|q|] == q;
  }

  lemma {:induction false} PendingHead(q: seq<Packet>)
    requires q != []
    ensures Pending(q) == (if q[0].Publish? then [q[0].message] else []) + Pending(q[1..])
  {
    var n := |q| - 1;
    if n == 0 {
      assert q[..0] == [];
    } else {
      PendingHead(q[..n]);
      assert q[..n][1..] == q[1..][..n - 1];
    }
  }

  function Messages(handled: seq<(nat, bool)>): (ms: seq<nat>)
    ensures |ms| == |handled|
  {
    seq(|handled|, i requires 0 <= i < |handled| => handled[i].0)
  }

  /** The handled transmissions whose payload could be read. */
  function Readable(handled: seq<(nat, bool)>): seq<nat> {
    if handled == [] then []
    else
      var last := handled[|handled| - 1];
      Readable(handled[..|handled| - 1]) + if last.1 then [last.0] else []
  }

  lemma ReadableSnoc(handled: seq<(nat, bool)>, h: (nat, bool))
    ensures Readable(handled + [h]) == Readable(handled) + if h.1 then [h.0] else []
    ensures Messages(handled + [h]) == Messages(handled) + [h.0]
  {
    assert (handled + [h])[..|handled|] == handled;
  }

  /** What is sent is handled or under way, and what is handled and readable is delivered:
      nothing is lost, reordered or suppressed. */
  ghost predicate Flow(s: State) {
    && s.sent == Messages(s.handled) + Pending(s.toClient)
    && s.delivered == Readable(s.handled)
  }

  lemma ClientKeepsFlow(s: State, readable: bool)
    requires Flow(s) && s.toClient != []
    ensures Flow(ClientApply(s, readable))
  {
    var p := s.toClient[0];
    PendingHead(s.toClient);
    if p.Publish? {
      ReadableSnoc(s.handled, (p.message, readable));
      Assoc(Messages(s.handled), [p.message], Pending(s.toClient[1..]));
    } else {
      assert s.handled + [] == s.handled && s.delivered + [] == s.delivered;
      assert [] + Pending(s.toClient[1..]) == Pending(s.toClient[1..]);
    }
  }

  lemma StepKeepsFlow(s: State, step: Step)
    requires Flow(s) && Enabled(s, step)
    ensures Flow(Apply(s, step))
  {
    match step
    case Send(id) =>
      PendingSnoc(s.toClient, Publish(id, ExactlyOnce, s.next));
      Assoc(Messages(s.handled), Pending(s.toClient), [s.next]);
    case Resend(id) =>
      PendingSnoc(s.toClient, Publish(id, ExactlyOnce, s.inflight[id]));
      Assoc(Messages(s.handled), Pending(s.toClient), [s.inflight[id]]);
    case ClientTurn(readable) => ClientKeepsFlow(s, readable);
    case BrokerTurn =>
      var p := s.toBroker[0];
      if p.PubRec? {
        PendingSnoc(s.toClient, PubRel(p.id));
        assert Pending(s.toClient) + [] == Pending(s.toClient);
      }
  }

  // ---------- one packet under way for each unfinished message ----------

  function Ids(q: seq<Packet>): (ids: seq<nat>)
    ensures |ids| == |q|
  {
    seq(|q|, i requires 0 <= i < |q| => q[i].id)
  }

  ghost predicate Distinct(ids: seq<nat>) {
    forall i, j :: 0 <= i < j < |ids| ==> ids[i] != ids[j]
  }

  /** A packet on its way to the client fits the sender's state. */
  ghost predicate FitsClient(s: State, p: Packet) {
    match p
    case Publish(id, qos, m) => qos == ExactlyOnce && id in s.inflight && id !in s.released && s.inflight[id] == m
    case PubRel(id) => id in s.inflight && id in s.released && s.inflight[id] in Messages(s.handled)
    case _ => false
  }

  ghost predicate FitsBroker(s: State, p: Packet) {
    match p
    case PubRec(id) => id in s.inflight && id !in s.released && s.inflight[id] in Messages(s.handled)
    case PubComp(id) => id in s.inflight && id in s.released && s.inflight[id] in Messages(s.handled)
    case _ => false
  }

  function Tokens(s: State): seq<nat> {
    Ids(s.toClient) + Ids(s.toBroker)
  }

  /** Without resends: for each unfinished message exactly one packet is under way, and it
      is the one its state calls for; each message was sent once; and what the sender
      has finished the client has handled. */
  ghost predicate Handshakes(s: State) {
    && (forall p :: p in s.toClient ==> FitsClient(s, p))
    && (forall p :: p in s.toBroker ==> FitsBroker(s, p))
    && Distinct(Tokens(s))
    && (forall id :: id in s.inflight ==> id in Tokens(s))
    && s.released <= s.inflight.Keys
    && s.sent == Upto(s.next)
    && (forall m :: m in s.finished ==> m in Messages(s.handled))
  }

  lemma TokenOf(q: seq<Packet>, p: Packet)
    requires p in q
    ensures p.id in Ids(q)
  {
    var i :| 0 <= i < |q| && q[i] == p;
    assert Ids(q)[i] == p.id;
  }

  /** In a distinct sequence the element split off occurs nowhere else. */
  lemma NowhereElse(a: seq<nat>, x: nat, b: seq<nat>)
    requires Distinct(a + [x] + b)
    ensures x !in a && x !in b && Distinct(a + b) && Distinct(a + b + [x])
  {
    var all := a + [x] + b;
    assert all[|a|] == x;
    forall i | 0 <= i < |a| ensures a[i] != x {
      assert all[i] == a[i];
    }
    forall i | 0 <= i < |b| ensures b[i] != x {
      assert all[|a| + 1 + i] == b[i];
    }
    forall i, j | 0 <= i < j < |a + b| ensures (a + b)[i] != (a + b)[j] {
      assert (a + b)[i] == all[if i < |a| then i else i + 1];
      assert (a + b)[j] == all[if j < |a| then j else j + 1];
    }
  }

  lemma InsertDistinct(a: seq<nat>, x: nat, b: seq<nat>)
    requires Distinct(a + b) && x !in a + b
    ensures Distinct(a + [x] + b)
  {
    var all := a + [x] + b;
    forall i, j | 0 <= i < j < |all| ensures all[i] != all[j] {
      if i != |a| && j != |a| {
        assert all[i] == (a + b)[if i < |a| then i else i - 1];
        assert all[j] == (a + b)[if j < |a| then j else j - 1];
      } else {
        assert all[if i == |a| then j else i] == (a + b)[if i == |a| then j - 1 else i];
      }
    }
  }

  /** A packet that is still under way has another identifier than the one removed. */
  lemma OtherIds(q: seq<Packet>, x: nat)
    requires x !in Ids(q)
    ensures forall p :: p in q ==> p.id != x
  {
    forall p | p in q ensures p.id != x {
      TokenOf(q, p);
    }
  }

  lemma TokenInflight(s: State, x: nat)
    requires Handshakes(s) && x in Tokens(s)
    ensures x in s.inflight
  {
    var i :| 0 <= i < |Tokens(s)| && Tokens(s)[i] == x;
    if i < |s.toClient| {
      assert s.toClient[i] in s.toClient;
    } else {
      assert s.toBroker[i - |s.toClient|] in s.toBroker;
    }
  }

  lemma SendKeepsHandshakes(s: State, id: nat)
    requires Handshakes(s) && Enabled(s, Send(id))
    ensures Handshakes(Apply(s, Send(id)))
  {
    var t := Apply(s, Send(id));
    forall x | x in Tokens(s) ensures x in s.inflight {
      TokenInflight(s, x);
    }
    InsertDistinct(Ids(s.toClient), id, Ids(s.toBroker));
    assert Ids(t.toClient) == Ids(s.toClient) + [id];
    OtherIds(s.toClient, id);
    OtherIds(s.toBroker, id);
    forall p | p in t.toClient ensures FitsClient(t, p) {
      if p in s.toClient {
        assert FitsClient(s, p);
      } else {
        assert p == Publish(id, ExactlyOnce, s.next);
      }
    }
    forall p | p in t.toBroker ensures FitsBroker(t, p) {
      assert FitsBroker(s, p);
    }
    assert t.sent == Upto(s.next) + [s.next];
  }

  lemma IdsSplit(q: seq<Packet>, p: Packet)
    ensures Ids([p] + q) == [p.id] + Ids(q) && Ids(q + [p]) == Ids(q) + [p.id]
  {
  }

  lemma ClientTokens(s: State, t: State, ack: Packet)
    requires Distinct(Tokens(s)) && s.toClient != []
    requires t.toClient == s.toClient[1..] && t.toBroker == s.toBroker + [ack] && ack.id == s.toClient[0].id
    ensures var x := ack.id;
            && Tokens(s) == [x] + (Ids(t.toClient) + Ids(s.toBroker))
            && Tokens(t) == Ids(t.toClient) + Ids(s.toBroker) + [x]
            && x !in Ids(t.toClient) && x !in Ids(s.toBroker)
            && Distinct(Tokens(t))
  {
    var x, rest := ack.id, Ids(t.toClient) + Ids(s.toBroker);
    assert s.toClient == [s.toClient[0]] + t.toClient;
    IdsSplit(t.toClient, s.toClient[0]);
    IdsSplit(s.toBroker, ack);
    Assoc([x], Ids(t.toClient), Ids(s.toBroker));
    Assoc(Ids(t.toClient), Ids(s.toBroker), [x]);
    assert [] + [x] + rest == [x] + rest;
    NowhereElse([], x, rest);
    assert [] + rest + [x] == rest + [x];
  }

  lemma HandledGrows(a: seq<(nat, bool)>, b: seq<(nat, bool)>)
    requires a <= b
    ensures forall m :: m in Messages(a) ==> m in Messages(b)
  {
    forall m | m in Messages(a) ensures m in Messages(b) {
      var i :| 0 <= i < |a| && Messages(a)[i] == m;
      assert Messages(b)[i] == m;
    }
  }

  lemma ClientKeepsHandshakes(s: State, readable: bool)
    requires Handshakes(s) && s.toClient != []
    ensures Handshakes(ClientApply(s, readable))
  {
    var t, p := ClientApply(s, readable), s.toClient[0];
    assert p in s.toClient && FitsClient(s, p);
    var ack := if p.Publish? then PubRec(p.id) else PubComp(p.id);
    ClientTokens(s, t, ack);
    HandledGrows(s.handled, t.handled);
    OtherIds(t.toClient, p.id);
    OtherIds(s.toBroker, p.id);
    if p.Publish? {
      assert Messages(t.handled)[|s.handled|] == p.message;
    }
    forall q | q in t.toClient ensures FitsClient(t, q) {
      assert q in s.toClient && FitsClient(s, q);
    }
    forall q | q in t.toBroker ensures FitsBroker(t, q) {
      if q in s.toBroker {
        assert FitsBroker(s, q);
      } else {
        assert q == ack;
      }
    }
  }

  lemma BrokerTokens(s: State)
    requires Handshakes(s) && s.toBroker != []
    ensures var x, a, b := s.toBroker[0].id, Ids(s.toClient), Ids(s.toBroker[1..]);
            Tokens(s) == a + [x] + b && x !in a && x !in b && Distinct(a + b)
  {
    assert Ids(s.toBroker) == [s.toBroker[0].id] + Ids(s.toBroker[1..]);
    assert Tokens(s) == Ids(s.toClient) + [s.toBroker[0].id] + Ids(s.toBroker[1..]);
    NowhereElse(Ids(s.toClient), s.toBroker[0].id, Ids(s.toBroker[1..]));
  }

  lemma BrokerKeepsHandshakes(s: State)
    requires Handshakes(s) && s.toBroker != []
    ensures Handshakes(BrokerApply(s))
  {
    var t, p := BrokerApply(s), s.toBroker[0];
    assert p in s.toBroker;
    BrokerTokens(s);
    OtherIds(s.toClient, p.id);
    OtherIds(t.toBroker, p.id);
    forall q | q in t.toBroker ensures FitsBroker(t, q) {
      assert q in s.toBroker && FitsBroker(s, q);
    }
    forall q | q in t.toClient ensures FitsClient(t, q) {
      if q in s.toClient {
        assert FitsClient(s, q);
      } else {
        assert q == PubRel(p.id);
      }
    }
    if p.PubRec? {
      assert Ids(t.toClient) == Ids(s.toClient) + [p.id];
      assert Tokens(t) == Tokens(s);
    } else {
      assert Tokens(t) == Ids(s.toClient) + Ids(t.toBroker);
      forall id | id in t.inflight ensures id in Tokens(t) {
        assert id in Tokens(s);
      }
    }
  }

  ghost predicate Inv(s: State) {
    Flow(s) && (!s.resent ==> Handshakes(s))
  }

  lemma StepKeepsInv(s: State, step: Step)
    requires Inv(s) && Enabled(s, step)
    ensures Inv(Apply(s, step))
  {
    StepKeepsFlow(s, step);
    if !s.resent {
      match step
      case Send(id) => SendKeepsHandshakes(s, id);
      case Resend(id) =>
      case ClientTurn(readable) => ClientKeepsHandshakes(s, readable);
      case BrokerTurn => BrokerKeepsHandshakes(s);
    }
  }

  lemma {:induction false} RunKeepsInv(s: State, steps: seq<Step>)
    requires Inv(s) && Run(s, steps)
    ensures Inv(After(s, steps))
    decreases |steps|
  {
    if steps != [] {
      StepKeepsInv(s, steps[0]);
      RunKeepsInv(Apply(s, steps[0]), steps[1..]);
    }
  }

  // ---------- what follows for every run ----------

  lemma {:induction false} CountByKind(handled: seq<(nat, bool)>, m: nat)
    ensures multiset(Readable(handled))[m] == multiset(handled)[(m, true)]
    ensures multiset(Messages(handled))[m] == multiset(handled)[(m, true)] + multiset(handled)[(m, false)]
  {
    if handled == [] {
      assert Messages(handled) == [];
    } else {
      var n := |handled| - 1;
      CountByKind(handled[..n], m);
      assert handled == handled[..n] + [handled[n]];
      ReadableSnoc(handled[..n], handled[n]);
      CountSnoc(handled[..n], handled[n], (m, true));
      CountSnoc(handled[..n], handled[n], (m, false));
      CountSnoc(Messages(handled[..n]), handled[n].0, m);
      CountSnoc(Readable(handled[..n]), handled[n].0, m);
    }
  }

  lemma {:induction false} CountInOrder(ids: seq<nat>, m: nat)
    requires forall i :: 0 <= i < |ids| ==> ids[i] == i
    ensures multiset(ids)[m] == if m < |ids| then 1 else 0
  {
    if ids != [] {
      var last := |ids| - 1;
      CountInOrder(ids[..last], m);
      CountSnoc(ids[..last], last, m);
      assert ids == ids[..last] + [last];
    }
  }

  lemma CountOfPart(a: seq<nat>, b: seq<nat>, m: nat)
    ensures multiset(a)[m] <= multiset(a + b)[m]
  {
    assert multiset(a + b) == multiset(a) + multiset(b);
  }

  /** Of transmissions handled in order the readable ones are in order. */
  lemma {:induction false} ReadableInOrder(handled: seq<(nat, bool)>)
    requires forall i :: 0 <= i < |handled| ==> handled[i].0 == i
    ensures Increasing(Readable(handled)) && forall m :: m in Readable(handled) ==> m < |handled|
  {
    if handled != [] {
      var n := |handled| - 1;
      var before := Readable(handled[..n]);
      ReadableInOrder(handled[..n]);
      assert forall i :: 0 <= i < |before| ==> before[i] in before;
    }
  }

  /** A run without resends has handled the first messages, in the order of sending. */
  lemma HandledInOrder(s: State)
    requires Inv(s) && !s.resent
    ensures |s.handled| <= s.next && Messages(s.handled) <= Upto(s.next)
    ensures forall i :: 0 <= i < |s.handled| ==> s.handled[i].0 == i
  {
    forall i | 0 <= i < |s.handled| ensures s.handled[i].0 == i {
      assert Messages(s.handled)[i] == Upto(s.next)[i];
    }
  }

  /** At most once, and in order: in every run without resends the callbacks come for
      different messages, each sent before, in the order in which they were sent. */
  lemma AtMostOnce(steps: seq<Step>, m: nat)
    requires Run(Init(), steps) && !After(Init(), steps).resent
    ensures multiset(After(Init(), steps).delivered)[m] <= if m < After(Init(), steps).next then 1 else 0
    ensures Messages(After(Init(), steps).handled) <= Upto(After(Init(), steps).next)
    ensures Increasing(After(Init(), steps).delivered)
  {
    RunKeepsInv(Init(), steps);
    var t := After(Init(), steps);
    CountByKind(t.handled, m);
    CountOfPart(Messages(t.handled), Pending(t.toClient), m);
    CountInOrder(Upto(t.next), m);
    HandledInOrder(t);
    ReadableInOrder(t.handled);
  }

  lemma HandledKinds(handled: seq<(nat, bool)>, m: nat)
    requires m in Messages(handled)
    ensures (m, true) in handled || (m, false) in handled
  {
    var i :| 0 <= i < |handled| && Messages(handled)[i] == m;
    assert handled[i] in handled;
    if handled[i].1 {
      assert handled[i] == (m, true);
    } else {
      assert handled[i] == (m, false);
    }
  }

  lemma {:induction false} ReadableHas(handled: seq<(nat, bool)>, m: nat)
    requires (m, true) in handled
    ensures multiset(Readable(handled))[m] >= 1
  {
    var n := |handled| - 1;
    if handled[n] != (m, true) {
      assert (m, true) in handled[..n];
      ReadableHas(handled[..n], m);
    }
  }

  lemma {:induction false} ReadableLacks(handled: seq<(nat, bool)>, m: nat)
    requires (m, true) !in handled
    ensures multiset(Readable(handled))[m] == 0
  {
    if handled != [] {
      var n := |handled| - 1;
      ReadableLacks(handled[..n], m);
      assert handled[n] in handled;
    }
  }

  /** Exactly once by the time the identifier is free: in every run without resends, when
      the sender has received PUBCOMP for a message, the callback has been called for it
      once, provided its payload could be read. If it could not, the message has been
      acknowledged all the same and the callback is never called for it. */
  lemma ExactlyOnceWhenFinished(steps: seq<Step>, m: nat)
    requires Run(Init(), steps) && !After(Init(), steps).resent && m in After(Init(), steps).finished
    ensures var t := After(Init(), steps);
            && ((m, true) in t.handled ==> multiset(t.delivered)[m] == 1)
            && ((m, true) !in t.handled ==> (m, false) in t.handled && multiset(t.delivered)[m] == 0)
  {
    RunKeepsInv(Init(), steps);
    var t := After(Init(), steps);
    AtMostOnce(steps, m);
    HandledKinds(t.handled, m);
    if (m, true) in t.handled {
      ReadableHas(t.handled, m);
    } else {
      ReadableLacks(t.handled, m);
    }
  }

  /** The receiver keeps no record of identifiers: when nothing is under way the callback
      has been called once for every transmission, first ones and resends alike, whose
      payload could be read. */
  lemma CallbacksAreTransmissions(steps: seq<Step>, m: nat)
    requires Run(Init(), steps) && After(Init(), steps).toClient == []
    ensures var t := After(Init(), steps);
            && multiset(t.delivered)[m] == multiset(t.handled)[(m, true)]
            && multiset(t.sent)[m] == multiset(t.handled)[(m, true)] + multiset(t.handled)[(m, false)]
  {
    RunKeepsInv(Init(), steps);
    var t := After(Init(), steps);
    CountByKind(t.handled, m);
    assert t.sent == Messages(t.handled);
  }

  lemma {:induction false} AllReadable(handled: seq<(nat, bool)>)
    requires forall h :: h in handled ==> h.1
    ensures Readable(handled) == Messages(handled)
  {
    if handled != [] {
      var n := |handled| - 1;
      AllReadable(handled[..n]);
      assert handled[n] in handled;
      assert Messages(handled) == Messages(handled[..n]) + [handled[n].0];
    }
  }

  /** So, as long as every payload could be read, no message is delivered twice exactly
      when none was transmitted twice. */
  lemma DuplicatesAreResends(steps: seq<Step>)
    requires Run(Init(), steps) && After(Init(), steps).toClient == []
    requires forall h :: h in After(Init(), steps).handled ==> h.1
    ensures var t := After(Init(), steps);
            && t.delivered == t.sent && (Distinct(t.delivered) <==> Distinct(t.sent))
  {
    RunKeepsInv(Init(), steps);
    var t := After(Init(), steps);
    AllReadable(t.handled);
    assert t.sent == Messages(t.handled);
  }

  /** Such a run: a message that is resent before its PUBREC arrives is delivered twice. */
  lemma ResendDelivers(id: nat)
    requires 1 <= id <= MAX_ID
    ensures var steps := [Send(id), Resend(id), ClientTurn(true), ClientTurn(true)];
            Run(Init(), steps) && After(Init(), steps).delivered == [0, 0]
  {
    var s1 := Apply(Init(), Send(id));
    var s2 := Apply(s1, Resend(id));
    var s3 := Apply(s2, ClientTurn(true));
    var s4 := Apply(s3, ClientTurn(true));
    var steps := [Send(id), Resend(id), ClientTurn(true), ClientTurn(true)];
    assert steps[1..] == [Resend(id), ClientTurn(true), ClientTurn(true)];
    assert steps[1..][1..] == [ClientTurn(true), ClientTurn(true)];
    assert steps[1..][1..][1..] == [ClientTurn(true)] && [ClientTurn(true)][1..] == [];
    assert Run(s4, []) && After(s4, []) == s4;
    assert Run(s3, [ClientTurn(true)]) && After(s3, [ClientTurn(true)]) == s4;
    assert Run(s2, steps[1..][1..]) && After(s2, steps[1..][1..]) == s4;
    assert Run(s1, steps[1..]) && After(s1, steps[1..]) == s4;
  }

  // ---------- progress ----------

  function Weight(p: Packet): nat {
    match p
    case Publish(_, _, _) => 4
    case PubRec(_) => 3
    case PubRel(_) => 2
    case _ => 1
  }

  function Load(q: seq<Packet>): nat {
    if q == [] then 0 else Load(q[..|q| - 1]) + Weight(q[|q| - 1])
  }

  lemma {:induction false} LoadHead(q: seq<Packet>)
    requires q != []
    ensures Load(q) == Weight(q[0]) + Load(q[1..])
  {
    var n := |q| - 1;
    if n == 0 {
      assert q[..0] == [];
    } else {
      LoadHead(q[..n]);
      assert q[..n][1..] == q[1..][..n - 1];
    }
  }

  lemma LoadSnoc(q: seq<Packet>, p: Packet)
    ensures Load(q + [p]) == Load(q) + Weight(p)
  {
    assert (q + [p])[..|q|] == q;
  }

  /** While a message is unfinished one side can take a turn. */
  lemma SomeoneCanMove(s: State, readable: bool)
    requires Handshakes(s) && s.inflight != map[]
    ensures Enabled(s, ClientTurn(readable)) || Enabled(s, BrokerTurn)
  {
    var id :| id in s.inflight;
    assert id in Tokens(s);
  }

  /** The client answers a publication with PUBREC and PUBREL with PUBCOMP. */
  lemma ClientAnswers(s: State, readable: bool) returns (ack: Packet)
    requires Handshakes(s) && s.toClient != []
    ensures ClientApply(s, readable).toBroker == s.toBroker + [ack]
    ensures Weight(ack) + 1 == Weight(s.toClient[0])
  {
    var p := s.toClient[0];
    assert p in s.toClient && FitsClient(s, p);
    ack := if p.Publish? then PubRec(p.id) else PubComp(p.id);
  }

  lemma ClientTurnLoad(s: State, readable: bool)
    requires Handshakes(s) && s.toClient != []
    ensures var t := ClientApply(s, readable);
            Load(t.toClient) + Load(t.toBroker) + 1 == Load(s.toClient) + Load(s.toBroker)
  {
    var ack := ClientAnswers(s, readable);
    LoadHead(s.toClient);
    LoadSnoc(s.toBroker, ack);
  }

  lemma BrokerTurnLoad(s: State)
    requires Handshakes(s) && s.toBroker != []
    ensures var t := BrokerApply(s);
            Load(t.toClient) + Load(t.toBroker) + 1 == Load(s.toClient) + Load(s.toBroker)
  {
    var p := s.toBroker[0];
    assert p in s.toBroker && FitsBroker(s, p);
    LoadHead(s.toBroker);
    LoadSnoc(s.toClient, PubRel(p.id));
  }

  /** The handshakes end: each turn of either side takes one of the four steps that a
      message needs. */
  lemma HandshakesEnd(s: State, step: Step)
    requires Handshakes(s) && Enabled(s, step) && (step.ClientTurn? || step.BrokerTurn?)
    ensures var t := Apply(s, step);
            Load(t.toClient) + Load(t.toBroker) + 1 == Load(s.toClient) + Load(s.toBroker)
  {
    match step
    case ClientTurn(readable) => ClientTurnLoad(s, readable);
    case BrokerTurn => BrokerTurnLoad(s);
  }
}
