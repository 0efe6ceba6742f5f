/** The event handler as a receiver of messages of quality of service 0 and 1, run against
    a sender that follows sections 4.3.1 and 4.3.2 of MQTT Version 5.0 over two channels
    that neither lose nor reorder packets. A broker delivers with the quality of service
    its publisher chose when that is lower than the one subscribed to. */
module Qos1 {
  import opened Sequences
  import opened MqttClient
  import opened Qos2

  /** The channels, and the sender's unacknowledged messages by packet identifier. The rest
      is history, as in module Qos2; acks and pubs are the identifiers of all
      acknowledgements sent and of all QoS 1 publications handled. */
  datatype Lane = Lane(
    toClient: seq<Packet>, toBroker: seq<Packet>, inflight: map<nat, nat>, next: nat,
    sent: seq<nat>, handled: seq<(nat, bool)>, delivered: seq<nat>, resent: bool,
    pubs: seq<nat>, acks: seq<nat>)

  datatype Turn =
    | SendOnce
    | SendSafely(id: nat)
    | SendAgain(id: nat)
    | Handle(readable: bool)
    | Settle

  function Start(): Lane {
    Lane([], [], map[], 0, [], [], [], false, [], [])
  }

  predicate Possible(l: Lane, t: Turn) {
    match t
    case SendOnce => true
    case SendSafely(id) => 1 <= id <= 65535 && id !in l.inflight
    case SendAgain(id) => id in l.inflight
    case Handle(_) => l.toClient != []
    case Settle => l.toBroker != []
  }

  /** The client handles the packet at the front of its channel. */
  function ClientTakes(l: Lane, readable: bool): Lane
    requires l.toClient != []
  {
    var p := l.toClient[0];
    var e := PacketEvent(p, 0, readable);
    l.(toClient := l.toClient[1..], toBroker := l.toBroker + Responses(e),
       handled := l.handled + (if p.Publish? then [(p.message, readable)] else []),
       delivered := l.delivered + Callbacks(e),
       pubs := l.pubs + (if p.Publish? && p.qos == AtLeastOnce then [p.id] else []),
       acks := l.acks + Ids(Responses(e)))
  }

  /** On PUBACK the sender gives the identifier free; it has no use for other packets. */
  function BrokerTakes(l: Lane): Lane
    requires l.toBroker != []
  {
    var p := l.toBroker[0];
    l.(toBroker := l.toBroker[1..], inflight := if p.PubAck? then l.inflight - {p.id} else l.inflight)
  }

  function Next(l: Lane, t: Turn): Lane
    requires Possible(l, t)
  {
    match t
    case SendOnce =>
      l.(toClient := l.toClient + [Publish(0, AtMostOnce, l.next)], sent := l.sent + [l.next], next := l.next + 1)
    case SendSafely(id) =>
      l.(toClient := l.toClient + [Publish(id, AtLeastOnce, l.next)], inflight := l.inflight[id := l.next],
         sent := l.sent + [l.next], next := l.next + 1)
    case SendAgain(id) =>
      l.(toClient := l.toClient + [Publish(id, AtLeastOnce, l.inflight[id])], sent := l.sent + [l.inflight[id]], resent := true)
    case Handle(readable) => ClientTakes(l, readable)
    case Settle => BrokerTakes(l)
  }

  predicate Exchange(l: Lane, ts: seq<Turn>)
    decreases |ts|
  {
    ts == [] || (Possible(l, ts[0]) && Exchange(Next(l, ts[0]), ts[1..]))
  }

  function Later(l: Lane, ts: seq<Turn>): Lane
    requires Exchange(l, ts)
    decreases |ts|
  {
    if ts == [] then l else Later(Next(l, ts[0]), ts[1..])
  }

  // ---------- the invariant ----------

  /** Only publications go to the client, and only acknowledgements come back. */
  ghost predicate Kinds(l: Lane) {
    && (forall p :: p in l.toClient ==> p.Publish? && p.qos != ExactlyOnce)
    && (forall p :: p in l.toBroker ==> p.PubAck?)
  }

  /** What is sent is handled or under way, and what is handled and readable is delivered. */
  ghost predicate Flows(l: Lane) {
    && l.sent == Messages(l.handled) + Pending(l.toClient)
    && l.delivered == Readable(l.handled)
    && (!l.resent ==> l.sent == Upto(l.next))
    && (forall m :: 0 <= m < l.next ==> m in l.sent)
  }

  /** The identifier's publication or its acknowledgement is under way. */
  ghost predicate UnderWay(l: Lane, id: nat) {
    || (exists p :: p in l.toClient && p.Publish? && p.qos == AtLeastOnce && p.id == id)
    || (exists p :: p in l.toBroker && p.PubAck? && p.id == id)
  }

  ghost predicate Awaited(l: Lane) {
    forall id :: id in l.inflight ==> UnderWay(l, id)
  }

  ghost predicate Right(l: Lane) {
    Kinds(l) && Flows(l) && Awaited(l) && l.acks == l.pubs
  }

  lemma SendKeepsFlows(l: Lane, p: Packet)
    requires Flows(l) && p.Publish?
    ensures l.sent + [p.message] == Messages(l.handled) + Pending(l.toClient + [p])
  {
    PendingSnoc(l.toClient, p);
    Assoc(Messages(l.handled), Pending(l.toClient), [p.message]);
  }

  lemma SendKeepsAwaited(l: Lane, p: Packet, inflight: map<nat, nat>)
    requires Awaited(l)
    requires forall id :: id in inflight ==> id in l.inflight || (p.Publish? && p.qos == AtLeastOnce && p.id == id)
    ensures Awaited(l.(toClient := l.toClient + [p], inflight := inflight))
  {
    var m := l.(toClient := l.toClient + [p], inflight := inflight);
    assert p in m.toClient;
    forall id | id in inflight ensures UnderWay(m, id) {
      assert id in l.inflight ==> UnderWay(l, id);
      if q :| q in l.toClient && q.Publish? && q.qos == AtLeastOnce && q.id == id {
        assert q in m.toClient;
      }
    }
  }

  lemma NewMessageKeepsRight(l: Lane, p: Packet, inflight: map<nat, nat>)
    requires Right(l) && p.Publish? && p.qos != ExactlyOnce && p.message == l.next
    requires forall id :: id in inflight ==> id in l.inflight || (p.qos == AtLeastOnce && p.id == id)
    ensures Right(l.(toClient := l.toClient + [p], inflight := inflight, sent := l.sent + [l.next], next := l.next + 1))
  {
    SendKeepsFlows(l, p);
    SendKeepsAwaited(l, p, inflight);
  }

  lemma ResendKeepsRight(l: Lane, p: Packet)
    requires Right(l) && p.Publish? && p.qos != ExactlyOnce
    ensures Right(l.(toClient := l.toClient + [p], sent := l.sent + [p.message], resent := true))
  {
    SendKeepsFlows(l, p);
    SendKeepsAwaited(l, p, l.inflight);
  }

  lemma SendKeepsRight(l: Lane, t: Turn)
    requires Right(l) && Possible(l, t) && (t.SendOnce? || t.SendSafely? || t.SendAgain?)
    ensures Right(Next(l, t))
  {
    match t
    case SendOnce => NewMessageKeepsRight(l, Publish(0, AtMostOnce, l.next), l.inflight);
    case SendSafely(id) => NewMessageKeepsRight(l, Publish(id, AtLeastOnce, l.next), l.inflight[id := l.next]);
    case SendAgain(id) => ResendKeepsRight(l, Publish(id, AtLeastOnce, l.inflight[id]));
  }

  /** What the client answers to a publication of this sender. */
  lemma AnswerTo(p: Packet, readable: bool)
    requires p.Publish? && p.qos != ExactlyOnce
    ensures var e := PacketEvent(p, 0, readable);
            && Responses(e) == (if p.qos == AtLeastOnce then [PubAck(p.id)] else [])
            && Ids(Responses(e)) == (if p.qos == AtLeastOnce then [p.id] else [])
            && Callbacks(e) == if readable then [p.message] else []
  {
    ResponsesFollowProtocol(PacketEvent(p, 0, readable));
  }

  lemma ClientKeepsFlows(l: Lane, readable: bool)
    requires Kinds(l) && Flows(l) && l.toClient != []
    ensures Flows(ClientTakes(l, readable))
  {
    var p := l.toClient[0];
    assert p in l.toClient;
    AnswerTo(p, readable);
    PendingHead(l.toClient);
    ReadableSnoc(l.handled, (p.message, readable));
    Assoc(Messages(l.handled), [p.message], Pending(l.toClient[1..]));
  }

  lemma ClientKeepsAwaited(l: Lane, readable: bool)
    requires Kinds(l) && Awaited(l) && l.toClient != []
    ensures Kinds(ClientTakes(l, readable)) && Awaited(ClientTakes(l, readable))
  {
    var p, m := l.toClient[0], ClientTakes(l, readable);
    assert p in l.toClient;
    AnswerTo(p, readable);
    assert l.toClient == [p] + m.toClient;
    forall id | id in m.inflight ensures UnderWay(m, id) {
      assert UnderWay(l, id);
      if q :| q in l.toClient && q.Publish? && q.qos == AtLeastOnce && q.id == id {
        if q == p {
          assert PubAck(id) in m.toBroker;
        } else {
          assert q in m.toClient;
        }
      } else {
        var q :| q in l.toBroker && q.PubAck? && q.id == id;
        assert q in m.toBroker;
      }
    }
  }

  lemma ClientKeepsRight(l: Lane, readable: bool)
    requires Right(l) && l.toClient != []
    ensures Right(ClientTakes(l, readable))
  {
    assert l.toClient[0] in l.toClient;
    AnswerTo(l.toClient[0], readable);
    ClientKeepsFlows(l, readable);
    ClientKeepsAwaited(l, readable);
  }

  lemma BrokerKeepsRight(l: Lane)
    requires Right(l) && l.toBroker != []
    ensures Right(BrokerTakes(l))
  {
    var p, m := l.toBroker[0], BrokerTakes(l);
    assert p in l.toBroker;
    assert l.toBroker == [p] + m.toBroker;
    forall id | id in m.inflight ensures UnderWay(m, id) {
      assert UnderWay(l, id);
      if !exists q :: q in l.toClient && q.Publish? && q.qos == AtLeastOnce && q.id == id {
        var q :| q in l.toBroker && q.PubAck? && q.id == id;
        assert q in m.toBroker;
      }
    }
  }

  lemma {:induction false} ExchangeKeepsRight(l: Lane, ts: seq<Turn>)
    requires Right(l) && Exchange(l, ts)
    ensures Right(Later(l, ts))
    decreases |ts|
  {
    if ts != [] {
      match ts[0] {
        case Handle(readable) => ClientKeepsRight(l, readable);
        case Settle => BrokerKeepsRight(l);
        case _ => SendKeepsRight(l, ts[0]);
      }
      ExchangeKeepsRight(Next(l, ts[0]), ts[1..]);
    }
  }

  // ---------- what follows for every exchange ----------

  /** Every QoS 1 publication the client has handled has drawn exactly one PUBACK, with its
      identifier and in its order, and no other publication has drawn one. */
  lemma EveryAckIsDue(ts: seq<Turn>)
    requires Exchange(Start(), ts)
    ensures Later(Start(), ts).acks == Later(Start(), ts).pubs
  {
    ExchangeKeepsRight(Start(), ts);
  }

  lemma QuietMeansFree(l: Lane)
    requires Right(l) && l.toClient == [] && l.toBroker == []
    ensures l.inflight == map[] && l.sent == Messages(l.handled)
  {
  }

  lemma CallbackCounts(handled: seq<(nat, bool)>, m: nat)
    ensures var tried, called := multiset(Messages(handled))[m], multiset(Readable(handled))[m];
            && called == multiset(handled)[(m, true)] && tried == called + multiset(handled)[(m, false)]
            && ((m, false) !in handled ==> tried == called)
  {
    CountByKind(handled, m);
    assert (m, false) !in handled ==> (m, false) !in multiset(handled);
  }

  /** With nothing under way every identifier is free again, and the callback has been called
      for each message as often as it was transmitted with a payload that could be read: at
      least once if its payload could be, and then exactly once if nothing was resent. */
  lemma NothingUnderWay(ts: seq<Turn>, m: nat)
    requires Exchange(Start(), ts)
    requires Later(Start(), ts).toClient == [] && Later(Start(), ts).toBroker == []
    ensures var l := Later(Start(), ts);
            && l.inflight == map[]
            && multiset(l.delivered)[m] == multiset(l.handled)[(m, true)]
            && multiset(l.sent)[m] == multiset(l.handled)[(m, true)] + multiset(l.handled)[(m, false)]
            && (m < l.next && (m, false) !in l.handled ==> multiset(l.delivered)[m] >= 1)
            && (!l.resent && m < l.next && (m, false) !in l.handled ==> multiset(l.delivered)[m] == 1)
  {
    ExchangeKeepsRight(Start(), ts);
    var l := Later(Start(), ts);
    QuietMeansFree(l);
    CallbackCounts(l.handled, m);
    if m < l.next {
      assert m in l.sent;
      assert multiset(l.sent)[m] >= 1;
      if !l.resent {
        CountInOrder(l.sent, m);
      }
    }
  }

  /** A publication that is sent again before its PUBACK arrives is delivered twice. */
  lemma SentAgainDelivers(id: nat)
    requires 1 <= id <= 65535
    ensures var ts := [SendSafely(id), SendAgain(id), Handle(true), Handle(true)];
            Exchange(Start(), ts) && Later(Start(), ts).delivered == [0, 0] && Later(Start(), ts).acks == [id, id]
  {
    var l1 := Next(Start(), SendSafely(id));
    var l2 := Next(l1, SendAgain(id));
    var l3 := Next(l2, Handle(true));
    var l4 := Next(l3, Handle(true));
    var ts := [SendSafely(id), SendAgain(id), Handle(true), Handle(true)];
    assert ts[1..] == [SendAgain(id), Handle(true), Handle(true)];
    assert ts[1..][1..] == [Handle(true), Handle(true)];
    assert ts[1..][1..][1..] == [Handle(true)] && [Handle(true)][1..] == [];
    assert Exchange(l4, []) && Later(l4, []) == l4;
    assert Exchange(l3, [Handle(true)]) && Later(l3, [Handle(true)]) == l4;
    assert Exchange(l2, ts[1..][1..]) && Later(l2, ts[1..][1..]) == l4;
    assert Exchange(l1, ts[1..]) && Later(l1, ts[1..]) == l4;
  }
}
