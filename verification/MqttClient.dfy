/** The library's MQTT client wrapper: connection flag, subscriptions, and the handler
    for the events of the Zephyr client. */
module MqttClient {
  import opened Sequences

  datatype QoS = AtMostOnce | AtLeastOnce | ExactlyOnce

  /** Control packets, in either direction, with the number of the message they carry. */
  datatype Packet =
    | Publish(id: nat, qos: QoS, message: nat)
    | PubAck(id: nat)
    | PubRec(id: nat)
    | PubRel(id: nat)
    | PubComp(id: nat)

  /** An event, its result code, and for a publication whether its payload can be read. */
  datatype Event =
    | ConnAckEvent(result: int)
    | DisconnectEvent
    | PacketEvent(packet: Packet, result: int, readable: bool)
    | SubAckEvent(result: int)
    | PingRespEvent

  /** What the handler sends in response to an event. A publication is acknowledged
      before its payload is read. */
  function Responses(e: Event): seq<Packet> {
    match e
    case PacketEvent(Publish(id, AtLeastOnce, _), _, _) => [PubAck(id)]
    case PacketEvent(Publish(id, ExactlyOnce, _), _, _) => [PubRec(id)]
    case PacketEvent(PubRec(id), result, _) => if result == 0 then [PubRel(id)] else []
    case PacketEvent(PubRel(id), result, _) => if result == 0 then [PubComp(id)] else []
    case _ => []
  }

  /** Sections 4.3.2 and 4.3.3 of MQTT Version 5.0, event by event: a publication is
      acknowledged with its identifier by PUBACK or PUBREC as its quality of service asks,
      and not at all when that is zero; PUBREC is followed by PUBREL and PUBREL by PUBCOMP
      unless the event reports an error; nothing else is answered. */
  lemma ResponsesFollowProtocol(e: Event)
    ensures |Responses(e)| <= 1
    ensures forall p :: p in Responses(e) ==> e.PacketEvent? && p.id == e.packet.id
    ensures (exists p :: p in Responses(e) && p.PubAck?) <==>
            e.PacketEvent? && e.packet.Publish? && e.packet.qos == AtLeastOnce
    ensures (exists p :: p in Responses(e) && p.PubRec?) <==>
            e.PacketEvent? && e.packet.Publish? && e.packet.qos == ExactlyOnce
    ensures (exists p :: p in Responses(e) && p.PubRel?) <==> e.PacketEvent? && e.packet.PubRec? && e.result == 0
    ensures (exists p :: p in Responses(e) && p.PubComp?) <==> e.PacketEvent? && e.packet.PubRel? && e.result == 0
    ensures forall p :: p in Responses(e) ==> !p.Publish?
  {
    if Responses(e) != [] {
      assert Responses(e)[0] in Responses(e);
    }
  }

  /** The messages handed to the user's callback for an event. */
  function Callbacks(e: Event): seq<nat> {
    match e
    case PacketEvent(Publish(_, _, message), _, readable) => if readable then [message] else []
    case _ => []
  }

  /** One round of the connect loop: the connection attempt fails, nothing arrives in
      time, or an event arrives. */
  datatype Attempt = Failed | Silent | Arrived(event: Event)

  /** The round brings the connection up. */
  predicate Succeeds(a: Attempt) {
    a == Arrived(ConnAckEvent(0))
  }

  /** How many rounds got as far as polling the socket. */
  function Polled(rounds: seq<Attempt>): nat {
    if rounds == [] then 0 else Polled(rounds[..|rounds| - 1]) + if rounds[|rounds| - 1] == Failed then 0 else 1
  }

  /** The packets sent, and the messages handed to the callback, in some rounds. */
  function Sent(rounds: seq<Attempt>): seq<Packet> {
    if rounds == [] then []
    else
      var last := rounds[|rounds| - 1];
      Sent(rounds[..|rounds| - 1]) + if last.Arrived? then Responses(last.event) else []
  }

  function Called(rounds: seq<Attempt>): seq<nat> {
    if rounds == [] then []
    else
      var last := rounds[|rounds| - 1];
      Called(rounds[..|rounds| - 1]) + if last.Arrived? then Callbacks(last.event) else []
  }

  /** The number of polled sockets after a round that got as far as polling: one, and zero
      once there has been a disconnect event. notifies says whether the library raises that
      event when a connection attempt is aborted. */
  function SocketsAfter(round: Attempt, notifies: bool): nat {
    if (notifies && !Succeeds(round)) || (round.Arrived? && round.event.DisconnectEvent?) then 0 else 1
  }

  function Watched(nfds: nat, notifies: bool, rounds: seq<Attempt>): nat {
    if rounds == [] then nfds
    else
      var last := rounds[|rounds| - 1];
      if last == Failed then Watched(nfds, notifies, rounds[..|rounds| - 1]) else SocketsAfter(last, notifies)
  }

  /** What the rounds of the connect loop change. */
  datatype Link = Link(connected: bool, nfds: nat, outgoing: seq<Packet>, delivered: seq<nat>, aborts: nat)

  /** One round, taken while not connected. One that got as far as polling and did not bring
      the connection up is aborted. */
  function AfterRound(l: Link, round: Attempt, notifies: bool): Link {
    if round == Failed then l
    else
      Link(Succeeds(round), SocketsAfter(round, notifies),
           l.outgoing + (if round.Arrived? then Responses(round.event) else []),
           l.delivered + (if round.Arrived? then Callbacks(round.event) else []),
           l.aborts + if Succeeds(round) then 0 else 1)
  }

  function AfterRounds(l: Link, rounds: seq<Attempt>, notifies: bool): Link {
    if rounds == [] then l
    else AfterRound(AfterRounds(l, rounds[..|rounds| - 1], notifies), rounds[|rounds| - 1], notifies)
  }

  lemma OneMoreRound(l: Link, rounds: seq<Attempt>, n: nat, notifies: bool)
    requires n < |rounds|
    ensures AfterRounds(l, rounds[..n + 1], notifies) == AfterRound(AfterRounds(l, rounds[..n], notifies), rounds[n], notifies)
  {
    assert rounds[..n + 1][..n] == rounds[..n];
  }

  /** Rounds of which none but the last brings the connection up: what they send and call,
      and that every polled round before the last is aborted. */
  lemma {:induction false} RoundsMean(l: Link, rounds: seq<Attempt>, notifies: bool)
    requires forall i :: 0 <= i < |rounds| - 1 ==> !Succeeds(rounds[i])
    ensures var r, up := AfterRounds(l, rounds, notifies), rounds != [] && Succeeds(rounds[|rounds| - 1]);
            && r.outgoing == l.outgoing + Sent(rounds) && r.delivered == l.delivered + Called(rounds)
            && r.nfds == Watched(l.nfds, notifies, rounds)
            && r.aborts == l.aborts + Polled(if up then rounds[..|rounds| - 1] else rounds)
  {
    if rounds != [] {
      var last := |rounds| - 1;
      RoundsMean(l, rounds[..last], notifies);
      var responses := if rounds[last].Arrived? then Responses(rounds[last].event) else [];
      var callbacks := if rounds[last].Arrived? then Callbacks(rounds[last].event) else [];
      Assoc(l.outgoing, Sent(rounds[..last]), responses);
      Assoc(l.delivered, Called(rounds[..last]), callbacks);
    }
  }

  const MAX_SUBSCRIPTIONS: nat := 4

  class Client {
    var connected: bool
    var nfds: nat
    var subscriptions: seq<(string, QoS)>
    var outgoing: seq<Packet>
    var delivered: seq<nat>
    var aborts: nat

    constructor ()
      ensures !connected && nfds == 0 && subscriptions == [] && outgoing == [] && delivered == [] && aborts == 0
    {
      connected, nfds, subscriptions, outgoing, delivered, aborts := false, 0, [], [], [], 0;
    }

    method AddSubscription(topic: string, qos: QoS) returns (rc: int)
      requires |subscriptions| <= MAX_SUBSCRIPTIONS
      modifies this`subscriptions
      ensures |subscriptions| <= MAX_SUBSCRIPTIONS
      ensures rc == 0 <==> |old(subscriptions)| < 4
      ensures subscriptions == old(subscriptions) + if rc == 0 then [(topic, qos)] else []
    {
      if |subscriptions| >= MAX_SUBSCRIPTIONS {
        return -12;
      }
      subscriptions := subscriptions + [(topic, qos)];
      return 0;
    }

    /** `mqtt_event_handler`. */
    method HandleEvent(e: Event)
      modifies this`connected, this`nfds, this`outgoing, this`delivered
      ensures connected <==> e == ConnAckEvent(0) || (old(connected) && e != DisconnectEvent)
      ensures nfds == if e.DisconnectEvent? then 0 else old(nfds)
      ensures outgoing == old(outgoing) + Responses(e)
      ensures delivered == old(delivered) + Callbacks(e)
    {
      match e
      case ConnAckEvent(result) =>
        if result == 0 {
          connected := true;
        }
      case DisconnectEvent =>
        connected, nfds := false, 0;
      case PacketEvent(packet, result, readable) =>
        match packet {
          case Publish(id, qos, message) =>
            if qos == AtLeastOnce {
              outgoing := outgoing + [PubAck(id)];
            } else if qos == ExactlyOnce {
              outgoing := outgoing + [PubRec(id)];
            }
            if readable {
              delivered := delivered + [message];
            }
          case PubRec(id) =>
            if result == 0 {
              outgoing := outgoing + [PubRel(id)];
            }
          case PubRel(id) =>
            if result == 0 {
              outgoing := outgoing + [PubComp(id)];
            }
          case _ =>
        }
      case _ =>
    }

    function State(): Link
      reads this
    {
      Link(connected, nfds, outgoing, delivered, aborts)
    }

    method Round(round: Attempt, notifies: bool)
      requires !connected
      modifies this`connected, this`nfds, this`outgoing, this`delivered, this`aborts
      ensures State() == AfterRound(old(State()), round, notifies)
    {
      if round != Failed {
        nfds := 1;
        if round.Arrived? {
          HandleEvent(round.event);
        }
        if !connected {
          aborts := aborts + 1;
          if notifies {
            HandleEvent(DisconnectEvent);
          }
        }
      }
    }

    /** The connect loop over the rounds that the network has in store: it takes them up
        to and including the first that brings the connection up, aborts every round that
        got as far as polling and did not, and does not return before it is connected. */
    method Connect(rounds: seq<Attempt>, notifies: bool) returns (used: nat)
      modifies this`connected, this`nfds, this`outgoing, this`delivered, this`aborts
      ensures used <= |rounds|
      ensures connected <==> exists i :: 0 <= i < |rounds| && rounds[i] == Arrived(ConnAckEvent(0))
      ensures connected ==> used > 0 && Succeeds(rounds[used - 1]) && forall i :: 0 <= i < used - 1 ==> !Succeeds(rounds[i])
      ensures !connected ==> used == |rounds|
      ensures aborts == old(aborts) + Polled(rounds[..if connected then used - 1 else used])
      ensures outgoing == old(outgoing) + Sent(rounds[..used]) && delivered == old(delivered) + Called(rounds[..used])
      ensures nfds == Watched(old(nfds), notifies, rounds[..used])
    {
      connected := false;
      used := 0;
      ghost var start := State();
      while !connected && used < |rounds|
        invariant used <= |rounds| && State() == AfterRounds(start, rounds[..used], notifies)
        invariant forall i :: 0 <= i < used - 1 ==> !Succeeds(rounds[i])
        invariant connected <==> used > 0 && Succeeds(rounds[used - 1])
        decreases |rounds| - used
      {
        OneMoreRound(start, rounds, used, notifies);
        Round(rounds[used], notifies);
        used := used + 1;
      }
      RoundsMean(start, rounds[..used], notifies);
      assert used > 0 ==> rounds[..used][..used - 1] == rounds[..used - 1];
    }
  }
}
