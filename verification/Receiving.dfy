/** `mqtt_command_handler`: which publications become commands, and what the command
    record then holds. */
module Receiving {
  import opened CText
  import opened Messages
  import opened MsgQueues
  import opened Dispatch

  const COMMAND_PREFIX: CString := "cmd/hsfib-tib/req/"

  /** A received publication: the text of its topic, its payload bytes, and the two
      properties the firmware looks at. */
  datatype Publication = Publication(
    topic: CString,
    payload: string,
    responseTopic: Option<string>,
    correlation: Bytes)

  /** Where a message in the outbound queue comes from. The firmware does not store
      this; it is kept to tell the messages apart. */
  datatype Origin = Executor | Receiver | Sampler(id: nat)
  datatype Outgoing = Outgoing(om: OutMsg, origin: Origin)

  datatype Verdict = Ignored | Refused | Accepted(cmd: Command)

  function Lower(c: char): char {
    if 'A' <= c <= 'Z' then c - 'A' + 'a' else c
  }

  predicate SameIgnoringCase(a: CString, b: CString) {
    |a| == |b| && forall i :: 0 <= i < |a| ==> Lower(a[i]) == Lower(b[i])
  }

  /** `parse_msg_type_from_payload`. Four characters are compared, so the terminator
      counts and longer words do not match. */
  function MsgTypeOf(dec: Decoder, payload: string): Option<MsgType> {
    match dec.msgType(TextOf(payload))
    case None => None
    case Some(word) =>
      if SameIgnoringCase(word, "get") then Some(GET)
      else if SameIgnoringCase(word, "set") then Some(SET)
      else None
  }

  /** The command as it stands before anything is copied into it. */
  function BlankCommand(): (cmd: Command)
    ensures Shaped(cmd)
  {
    assert Zeros(MAX_KEY_LEN)[0] == NUL && Zeros(MAX_TOPIC_LEN)[0] == NUL && Zeros(MAX_PAYLOAD_LEN)[0] == NUL;
    Command(GET, Zeros(MAX_KEY_LEN), Zeros(MAX_TOPIC_LEN), 0, Zeros(MAX_PAYLOAD_LEN), ZeroBytes(MAX_CORRELATION_DATA), 0)
  }

  /** The reply to a refused publication. */
  function InvalidReply(): OutMsg {
    Reply(BlankCommand(), RESP_ERROR, INVALID_TEXT)
  }

  function BusyReply(cmd: Command): OutMsg
    requires Shaped(cmd)
  {
    Reply(cmd, RESP_ERROR, BUSY_TEXT)
  }

  /** Correlation data is kept when it has between 1 and 15 bytes. */
  function KeptCorrelation(bytes: Bytes): (kept: Bytes)
    ensures |kept| < MAX_CORRELATION_DATA
  {
    if 0 < |bytes| < MAX_CORRELATION_DATA then bytes else []
  }

  /** The fate of a publication. The payload length of an accepted command stays at the
      zero it was initialised with. */
  function Judge(dec: Decoder, pub: Publication): (v: Verdict)
    ensures v.Accepted? ==> Shaped(v.cmd) && v.cmd.payloadLen == 0
    ensures v.Accepted? ==> |pub.payload| < MAX_PAYLOAD_LEN && v.cmd.payload == Padded(pub.payload, MAX_PAYLOAD_LEN)
  {
    if !(COMMAND_PREFIX <= pub.topic) then Ignored
    else
      var suffix := pub.topic[|COMMAND_PREFIX|..];
      if |suffix| == 0 || |suffix| >= MAX_KEY_LEN then Refused
      else if |pub.payload| >= MAX_PAYLOAD_LEN then Ignored
      else
        var payload := Padded(pub.payload, MAX_PAYLOAD_LEN);
        match MsgTypeOf(dec, payload)
        case None => Refused
        case Some(msgType) =>
          match pub.responseTopic
          case None => Refused
          case Some(topic) =>
            if |topic| >= MAX_TOPIC_LEN then Refused
            else
              assert payload[MAX_PAYLOAD_LEN - 1] == NUL;
              assert Padded(suffix, MAX_KEY_LEN)[MAX_KEY_LEN - 1] == NUL;
              assert Padded(topic, MAX_TOPIC_LEN)[MAX_TOPIC_LEN - 1] == NUL;
              Accepted(Command(msgType, Padded(suffix, MAX_KEY_LEN), Padded(topic, MAX_TOPIC_LEN), 0, payload,
                               PaddedBytes(KeptCorrelation(pub.correlation), MAX_CORRELATION_DATA),
                               |KeptCorrelation(pub.correlation)|))
  }

  /** The receiver with one statement more: it stores the payload length. The firmware
      does not have this receiver. */
  function JudgeStoring(dec: Decoder, pub: Publication): (v: Verdict)
    ensures v.Accepted? ==> Shaped(v.cmd) && Argument(v.cmd) == pub.payload
  {
    match Judge(dec, pub)
    case Accepted(cmd) => Accepted(cmd.(payloadLen := |pub.payload|))
    case v => v
  }

  /** A reply is addressed to its publication: to the response topic it brought unless
      that is empty, with its correlation data exactly when that has 1 to 15 bytes. */
  ghost predicate Answers(pub: Publication, om: OutMsg) {
    && pub.responseTopic.Some?
    && TextOf(om.topic) == (if TextOf(pub.responseTopic.value) != [] then TextOf(pub.responseTopic.value) else DEFAULT_TOPIC)
    && om.corrLen == |KeptCorrelation(pub.correlation)| <= |om.correlation|
    && om.correlation[..om.corrLen] == KeptCorrelation(pub.correlation)
  }

  lemma PaddedKeepsText(t: string, n: nat)
    requires |t| < n
    ensures TextOf(Padded(t, n)) == TextOf(t)
  {
    var i := IndexOf(t, NUL);
    var b := Padded(t, n);
    assert b[..i] == t[..i];
    IndexOfIs(b, NUL, i);
  }

  /** What is addressed to an accepted command is addressed to its publication. */
  lemma AddressedAnswers(dec: Decoder, pub: Publication, om: OutMsg)
    requires Judge(dec, pub).Accepted? && Addressed(Judge(dec, pub).cmd, om)
    ensures Answers(pub, om)
  {
    var cmd := Judge(dec, pub).cmd;
    PaddedKeepsText(pub.responseTopic.value, MAX_TOPIC_LEN);
    assert cmd.correlation[..cmd.corrLen] == KeptCorrelation(pub.correlation);
  }

  /** Copying a text that leaves room for the terminator into a zeroed array. */
  method FillText(n: nat, text: string) returns (buf: string)
    requires |text| < n
    ensures buf == Padded(text, n) && Terminated(buf)
  {
    var a := new char[n](_ => NUL);
    MemCpy(a, 0, text);
    a[|text|] := NUL;
    buf := a[..];
  }

  /** The first part of the handler: the record is filled field by field. On every
      refusal the response topic has not been copied yet, so the refusal goes to the
      default topic without correlation data. */
  method BuildCommand(dec: Decoder, pub: Publication) returns (v: Verdict, cmd: Command)
    ensures v == Judge(dec, pub) && Shaped(cmd)
    ensures v.Accepted? ==> cmd == v.cmd
    ensures v.Refused? ==> Reply(cmd, RESP_ERROR, INVALID_TEXT) == InvalidReply()
  {
    cmd := BlankCommand();
    if !(COMMAND_PREFIX <= pub.topic) {
      return Ignored, cmd;
    }
    var suffix := pub.topic[|COMMAND_PREFIX|..];
    if |suffix| == 0 || |suffix| >= MAX_KEY_LEN {
      return Refused, cmd;
    }
    var key := FillText(MAX_KEY_LEN, suffix);
    cmd := cmd.(key := key);
    if |pub.payload| >= MAX_PAYLOAD_LEN {
      return Ignored, cmd;
    }
    var payload := FillText(MAX_PAYLOAD_LEN, pub.payload);
    cmd := cmd.(payload := payload);
    var msgType := MsgTypeOf(dec, cmd.payload);
    if msgType == None {
      return Refused, cmd;
    }
    cmd := cmd.(msgType := msgType.value);
    if !(pub.responseTopic.Some? && |pub.responseTopic.value| < MAX_TOPIC_LEN) {
      return Refused, cmd;
    }
    var topic := FillText(MAX_TOPIC_LEN, pub.responseTopic.value);
    cmd := cmd.(responseTopic := topic);
    if |pub.correlation| > 0 && |pub.correlation| < MAX_CORRELATION_DATA {
      cmd := cmd.(correlation := PaddedBytes(pub.correlation, MAX_CORRELATION_DATA), corrLen := |pub.correlation|);
    }
    v := Accepted(cmd);
  }

  /** A queue after a message was offered to it without waiting. */
  function Offered(items: seq<Outgoing>, depth: nat, om: OutMsg): seq<Outgoing> {
    if |items| < depth then items + [Outgoing(om, Receiver)] else items
  }

  method Refuse(cmd: Command, text: CString, outbound: MsgQueue<Outgoing>)
    requires Shaped(cmd) && outbound.Valid()
    modifies outbound`items
    ensures outbound.Valid()
    ensures outbound.items == Offered(old(outbound.items), outbound.depth, Reply(cmd, RESP_ERROR, text))
  {
    var om := MsgBuilder(cmd, RESP_ERROR, text);
    var _ := outbound.PutNoWait(Outgoing(om, Receiver));
  }

  /** The handler: a command goes into the inbound queue if there is room, and every
      refusal is offered to the outbound queue without waiting. */
  method MqttCommandHandler(dec: Decoder, pub: Publication, inbound: MsgQueue<Command>, outbound: MsgQueue<Outgoing>)
    requires inbound.Valid() && outbound.Valid() && inbound as object != outbound as object
    modifies inbound`items, outbound`items
    ensures inbound.Valid() && outbound.Valid()
    ensures var v := Judge(dec, pub);
            var room := |old(inbound.items)| < inbound.depth;
            && inbound.items == old(inbound.items) + (if v.Accepted? && room then [v.cmd] else [])
            && (v.Ignored? || (v.Accepted? && room) ==> outbound.items == old(outbound.items))
            && (v.Refused? ==> outbound.items == Offered(old(outbound.items), outbound.depth, InvalidReply()))
            && (v.Accepted? && !room ==> outbound.items == Offered(old(outbound.items), outbound.depth, BusyReply(v.cmd)))
  {
    var v, cmd := BuildCommand(dec, pub);
    match v
    case Ignored =>
    case Refused => Refuse(cmd, INVALID_TEXT, outbound);
    case Accepted(_) =>
      var rc := inbound.PutNoWait(cmd);
      if rc != 0 {
        Refuse(cmd, BUSY_TEXT, outbound);
      }
  }
}
