/** The two records that travel through the queues, and `_msg_builder`, which turns a
    command and a text into a reply. Both records are copied by value in the source;
    their character arrays are modelled whole, with their lengths and padding. */
module Messages {
  import opened CText

  const MAX_TOPIC_LEN: nat := 64
  const MAX_KEY_LEN: nat := 48
  const MAX_PAYLOAD_LEN: nat := 256
  const MAX_CORRELATION_DATA: nat := 16
  const DEFAULT_TOPIC: CString := "cmd/hsfib-tib/resp"
  const QOS_AT_LEAST_ONCE: nat := 1

  type Bytes = seq<bv8>

  datatype MsgType = GET | SET | ACK | RESP_OK | RESP_ERROR

  datatype Command = Command(
    msgType: MsgType,
    key: string,
    responseTopic: string,
    payloadLen: nat,
    payload: string,
    correlation: Bytes,
    corrLen: nat)

  datatype OutMsg = OutMsg(
    msgType: MsgType,
    topic: string,
    qos: nat,
    payloadLen: nat,
    payload: string,
    correlation: Bytes,
    corrLen: nat)

  /** The arrays of a command have their declared sizes and hold C strings. */
  predicate Shaped(cmd: Command) {
    && |cmd.key| == MAX_KEY_LEN && Terminated(cmd.key)
    && |cmd.responseTopic| == MAX_TOPIC_LEN && Terminated(cmd.responseTopic)
    && |cmd.payload| == MAX_PAYLOAD_LEN && Terminated(cmd.payload) && cmd.payloadLen <= MAX_PAYLOAD_LEN
    && |cmd.correlation| == MAX_CORRELATION_DATA
  }

  function ZeroBytes(n: nat): (z: Bytes)
    ensures |z| == n && forall i :: 0 <= i < n ==> z[i] == 0
  {
    seq(n, _ => 0)
  }

  function PaddedBytes(b: Bytes, n: nat): (r: Bytes)
    requires |b| <= n
    ensures |r| == n && r[..|b|] == b
  {
    b + ZeroBytes(n - |b|)
  }

  /** Where the reply to a command goes. */
  function ReplyTopic(cmd: Command): (topic: CString)
    requires |cmd.responseTopic| == MAX_TOPIC_LEN
    ensures |topic| <= MAX_TOPIC_LEN
  {
    var own := TextOf(cmd.responseTopic);
    if 0 < |own| < MAX_TOPIC_LEN then own else DEFAULT_TOPIC
  }

  /** The correlation bytes that are echoed. */
  function Echo(cmd: Command): (bytes: Bytes)
    requires |cmd.correlation| == MAX_CORRELATION_DATA
    ensures |bytes| < MAX_CORRELATION_DATA
  {
    if 0 < cmd.corrLen < MAX_CORRELATION_DATA then cmd.correlation[..cmd.corrLen] else []
  }

  /** The reply `_msg_builder` builds. */
  function Reply(cmd: Command, msgType: MsgType, text: CString): (om: OutMsg)
    requires Shaped(cmd)
  {
    OutMsg(msgType, Padded(ReplyTopic(cmd), MAX_TOPIC_LEN), QOS_AT_LEAST_ONCE,
           |text|, Padded(Clip(text, MAX_PAYLOAD_LEN - 1), MAX_PAYLOAD_LEN),
           PaddedBytes(Echo(cmd), MAX_CORRELATION_DATA), |Echo(cmd)|)
  }

  /** The topic array of a reply: the default is copied first, and a topic the command
      brought is copied over it. */
  method FillTopic(cmd: Command) returns (buf: string)
    requires Shaped(cmd)
    ensures buf == Padded(ReplyTopic(cmd), MAX_TOPIC_LEN)
  {
    var topic := new char[MAX_TOPIC_LEN](_ => NUL);
    assert topic[..] == Zeros(MAX_TOPIC_LEN);
    StrNCpyPads(topic[..], DEFAULT_TOPIC);
    StrNCpy(topic, DEFAULT_TOPIC, MAX_TOPIC_LEN - 1);
    var own := TextOf(cmd.responseTopic);
    if |own| > 0 && |own| < MAX_TOPIC_LEN {
      StrNCpyPads(topic[..], own);
      StrNCpy(topic, own, MAX_TOPIC_LEN - 1);
    }
    buf := topic[..];
  }

  /** The correlation array of a reply and its length. */
  method FillCorrelation(cmd: Command) returns (buf: Bytes, len: nat)
    requires Shaped(cmd)
    ensures buf == PaddedBytes(Echo(cmd), MAX_CORRELATION_DATA) && len == |Echo(cmd)|
  {
    var correlation := new bv8[MAX_CORRELATION_DATA](_ => 0);
    assert correlation[..] == ZeroBytes(MAX_CORRELATION_DATA);
    len := 0;
    if cmd.corrLen > 0 && cmd.corrLen < MAX_CORRELATION_DATA {
      MemCpy(correlation, 0, cmd.correlation[..cmd.corrLen]);
      len := cmd.corrLen;
    }
    buf := correlation[..];
  }

  /** The payload array of a reply: cut to leave room for the terminator. */
  method FillPayload(msg: CString) returns (buf: string)
    ensures buf == Padded(Clip(msg, MAX_PAYLOAD_LEN - 1), MAX_PAYLOAD_LEN)
  {
    var payload := new char[MAX_PAYLOAD_LEN](_ => NUL);
    assert payload[..] == Zeros(MAX_PAYLOAD_LEN);
    StrNCpy(payload, msg, MAX_PAYLOAD_LEN - 1);
    buf := payload[..];
  }

  method MsgBuilder(cmd: Command, msgType: MsgType, msg: CString) returns (om: OutMsg)
    requires Shaped(cmd)
    ensures om == Reply(cmd, msgType, msg)
  {
    var topic := FillTopic(cmd);
    var correlation, corrLen := FillCorrelation(cmd);
    var payload := FillPayload(msg);
    om := OutMsg(msgType, topic, QOS_AT_LEAST_ONCE, |msg|, payload, correlation, corrLen);
  }

  /** A message whose length field tells the truth about a NUL-terminated payload. */
  ghost predicate Publishable(om: OutMsg) {
    && |om.topic| == MAX_TOPIC_LEN && Terminated(om.topic) && TextOf(om.topic) != []
    && |om.payload| == MAX_PAYLOAD_LEN && Terminated(om.payload)
    && om.payloadLen == |TextOf(om.payload)| <= MAX_PAYLOAD_LEN - 1
    && |om.correlation| == MAX_CORRELATION_DATA && om.corrLen < MAX_CORRELATION_DATA
  }

  /** The reply goes where the command asked, and echoes its correlation data exactly
      when that has between 1 and 15 bytes. */
  ghost predicate Addressed(cmd: Command, om: OutMsg)
    requires Shaped(cmd)
  {
    && |om.topic| == MAX_TOPIC_LEN
    && TextOf(om.topic) == (if TextOf(cmd.responseTopic) != [] then TextOf(cmd.responseTopic) else DEFAULT_TOPIC)
    && |om.correlation| == MAX_CORRELATION_DATA
    && (0 < cmd.corrLen < MAX_CORRELATION_DATA ==>
          om.corrLen == cmd.corrLen && om.correlation[..om.corrLen] == cmd.correlation[..cmd.corrLen])
    && (!(0 < cmd.corrLen < MAX_CORRELATION_DATA) ==> om.corrLen == 0)
    && (forall i :: om.corrLen <= i < MAX_CORRELATION_DATA ==> om.correlation[i] == 0)
  }

  lemma TextFits(buf: string)
    requires Terminated(buf)
    ensures |TextOf(buf)| < |buf|
  {
  }

  /** Every reply is addressed to its command; it is publishable exactly when its text
      fits the payload array, because the length field is not cut with the text. */
  lemma ReplyAddressing(cmd: Command, msgType: MsgType, text: CString)
    requires Shaped(cmd)
    ensures Addressed(cmd, Reply(cmd, msgType, text))
    ensures Publishable(Reply(cmd, msgType, text)) <==> |text| < MAX_PAYLOAD_LEN
    ensures |text| < MAX_PAYLOAD_LEN ==> TextOf(Reply(cmd, msgType, text).payload) == text
    ensures |text| >= MAX_PAYLOAD_LEN ==> TextOf(Reply(cmd, msgType, text).payload) == text[..255]
    ensures Reply(cmd, msgType, text).msgType == msgType && Reply(cmd, msgType, text).qos == 1
    ensures Reply(cmd, msgType, text).payloadLen == |text|
  {
    var om := Reply(cmd, msgType, text);
    TextFits(cmd.responseTopic);
    PaddedText(ReplyTopic(cmd), MAX_TOPIC_LEN);
    PaddedText(Clip(text, MAX_PAYLOAD_LEN - 1), MAX_PAYLOAD_LEN);
    if |text| < MAX_PAYLOAD_LEN {
      assert Clip(text, MAX_PAYLOAD_LEN - 1) == text;
    }
  }
}
