/** What one command does: the answer of each handler as a function of the command and
    the device, and `dispatch_command` on top of them. */
module Dispatch {
  import opened CText
  import opened Routing
  import opened Pins
  import opened Messages
  import opened KeyPairs
  import RouteReport

  /** The fixed part of an instrument. */
  datatype Config = Config(names: seq<CString>, pairs: seq<PinPair>, routes: seq<Route>)

  /** The part the handlers change. */
  datatype Device = Device(states: seq<char>, power: bool)

  /** The JSON library, as far as it is used: for each kind of request the decoded
      fields of a text, or None when decoding fails. */
  datatype Decoder = Decoder(
    msgType: string -> Option<CString>,
    route: string -> Option<(CString, CString)>,
    position: string -> Option<CString>,
    flag: string -> Option<bool>)

  datatype Answer = Answer(device: Device, msgType: MsgType, text: CString)

  /** The text a set handler hands to the JSON library. */
  function Argument(cmd: Command): string
    requires cmd.payloadLen <= |cmd.payload|
  {
    cmd.payload[..cmd.payloadLen]
  }

  /** The text in an array of n characters after formatting into it. */
  function Formatted(text: string, n: nat): (t: CString)
    requires n > 0
    ensures |t| < n
  {
    TextOf(text[..Min(|text|, n - 1)])
  }

  const OK_TEXT: CString := "{\"status\":\"OK\"}"
  const INVALID_TEXT: CString := "{\"error\":" + "\"Invalid or unrecognized command\"}"
  const UNKNOWN_TEXT: CString := "{\"error\":\"Unknown request\"}"
  const UNSUPPORTED_TEXT: CString := "{\"error\":\"Unsupported operation\"}"
  const BUSY_TEXT: CString := "{\"error\":\"busy\"}"
  const OVERFLOW_TEXT: CString := "{\"error\":\"overflow building JSON\"}"
  const BAD_ROUTE_JSON: CString := "{\"error\":" + "\"Failed to parse JSON input or output\"}"
  const INVALID_ROUTE: CString := "{\"error\":\"Invalid Route\"}"
  const ROUTE_ERROR: CString := "{\"error\":\"Internal route error\"}"
  const BAD_MEMS_KEY: CString := "{\"error\":" + "\"Failed to parse mems switch name\"}"
  const BAD_STATE_JSON: CString := "{\"error\":\"Failed to parse switch state\"}"
  const INVALID_SWITCH: CString := "{\"error\":\"Invalid switch name\"}"
  const INVALID_STATE: CString := "{\"error\":\"Invalid switch state\"}"
  const BAD_LASER_KEY: CString := "{\"error\":\"Failed to parse laser/setting\"}"
  const BAD_ATTEN_KEY: CString := "{\"error\":\"Failed to parse atten/setting\"}"
  const MISSING_VALUE: CString := "{\"error\":\"Missing setting value\"}"

  function SwitchFailed(step: RouteStep): CString {
    Formatted("{\"error\":\"Setting switch " + step.switchName + " to " + [step.state] + " failed\"}", MAX_PAYLOAD_LEN)
  }

  function PowerText(power: bool): (text: CString)
    ensures |text| < MAX_PAYLOAD_LEN
  {
    if power then "{\"power\":true}" else "{\"power\":false}"
  }

  // ---------- handlers ----------

  function ListedKeys(cfg: Config, dev: Device): seq<RouteKey>
    requires |cfg.names| == |dev.states|
  {
    FirstKeys(LiveKeys(cfg.names, dev.states, cfg.routes), MAX_ROUTES)
  }

  function MemsrouteGet(cfg: Config, dev: Device): (a: Answer)
    requires |cfg.names| == |dev.states|
    ensures |a.text| < MAX_PAYLOAD_LEN && |a.device.states| == |dev.states|
  {
    var text := RouteReport.Render(ListedKeys(cfg, dev));
    if |text| < MAX_PAYLOAD_LEN then Answer(dev, RESP_OK, text) else Answer(dev, RESP_ERROR, OVERFLOW_TEXT)
  }

  /** The text for a step that cannot be applied. */
  function StepRefusal(cfg: Config, step: RouteStep): (text: CString)
    ensures |text| < MAX_PAYLOAD_LEN
  {
    if FindSwitch(cfg.names, step.switchName) == |cfg.names| then ROUTE_ERROR else SwitchFailed(step)
  }

  /** The device after a step that can be applied. */
  function StepDone(cfg: Config, dev: Device, step: RouteStep): Device
    requires |cfg.names| == |dev.states| && StepOk(cfg.names, step)
  {
    dev.(states := dev.states[FindSwitch(cfg.names, step.switchName) := step.state])
  }

  /** Applying the steps of a route, up to the first that cannot be applied. */
  function SetRoute(cfg: Config, dev: Device, steps: seq<RouteStep>): (a: Answer)
    requires |cfg.names| == |dev.states|
    ensures |a.text| < MAX_PAYLOAD_LEN && |a.device.states| == |dev.states|
  {
    var n := GoodSteps(cfg.names, steps);
    var after := dev.(states := Applied(cfg.names, dev.states, steps[..n]));
    if n == |steps| then Answer(after, RESP_OK, OK_TEXT)
    else Answer(after, RESP_ERROR, StepRefusal(cfg, steps[n]))
  }

  /** The steps a `memsroute` set request asks for, or the refusal. */
  function RequestedSteps(cfg: Config, dec: Decoder, cmd: Command): (r: (seq<RouteStep>, CString))
    requires cmd.payloadLen <= |cmd.payload|
    ensures |r.1| < MAX_PAYLOAD_LEN
  {
    match dec.route(Argument(cmd))
    case None => ([], BAD_ROUTE_JSON)
    case Some((input, output)) =>
      var k := FindRoute(cfg.routes, input, output);
      if k == |cfg.routes| then ([], INVALID_ROUTE) else (cfg.routes[k].steps, "")
  }

  function MemsrouteSet(cfg: Config, dec: Decoder, dev: Device, cmd: Command): (a: Answer)
    requires |cfg.names| == |dev.states| && cmd.payloadLen <= |cmd.payload|
    ensures |a.text| < MAX_PAYLOAD_LEN && |a.device.states| == |dev.states|
  {
    var (steps, refusal) := RequestedSteps(cfg, dec, cmd);
    if refusal != "" then Answer(dev, RESP_ERROR, refusal) else SetRoute(cfg, dev, steps)
  }

  function MemsGet(cfg: Config, dev: Device, key: CString): (a: Answer)
    requires |cfg.names| == |dev.states|
    ensures |a.text| < MAX_PAYLOAD_LEN && |a.device.states| == |dev.states|
  {
    match ParseKeyPair(key, 15, 15)
    case Pair(_, name) =>
      var k := FindSwitch(cfg.names, name);
      if k == |cfg.names| then Answer(dev, RESP_ERROR, INVALID_SWITCH)
      else Answer(dev, RESP_OK, Formatted("{\"value\":\"" + [dev.states[k]] + "\"}", MAX_PAYLOAD_LEN))
    case _ => Answer(dev, RESP_ERROR, BAD_MEMS_KEY)
  }

  function MemsSet(cfg: Config, dec: Decoder, dev: Device, cmd: Command): (a: Answer)
    requires |cfg.names| == |dev.states| && cmd.payloadLen <= |cmd.payload|
    ensures |a.text| < MAX_PAYLOAD_LEN && |a.device.states| == |dev.states|
  {
    match ParseKeyPair(TextOf(cmd.key), 15, 15)
    case Pair(_, name) =>
      (match dec.position(Argument(cmd))
       case None => Answer(dev, RESP_ERROR, BAD_STATE_JSON)
       case Some(value) =>
         var k := FindSwitch(cfg.names, name);
         var state := if value == "" then NUL else value[0];
         if k == |cfg.names| then Answer(dev, RESP_ERROR, INVALID_SWITCH)
         else if !Settable(state) then Answer(dev, RESP_ERROR, INVALID_STATE)
         else Answer(dev.(states := dev.states[k := state]), RESP_OK, OK_TEXT))
    case _ => Answer(dev, RESP_ERROR, BAD_MEMS_KEY)
  }

  /** Setting the power answers with the error type and an OK text, as coded. */
  function PowerSet(dec: Decoder, dev: Device, cmd: Command): (a: Answer)
    requires cmd.payloadLen <= |cmd.payload|
    ensures |a.text| < MAX_PAYLOAD_LEN && |a.device.states| == |dev.states|
  {
    match dec.flag(Argument(cmd))
    case None => Answer(dev, RESP_ERROR, MISSING_VALUE)
    case Some(on) => Answer(dev.(power := on), RESP_ERROR, OK_TEXT)
  }

  function SleepSet(dec: Decoder, dev: Device, cmd: Command): (a: Answer)
    requires cmd.payloadLen <= |cmd.payload|
    ensures |a.text| < MAX_PAYLOAD_LEN && |a.device.states| == |dev.states|
  {
    match dec.flag(Argument(cmd))
    case None => Answer(dev, RESP_ERROR, MISSING_VALUE)
    case Some(on) => Answer(if on then dev.(power := false) else dev, RESP_ERROR, OK_TEXT)
  }

  /** The keys of the dispatch table, in its order. */
  const TABLE: seq<CString> := ["memsroute", "mems", "laser", "power", "atten", "status", "sleep"]

  function FindFrom(key: CString, from: nat): (i: nat)
    requires from <= |TABLE|
    ensures from <= i <= |TABLE| && (i < |TABLE| ==> TABLE[i] == key)
    ensures forall j :: from <= j < i ==> TABLE[j] != key
    decreases |TABLE| - from
  {
    if from == |TABLE| || TABLE[from] == key then from else FindFrom(key, from + 1)
  }

  /** `find_dispatch`: the first entry whose key is the whole key, |TABLE| for none. */
  function FindDispatch(key: CString): (i: nat)
    ensures i <= |TABLE| && (i < |TABLE| ==> TABLE[i] == key)
    ensures forall j :: 0 <= j < i ==> TABLE[j] != key
  {
    FindFrom(key, 0)
  }

  /** `dispatch_command`: the whole key is looked up in the table, then the handler for
      the message type is taken; two entries lack one. The laser and attenuator handlers
      are reached with the bare table key only, and a bare key is refused by their first
      statement. */
  function Handle(cfg: Config, dec: Decoder, dev: Device, cmd: Command): (a: Answer)
    requires |cfg.names| == |dev.states| && cmd.payloadLen <= |cmd.payload|
    ensures |a.text| < MAX_PAYLOAD_LEN && |a.device.states| == |dev.states|
  {
    match (FindDispatch(TextOf(cmd.key)), cmd.msgType == SET)
    case (0, false) => MemsrouteGet(cfg, dev)
    case (0, true) => MemsrouteSet(cfg, dec, dev, cmd)
    case (1, false) => MemsGet(cfg, dev, TextOf(cmd.key))
    case (1, true) => MemsSet(cfg, dec, dev, cmd)
    case (2, _) => Answer(dev, RESP_ERROR, BAD_LASER_KEY)
    case (3, false) => Answer(dev, RESP_OK, PowerText(dev.power))
    case (3, true) => PowerSet(dec, dev, cmd)
    case (4, false) => Answer(dev, RESP_ERROR, BAD_ATTEN_KEY)
    case (4, true) => Answer(dev, RESP_ERROR, BAD_LASER_KEY)
    case (5, false) => Answer(dev, RESP_OK, PowerText(dev.power))
    case (5, true) => Answer(dev, RESP_ERROR, UNSUPPORTED_TEXT)
    case (6, false) => Answer(dev, RESP_ERROR, UNSUPPORTED_TEXT)
    case (6, true) => SleepSet(dec, dev, cmd)
    case _ => Answer(dev, RESP_ERROR, UNKNOWN_TEXT)
  }

  /** The reply that goes into the outbound queue. */
  function Answered(cfg: Config, dec: Decoder, dev: Device, cmd: Command): OutMsg
    requires |cfg.names| == |dev.states| && Shaped(cmd)
  {
    var a := Handle(cfg, dec, dev, cmd);
    Reply(cmd, a.msgType, a.text)
  }

  // ---------- the pin writes ----------

  /** The pin writes of applying steps: a pulse for each, up to the first that cannot be
      applied. */
  function StepPulses(cfg: Config, steps: seq<RouteStep>): Trace
    requires |cfg.names| == |cfg.pairs|
  {
    if steps == [] || !StepOk(cfg.names, steps[0]) then []
    else Pulse(PinFor(cfg.pairs[FindSwitch(cfg.names, steps[0].switchName)], steps[0].state)) + StepPulses(cfg, steps[1..])
  }

  lemma OneStepPulse(cfg: Config, step: RouteStep)
    requires |cfg.names| == |cfg.pairs|
    ensures StepPulses(cfg, [step]) ==
            if StepOk(cfg.names, step) then Pulse(PinFor(cfg.pairs[FindSwitch(cfg.names, step.switchName)], step.state)) else []
  {
    assert StepPulses(cfg, [step][1..]) == [];
  }

  lemma SlideLeft(a: Trace, b: Trace, i: nat)
    requires |a| == 3 && 0 < i && 3 * i + 3 <= |a + b|
    ensures (a + b)[3 * i..3 * i + 3] == b[3 * (i - 1)..3 * (i - 1) + 3]
  {
  }

  lemma {:induction false} PulseCount(cfg: Config, steps: seq<RouteStep>)
    requires |cfg.names| == |cfg.pairs|
    ensures |StepPulses(cfg, steps)| == 3 * GoodSteps(cfg.names, steps)
  {
    if steps != [] && StepOk(cfg.names, steps[0]) {
      PulseCount(cfg, steps[1..]);
    }
  }

  /** One pulse for each step that is applied, and for no other, in their order. */
  lemma {:induction false} PulsesOfGoodSteps(cfg: Config, steps: seq<RouteStep>, i: nat)
    requires |cfg.names| == |cfg.pairs|
    ensures |StepPulses(cfg, steps)| == 3 * GoodSteps(cfg.names, steps)
    ensures i < GoodSteps(cfg.names, steps) ==>
              StepPulses(cfg, steps)[3 * i..3 * i + 3] ==
              Pulse(PinFor(cfg.pairs[FindSwitch(cfg.names, steps[i].switchName)], steps[i].state))
  {
    PulseCount(cfg, steps);
    if 0 < i < GoodSteps(cfg.names, steps) {
      PulsesOfGoodSteps(cfg, steps[1..], i - 1);
      SlideLeft(Pulse(PinFor(cfg.pairs[FindSwitch(cfg.names, steps[0].switchName)], steps[0].state)),
                StepPulses(cfg, steps[1..]), i);
    }
  }

  /** The pin writes of a set request for a route. */
  function RouteWrites(cfg: Config, dec: Decoder, cmd: Command): Trace
    requires |cfg.names| == |cfg.pairs| && cmd.payloadLen <= |cmd.payload|
  {
    StepPulses(cfg, RequestedSteps(cfg, dec, cmd).0)
  }

  /** The pin writes of a set request for a single switch. */
  function SwitchWrites(cfg: Config, dec: Decoder, cmd: Command): Trace
    requires |cfg.names| == |cfg.pairs| && cmd.payloadLen <= |cmd.payload|
  {
    match (ParseKeyPair(TextOf(cmd.key), 15, 15), dec.position(Argument(cmd)))
    case (Pair(_, name), Some(value)) =>
      StepPulses(cfg, [RouteStep(name, if value == "" then NUL else value[0])])
    case _ => []
  }

  /** The pin writes of a command. Nothing but set requests for routes gets as far as the
      pins. */
  function Writes(cfg: Config, dec: Decoder, cmd: Command): Trace
    requires |cfg.names| == |cfg.pairs| && cmd.payloadLen <= |cmd.payload|
  {
    if FindDispatch(TextOf(cmd.key)) == 0 && cmd.msgType == SET then RouteWrites(cfg, dec, cmd) else []
  }

  // ---------- setting step by step ----------

  lemma SetRouteStops(cfg: Config, dev: Device, steps: seq<RouteStep>)
    requires |cfg.names| == |dev.states|
    ensures steps == [] ==> SetRoute(cfg, dev, steps) == Answer(dev, RESP_OK, OK_TEXT)
    ensures steps != [] && !StepOk(cfg.names, steps[0]) ==>
              SetRoute(cfg, dev, steps) == Answer(dev, RESP_ERROR, StepRefusal(cfg, steps[0]))
  {
    if steps != [] {
      GoodStepsFront(cfg.names, steps);
    }
    assert steps[..0] == [];
  }

  lemma SetRouteGoesOn(cfg: Config, dev: Device, steps: seq<RouteStep>)
    requires |cfg.names| == |dev.states| && steps != [] && StepOk(cfg.names, steps[0])
    ensures SetRoute(cfg, dev, steps) == SetRoute(cfg, StepDone(cfg, dev, steps[0]), steps[1..])
  {
    var n := GoodSteps(cfg.names, steps);
    GoodStepsFront(cfg.names, steps);
    AppliedFirst(cfg.names, dev.states, steps, n);
    if n < |steps| {
      assert steps[n] == steps[1..][n - 1];
    }
  }

  /** Setting a route is applying its first step and then setting the rest. */
  lemma SetRouteUnfolds(cfg: Config, dev: Device, steps: seq<RouteStep>)
    requires |cfg.names| == |dev.states|
    ensures steps == [] ==> SetRoute(cfg, dev, steps) == Answer(dev, RESP_OK, OK_TEXT)
    ensures steps != [] && !StepOk(cfg.names, steps[0]) ==>
              SetRoute(cfg, dev, steps) == Answer(dev, RESP_ERROR, StepRefusal(cfg, steps[0]))
    ensures steps != [] && StepOk(cfg.names, steps[0]) ==>
              SetRoute(cfg, dev, steps) == SetRoute(cfg, StepDone(cfg, dev, steps[0]), steps[1..])
  {
    SetRouteStops(cfg, dev, steps);
    if steps != [] && StepOk(cfg.names, steps[0]) {
      SetRouteGoesOn(cfg, dev, steps);
    }
  }

  // ---------- properties of dispatch ----------

  /** Every reply is addressed to its command and can be published as it is. */
  lemma EveryAnswerAddressed(cfg: Config, dec: Decoder, dev: Device, cmd: Command)
    requires |cfg.names| == |dev.states| && Shaped(cmd)
    ensures Addressed(cmd, Answered(cfg, dec, dev, cmd)) && Publishable(Answered(cfg, dec, dev, cmd))
  {
    var a := Handle(cfg, dec, dev, cmd);
    ReplyAddressing(cmd, a.msgType, a.text);
  }

  lemma TableKeysSlashFree(i: nat)
    requires i < |TABLE|
    ensures '/' !in TABLE[i]
  {
  }

  /** A key with a slash is in no entry of the table, and the bare key of an entry has
      no slash to split at. */
  lemma SplitKeysNotInTable(key: CString)
    ensures '/' in key ==> FindDispatch(key) == |TABLE|
    ensures FindDispatch(key) < |TABLE| ==> ParseKeyPair(key, 15, 15) == NoSlash
  {
    var i := FindDispatch(key);
    CodesPartition(key, 15, 15);
    if i < |TABLE| {
      TableKeysSlashFree(i);
    }
  }

  /** So through dispatch neither a single switch nor a laser nor an attenuator can be
      reached: their documented keys are unknown and their table keys are refused. */
  lemma SingleDevicesUnreachable(cfg: Config, dec: Decoder, dev: Device, cmd: Command)
    requires |cfg.names| == |dev.states| && Shaped(cmd)
    requires '/' in TextOf(cmd.key) || FindDispatch(TextOf(cmd.key)) in {1, 2, 4}
    ensures var a := Handle(cfg, dec, dev, cmd);
            && a.device == dev && a.msgType == RESP_ERROR
            && a.text in {UNKNOWN_TEXT, BAD_MEMS_KEY, BAD_LASER_KEY, BAD_ATTEN_KEY}
  {
    SplitKeysNotInTable(TextOf(cmd.key));
  }

  /** The JSON library refuses an empty text, as RFC 8259 section 2 asks: it is no JSON
      value. */
  ghost predicate RefusesEmpty(dec: Decoder) {
    dec.route("") == None && dec.position("") == None && dec.flag("") == None
  }

  /** A command whose payload length is zero changes nothing: every set handler gets an
      empty text to decode and refuses. */
  lemma EmptyArgumentChangesNothing(cfg: Config, dec: Decoder, dev: Device, cmd: Command)
    requires |cfg.names| == |dev.states| && Shaped(cmd) && RefusesEmpty(dec) && cmd.payloadLen == 0
    ensures Handle(cfg, dec, dev, cmd).device == dev
  {
    assert Argument(cmd) == "";
  }

  /** Where every switch ends: where the last step naming it wants it, or where it was. */
  lemma WhereSwitchesEnd(names: seq<CString>, states: seq<char>, done: seq<RouteStep>)
    requires |names| == |states|
    ensures forall i: nat, j: nat :: j < |names| && LastNaming(names, done, i, j) ==>
              Applied(names, states, done)[j] == done[i].state
    ensures forall j: nat :: j < |names| && NeverNamed(names, done, j) ==> Applied(names, states, done)[j] == states[j]
  {
    forall i: nat, j: nat | j < |names| && LastNaming(names, done, i, j)
      ensures Applied(names, states, done)[j] == done[i].state
    {
      AppliedIsLastNaming(names, states, done, i, j);
    }
    forall j: nat | j < |names| && NeverNamed(names, done, j) ensures Applied(names, states, done)[j] == states[j] {
      AppliedElsewhere(names, states, done, j);
    }
  }

  /** Set, then get. When setting a route is answered with OK, every step was applied:
      each named switch is where the last step naming it wants it and the others did
      not move; and if the route never asks one switch for two positions, the next
      report lists its key. */
  lemma SetThenReport(cfg: Config, dec: Decoder, dev: Device, cmd: Command)
    requires |cfg.names| == |dev.states| && Shaped(cmd) && |cfg.routes| <= MAX_ROUTES
    requires dec.route(Argument(cmd)).Some?
    ensures var (input, output) := dec.route(Argument(cmd)).value;
            var k := FindRoute(cfg.routes, input, output);
            var a := MemsrouteSet(cfg, dec, dev, cmd);
            && (a.msgType == RESP_OK ==> k < |cfg.routes|)
            && (k < |cfg.routes| ==>
                  var steps := cfg.routes[k].steps;
                  && (a.msgType == RESP_OK <==> GoodSteps(cfg.names, steps) == |steps|)
                  && (forall i: nat, j: nat :: j < |cfg.names| && LastNaming(cfg.names, steps[..GoodSteps(cfg.names, steps)], i, j) ==>
                        a.device.states[j] == steps[i].state)
                  && (forall j: nat :: j < |cfg.names| && NeverNamed(cfg.names, steps[..GoodSteps(cfg.names, steps)], j) ==>
                        a.device.states[j] == dev.states[j])
                  && (a.msgType == RESP_OK && Consistent(cfg.names, steps) ==>
                        cfg.routes[k].key in ListedKeys(cfg, a.device)))
  {
    var (input, output) := dec.route(Argument(cmd)).value;
    var k := FindRoute(cfg.routes, input, output);
    if k < |cfg.routes| {
      var route := cfg.routes[k];
      var n := GoodSteps(cfg.names, route.steps);
      var done := route.steps[..n];
      WhereSwitchesEnd(cfg.names, dev.states, done);
      if n == |route.steps| && Consistent(cfg.names, route.steps) {
        assert done == route.steps;
        SetThenListed(cfg.names, dev.states, cfg.routes, route, MAX_ROUTES);
      }
    }
  }
}
