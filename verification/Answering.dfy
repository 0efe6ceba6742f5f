/** What every command is answered with and does, by the text of its key, and what that
    comes to in whole runs: the power line is where the last flag left it, each switch
    where the last applied step wants it. */
module Answering {
  import opened CText
  import opened Sequences
  import opened Routing
  import opened Messages
  import opened KeyPairs
  import opened Dispatch
  import opened Receiving
  import opened Pipeline
  import opened CommandRuns
  import RouteReport
  import FirmwareRuns
  import PinTraces

  /** The reply has this type and this text. */
  ghost predicate Says(om: OutMsg, msgType: MsgType, text: string) {
    om.msgType == msgType && TextOf(om.payload) == text
  }

  /** A device and a command that fit an instrument. */
  predicate Fits(cfg: Config, dev: Device, cmd: Command) {
    |cfg.names| == |cfg.pairs| == |dev.states| && Shaped(cmd)
  }

  /** What the firmware does with a command, and what it replies. */
  function Handled(cfg: Config, dec: Decoder, judge: Publication -> Verdict, start: Device, dev: Device, cmd: Command): (Device, OutMsg) {
    FirmwareWith(cfg, dec, judge, start).handle(dev, cmd)
  }

  lemma HandledIs(cfg: Config, dec: Decoder, judge: Publication -> Verdict, start: Device, dev: Device, cmd: Command)
    requires Fits(cfg, dev, cmd)
    ensures var (after, om) := Handled(cfg, dec, judge, start, dev, cmd);
            var a := Handle(cfg, dec, dev, cmd);
            after == a.device && Says(om, a.msgType, a.text)
  {
    var a := Handle(cfg, dec, dev, cmd);
    ReplyAddressing(cmd, a.msgType, a.text);
  }

  lemma EntryOf(key: CString)
    ensures key == "memsroute" ==> FindDispatch(key) == 0
    ensures key == "mems" ==> FindDispatch(key) == 1
    ensures key == "laser" ==> FindDispatch(key) == 2
    ensures key == "power" ==> FindDispatch(key) == 3
    ensures key == "atten" ==> FindDispatch(key) == 4
    ensures key == "status" ==> FindDispatch(key) == 5
    ensures key == "sleep" ==> FindDispatch(key) == 6
    ensures key !in {"memsroute", "mems", "laser", "power", "atten", "status", "sleep"} ==> FindDispatch(key) == 7
  {
  }

  /** The longer texts in full; the shorter ones stand where they are used. */
  lemma Wording()
    ensures BAD_MEMS_KEY == "{\"error\":" + "\"Failed to parse mems switch name\"}"
    ensures BAD_LASER_KEY == "{\"error\":\"Failed to parse laser/setting\"}"
    ensures BAD_ATTEN_KEY == "{\"error\":\"Failed to parse atten/setting\"}"
    ensures BAD_ROUTE_JSON == "{\"error\":" + "\"Failed to parse JSON input or output\"}"
    ensures INVALID_ROUTE == "{\"error\":\"Invalid Route\"}"
    ensures INVALID_TEXT == "{\"error\":" + "\"Invalid or unrecognized command\"}"
    ensures BUSY_TEXT == "{\"error\":\"busy\"}"
  {
  }

  // ---------- requests that only ask ----------

  /** The power line is reported as it is, for "power" and for "status". */
  lemma PowerTold(cfg: Config, dec: Decoder, judge: Publication -> Verdict, start: Device, dev: Device, cmd: Command)
    requires Fits(cfg, dev, cmd) && cmd.msgType != SET && TextOf(cmd.key) in {"power", "status"}
    ensures var (after, om) := Handled(cfg, dec, judge, start, dev, cmd);
            after == dev && Says(om, RESP_OK, if dev.power then "{\"power\":true}" else "{\"power\":false}")
  {
    EntryOf(TextOf(cmd.key));
    HandledIs(cfg, dec, judge, start, dev, cmd);
  }

  /** The route report is the JSON object of the live routes, if it fits; otherwise it says
      so. */
  lemma RoutesTold(cfg: Config, dec: Decoder, judge: Publication -> Verdict, start: Device, dev: Device, cmd: Command)
    requires Fits(cfg, dev, cmd) && cmd.msgType != SET && TextOf(cmd.key) == "memsroute" && |cfg.routes| <= 18
    ensures var (after, om) := Handled(cfg, dec, judge, start, dev, cmd);
            var live := LiveKeys(cfg.names, dev.states, cfg.routes);
            && after == dev
            && (|RouteReport.Render(live)| > 255 ==> Says(om, RESP_ERROR, "{\"error\":\"overflow building JSON\"}"))
            && (|RouteReport.Render(live)| <= 255 ==> Says(om, RESP_OK, RouteReport.Render(live)))
  {
    EntryOf(TextOf(cmd.key));
    HandledIs(cfg, dec, judge, start, dev, cmd);
    assert ListedKeys(cfg, dev) == LiveKeys(cfg.names, dev.states, cfg.routes);
  }

  // ---------- requests that are refused ----------

  /** A key outside the table is unknown. */
  lemma UnknownKey(cfg: Config, dec: Decoder, judge: Publication -> Verdict, start: Device, dev: Device, cmd: Command)
    requires Fits(cfg, dev, cmd)
    requires TextOf(cmd.key) !in {"memsroute", "mems", "laser", "power", "atten", "status", "sleep"}
    ensures var (after, om) := Handled(cfg, dec, judge, start, dev, cmd);
            after == dev && Says(om, RESP_ERROR, "{\"error\":\"Unknown request\"}")
  {
    EntryOf(TextOf(cmd.key));
    HandledIs(cfg, dec, judge, start, dev, cmd);
  }

  /** The status cannot be set, and there is no asking for sleep. */
  lemma NotSupported(cfg: Config, dec: Decoder, judge: Publication -> Verdict, start: Device, dev: Device, cmd: Command)
    requires Fits(cfg, dev, cmd)
    requires (TextOf(cmd.key) == "status" && cmd.msgType == SET) || (TextOf(cmd.key) == "sleep" && cmd.msgType != SET)
    ensures var (after, om) := Handled(cfg, dec, judge, start, dev, cmd);
            after == dev && Says(om, RESP_ERROR, "{\"error\":\"Unsupported operation\"}")
  {
    EntryOf(TextOf(cmd.key));
    HandledIs(cfg, dec, judge, start, dev, cmd);
  }

  lemma BareKeyAnswer(cfg: Config, dec: Decoder, dev: Device, cmd: Command)
    requires Fits(cfg, dev, cmd) && TextOf(cmd.key) in {"mems", "laser", "atten"}
    ensures Handle(cfg, dec, dev, cmd) == Answer(dev, RESP_ERROR,
              if TextOf(cmd.key) == "mems" then BAD_MEMS_KEY
              else if TextOf(cmd.key) == "atten" && cmd.msgType != SET then BAD_ATTEN_KEY
              else BAD_LASER_KEY)
  {
    EntryOf(TextOf(cmd.key));
    SplitKeysNotInTable(TextOf(cmd.key));
  }

  /** The keys of single devices are refused because they are bare. */
  lemma BareKey(cfg: Config, dec: Decoder, judge: Publication -> Verdict, start: Device, dev: Device, cmd: Command)
    requires Fits(cfg, dev, cmd) && TextOf(cmd.key) in {"mems", "laser", "atten"}
    ensures var (after, om) := Handled(cfg, dec, judge, start, dev, cmd);
            after == dev && Says(om, RESP_ERROR,
              if TextOf(cmd.key) == "mems" then BAD_MEMS_KEY
              else if TextOf(cmd.key) == "atten" && cmd.msgType != SET then BAD_ATTEN_KEY
              else BAD_LASER_KEY)
  {
    BareKeyAnswer(cfg, dec, dev, cmd);
    HandledIs(cfg, dec, judge, start, dev, cmd);
  }

  // ---------- requests that set ----------

  /** The power line follows the flag; sleep only ever turns it off. Both are answered with
      the error type and an OK text, as coded. */
  lemma PowerSwitched(cfg: Config, dec: Decoder, judge: Publication -> Verdict, start: Device, dev: Device, cmd: Command)
    requires Fits(cfg, dev, cmd) && cmd.msgType == SET && TextOf(cmd.key) in {"power", "sleep"}
    ensures var (after, om) := Handled(cfg, dec, judge, start, dev, cmd);
            var flag := dec.flag(Argument(cmd));
            && (flag == None ==> after == dev && Says(om, RESP_ERROR, "{\"error\":\"Missing setting value\"}"))
            && (flag.Some? ==>
                  && after.states == dev.states && Says(om, RESP_ERROR, "{\"status\":\"OK\"}")
                  && (TextOf(cmd.key) == "power" ==> after.power == flag.value)
                  && (TextOf(cmd.key) == "sleep" ==> after.power == (dev.power && !flag.value)))
  {
    EntryOf(TextOf(cmd.key));
    HandledIs(cfg, dec, judge, start, dev, cmd);
  }

  /** The steps a set request for a route applies: those of the route it names, up to the
      first that cannot be applied. */
  function StepsOf(cfg: Config, dec: Decoder, cmd: Command): seq<RouteStep> {
    if !(Shaped(cmd) && cmd.msgType == SET && TextOf(cmd.key) == "memsroute") then []
    else
      match dec.route(Argument(cmd))
      case None => []
      case Some((input, output)) =>
        var k := FindRoute(cfg.routes, input, output);
        if k == |cfg.routes| then [] else cfg.routes[k].steps[..GoodSteps(cfg.names, cfg.routes[k].steps)]
  }

  /** What a set request for a route does. */
  lemma RouteSetAnswer(cfg: Config, dec: Decoder, dev: Device, cmd: Command)
    requires Fits(cfg, dev, cmd) && cmd.msgType == SET && TextOf(cmd.key) == "memsroute"
    ensures var a := Handle(cfg, dec, dev, cmd);
            && a.device == dev.(states := Applied(cfg.names, dev.states, StepsOf(cfg, dec, cmd)))
            && a == MemsrouteSet(cfg, dec, dev, cmd)
  {
    EntryOf(TextOf(cmd.key));
  }

  lemma RouteMoves(cfg: Config, dec: Decoder, judge: Publication -> Verdict, start: Device, dev: Device, cmd: Command)
    requires Fits(cfg, dev, cmd) && cmd.msgType == SET && TextOf(cmd.key) == "memsroute"
    ensures Handled(cfg, dec, judge, start, dev, cmd).0 ==
            dev.(states := Applied(cfg.names, dev.states, StepsOf(cfg, dec, cmd)))
  {
    RouteSetAnswer(cfg, dec, dev, cmd);
    HandledIs(cfg, dec, judge, start, dev, cmd);
  }

  /** A request that does not decode, or names no route, is refused. */
  lemma NoRouteToSet(cfg: Config, dec: Decoder, judge: Publication -> Verdict, start: Device, dev: Device, cmd: Command)
    requires Fits(cfg, dev, cmd) && cmd.msgType == SET && TextOf(cmd.key) == "memsroute"
    ensures var (_, om) := Handled(cfg, dec, judge, start, dev, cmd);
            var names := dec.route(Argument(cmd));
            && (names == None ==> Says(om, RESP_ERROR, BAD_ROUTE_JSON))
            && (names.Some? && FindRoute(cfg.routes, names.value.0, names.value.1) == |cfg.routes| ==>
                  Says(om, RESP_ERROR, INVALID_ROUTE))
  {
    RouteSetAnswer(cfg, dec, dev, cmd);
    HandledIs(cfg, dec, judge, start, dev, cmd);
  }

  /** What a step that cannot be applied is answered with. */
  lemma StepRefused(cfg: Config, step: RouteStep)
    requires !StepOk(cfg.names, step)
    ensures FindSwitch(cfg.names, step.switchName) == |cfg.names| ==>
              StepRefusal(cfg, step) == "{\"error\":\"Internal route error\"}"
    ensures FindSwitch(cfg.names, step.switchName) < |cfg.names| && |step.switchName| <= 100 && step.state != NUL ==>
              StepRefusal(cfg, step) == "{\"error\":\"Setting switch " + step.switchName + " to " + [step.state] + " failed\"}"
  {
    var text := "{\"error\":\"Setting switch " + step.switchName + " to " + [step.state] + " failed\"}";
    if |step.switchName| <= 100 && step.state != NUL {
      assert |text| < MAX_PAYLOAD_LEN && text[..|text|] == text;
      assert NUL !in text;
      IndexOfIs(text, NUL, |text|);
    }
  }

  /** A route is answered with OK exactly if all its steps could be applied, and otherwise
      with the refusal of the first that could not. */
  lemma RouteTold(cfg: Config, dec: Decoder, judge: Publication -> Verdict, start: Device, dev: Device, cmd: Command, k: nat)
    requires Fits(cfg, dev, cmd) && cmd.msgType == SET && TextOf(cmd.key) == "memsroute"
    requires dec.route(Argument(cmd)).Some? && k < |cfg.routes|
    requires k == FindRoute(cfg.routes, dec.route(Argument(cmd)).value.0, dec.route(Argument(cmd)).value.1)
    ensures var (_, om) := Handled(cfg, dec, judge, start, dev, cmd);
            var steps, n := cfg.routes[k].steps, |StepsOf(cfg, dec, cmd)|;
            && n <= |steps| && StepsOf(cfg, dec, cmd) == steps[..n]
            && (forall i :: 0 <= i < n ==> StepOk(cfg.names, steps[i]))
            && (n == |steps| ==> Says(om, RESP_OK, "{\"status\":\"OK\"}"))
            && (n < |steps| ==> !StepOk(cfg.names, steps[n]) && Says(om, RESP_ERROR, StepRefusal(cfg, steps[n])))
  {
    RouteSetAnswer(cfg, dec, dev, cmd);
    HandledIs(cfg, dec, judge, start, dev, cmd);
  }

  /** A command that does not set changes nothing and writes no pin. */
  lemma AskingIsHarmless(cfg: Config, dec: Decoder, judge: Publication -> Verdict, start: Device, dev: Device, cmd: Command)
    requires Fits(cfg, dev, cmd) && cmd.msgType != SET
    ensures Handled(cfg, dec, judge, start, dev, cmd).0 == dev && PinTraces.TakenWrites(cfg, dec, cmd) == []
  {
    HandledIs(cfg, dec, judge, start, dev, cmd);
  }

  // ---------- single switches ----------
  // Dispatch does not reach these handlers; what they do when called is stated all the same.

  /** The report of one switch. */
  function ValueText(c: char): (text: CString)
    requires c == 'A' || c == 'B'
  {
    if c == 'A' then "{\"value\":\"A\"}" else "{\"value\":\"B\"}"
  }

  lemma ValueTextFits(c: char)
    requires c == 'A' || c == 'B'
    ensures Formatted("{\"value\":\"" + [c] + "\"}", MAX_PAYLOAD_LEN) == ValueText(c)
  {
    var text := "{\"value\":\"" + [c] + "\"}";
    assert text == ValueText(c) && text[..|text|] == text;
    IndexOfIs(text, NUL, |text|);
  }

  /** The report of one switch is its position. */
  lemma SwitchTold(cfg: Config, dev: Device, key: CString, device: CString, name: CString)
    requires |cfg.names| == |dev.states| && SettingOf(key, device, name) && 0 < |device| < 15 && 0 < |name| < 15
    ensures var k := FindSwitch(cfg.names, name);
            && (k == |cfg.names| ==> MemsGet(cfg, dev, key) == Answer(dev, RESP_ERROR, INVALID_SWITCH))
            && (k < |cfg.names| && (dev.states[k] == 'A' || dev.states[k] == 'B') ==>
                  MemsGet(cfg, dev, key) == Answer(dev, RESP_OK, ValueText(dev.states[k])))
  {
    PairIffJoin(key, device, name, 15, 15);
    ValueTextFits('A');
    ValueTextFits('B');
  }

  /** Setting a single switch: the position is stored for the switch the key names. What does
      not decode, names no switch or asks for another position is refused and changes
      nothing. */
  lemma SwitchSet(cfg: Config, dec: Decoder, dev: Device, cmd: Command, device: CString, name: CString)
    requires Fits(cfg, dev, cmd)
    requires SettingOf(TextOf(cmd.key), device, name) && 0 < |device| < 15 && 0 < |name| < 15
    ensures var k, value, a := FindSwitch(cfg.names, name), dec.position(Argument(cmd)), MemsSet(cfg, dec, dev, cmd);
            && (value == None ==> a == Answer(dev, RESP_ERROR, BAD_STATE_JSON))
            && (value.Some? && k == |cfg.names| ==> a == Answer(dev, RESP_ERROR, INVALID_SWITCH))
            && (value.Some? && k < |cfg.names| ==>
                  var c := if value.value == "" then NUL else value.value[0];
                  a == if c == 'A' || c == 'B' then Answer(dev.(states := dev.states[k := c]), RESP_OK, OK_TEXT)
                       else Answer(dev, RESP_ERROR, INVALID_STATE))
  {
    PairIffJoin(TextOf(cmd.key), device, name, 15, 15);
  }

  /** So a switch that is set and then asked for with the same key reports where it was set. */
  lemma SwitchSetThenTold(cfg: Config, dec: Decoder, dev: Device, cmd: Command, device: CString, name: CString)
    requires Fits(cfg, dev, cmd) && MemsSet(cfg, dec, dev, cmd).msgType == RESP_OK
    requires SettingOf(TextOf(cmd.key), device, name) && 0 < |device| < 15 && 0 < |name| < 15
    ensures var value, a := dec.position(Argument(cmd)), MemsSet(cfg, dec, dev, cmd);
            && value.Some? && value.value != "" && (value.value[0] == 'A' || value.value[0] == 'B')
            && MemsGet(cfg, a.device, TextOf(cmd.key)) == Answer(a.device, RESP_OK, ValueText(value.value[0]))
  {
    SwitchSet(cfg, dec, dev, cmd, device, name);
    SwitchTold(cfg, MemsSet(cfg, dec, dev, cmd).device, TextOf(cmd.key), device, name);
  }

  // ---------- whole runs: the power line ----------

  /** The command turns the power line on: "power" with a true flag. */
  predicate TurnsOn(dec: Decoder, cmd: Command) {
    Shaped(cmd) && cmd.msgType == SET && TextOf(cmd.key) == "power" && dec.flag(Argument(cmd)) == Some(true)
  }

  /** The command turns it off: "power" with a false flag, or "sleep" with a true one. */
  predicate TurnsOff(dec: Decoder, cmd: Command) {
    && Shaped(cmd) && cmd.msgType == SET
    && ((TextOf(cmd.key) == "power" && dec.flag(Argument(cmd)) == Some(false)) ||
        (TextOf(cmd.key) == "sleep" && dec.flag(Argument(cmd)) == Some(true)))
  }

  /** None of the commands from position i on turns the line off. */
  ghost predicate OnFrom(dec: Decoder, cmds: seq<Command>, i: int) {
    forall k :: 0 <= k < |cmds| && i <= k ==> !TurnsOff(dec, cmds[k])
  }

  /** The commands leave the line on: the last one that turns it on or off turns it on, or
      there is none and it was on before. */
  ghost predicate LeaveOn(dec: Decoder, on: bool, cmds: seq<Command>) {
    || (exists j :: 0 <= j < |cmds| && TurnsOn(dec, cmds[j]) && OnFrom(dec, cmds, j + 1))
    || (on && OnFrom(dec, cmds, 0))
  }

  lemma OnFromSnoc(dec: Decoder, before: seq<Command>, last: Command, i: int)
    requires i <= |before|
    ensures OnFrom(dec, before + [last], i) <==> OnFrom(dec, before, i) && !TurnsOff(dec, last)
  {
    var all := before + [last];
    assert all[|before|] == last;
    assert forall k :: 0 <= k < |before| ==> all[k] == before[k];
  }

  lemma LeaveOnSnoc(dec: Decoder, on: bool, before: seq<Command>, last: Command)
    ensures LeaveOn(dec, on, before + [last]) <==> TurnsOn(dec, last) || (!TurnsOff(dec, last) && LeaveOn(dec, on, before))
  {
    var all, n := before + [last], |before|;
    assert all[n] == last;
    OnFromSnoc(dec, before, last, 0);
    if j :| 0 <= j < |all| && TurnsOn(dec, all[j]) && OnFrom(dec, all, j + 1) {
      if j < n {
        assert all[j] == before[j];
        OnFromSnoc(dec, before, last, j + 1);
      }
    }
    if j :| 0 <= j < n && TurnsOn(dec, before[j]) && OnFrom(dec, before, j + 1) {
      assert all[j] == before[j];
      OnFromSnoc(dec, before, last, j + 1);
    }
    if TurnsOn(dec, last) {
      assert OnFrom(dec, all, n + 1) && TurnsOn(dec, all[n]);
    }
  }

  /** One command and the power line. */
  lemma OthersLeavePower(cfg: Config, dec: Decoder, dev: Device, cmd: Command)
    requires Fits(cfg, dev, cmd) && cmd.msgType == SET && TextOf(cmd.key) !in {"power", "sleep"}
    ensures Handle(cfg, dec, dev, cmd).device.power == dev.power
  {
    if TextOf(cmd.key) == "memsroute" {
      RouteSetAnswer(cfg, dec, dev, cmd);
    } else if TextOf(cmd.key) in {"mems", "laser", "atten"} {
      BareKeyAnswer(cfg, dec, dev, cmd);
    } else {
      EntryOf(TextOf(cmd.key));
    }
  }

  lemma SettingAndPower(cfg: Config, dec: Decoder, judge: Publication -> Verdict, start: Device, dev: Device, cmd: Command)
    requires Fits(cfg, dev, cmd) && cmd.msgType == SET
    ensures Handled(cfg, dec, judge, start, dev, cmd).0.power <==> TurnsOn(dec, cmd) || (!TurnsOff(dec, cmd) && dev.power)
  {
    if TextOf(cmd.key) in {"power", "sleep"} {
      PowerSwitched(cfg, dec, judge, start, dev, cmd);
    } else {
      OthersLeavePower(cfg, dec, dev, cmd);
      HandledIs(cfg, dec, judge, start, dev, cmd);
    }
  }

  lemma PowerStep(cfg: Config, dec: Decoder, judge: Publication -> Verdict, start: Device, dev: Device, cmd: Command)
    requires |cfg.names| == |cfg.pairs| == |dev.states|
    ensures Handled(cfg, dec, judge, start, dev, cmd).0.power <==> TurnsOn(dec, cmd) || (!TurnsOff(dec, cmd) && dev.power)
  {
    if Shaped(cmd) {
      if cmd.msgType == SET {
        SettingAndPower(cfg, dec, judge, start, dev, cmd);
      } else {
        AskingIsHarmless(cfg, dec, judge, start, dev, cmd);
      }
    }
  }

  /** The line after the commands, one by one. */
  function LineAfter(dec: Decoder, on: bool, cmds: seq<Command>): bool {
    if cmds == [] then on
    else
      var last := cmds[|cmds| - 1];
      TurnsOn(dec, last) || (!TurnsOff(dec, last) && LineAfter(dec, on, cmds[..|cmds| - 1]))
  }

  lemma {:induction false} LineIsLeft(dec: Decoder, on: bool, cmds: seq<Command>)
    ensures LineAfter(dec, on, cmds) <==> LeaveOn(dec, on, cmds)
  {
    if cmds != [] {
      var before, last := cmds[..|cmds| - 1], cmds[|cmds| - 1];
      LineIsLeft(dec, on, before);
      LeaveOnSnoc(dec, on, before, last);
      assert cmds == before + [last];
    }
  }

  lemma {:induction false} PowerIsLine(cfg: Config, dec: Decoder, judge: Publication -> Verdict, start: Device, cmds: seq<Command>)
    requires |cfg.names| == |cfg.pairs| == |start.states|
    ensures DeviceAfter(FirmwareWith(cfg, dec, judge, start), cmds).power == LineAfter(dec, start.power, cmds)
  {
    if cmds != [] {
      var before := cmds[..|cmds| - 1];
      PowerIsLine(cfg, dec, judge, start, before);
      FirmwareRuns.SwitchesStay(cfg, dec, judge, start, before);
      PowerStep(cfg, dec, judge, start, DeviceAfter(FirmwareWith(cfg, dec, judge, start), before), cmds[|cmds| - 1]);
    }
  }

  /** After commands one after the other the line is where the last flag that took effect
      left it. */
  lemma PowerIsLeft(cfg: Config, dec: Decoder, judge: Publication -> Verdict, start: Device, cmds: seq<Command>)
    requires |cfg.names| == |cfg.pairs| == |start.states|
    ensures DeviceAfter(FirmwareWith(cfg, dec, judge, start), cmds).power <==> LeaveOn(dec, start.power, cmds)
  {
    PowerIsLine(cfg, dec, judge, start, cmds);
    LineIsLeft(dec, start.power, cmds);
  }

  // ---------- whole runs: the switches ----------

  /** All steps the commands apply, in order. */
  function AppliedSteps(cfg: Config, dec: Decoder, cmds: seq<Command>): seq<RouteStep> {
    if cmds == [] then [] else AppliedSteps(cfg, dec, cmds[..|cmds| - 1]) + StepsOf(cfg, dec, cmds[|cmds| - 1])
  }

  lemma AppendedOneMore(names: seq<CString>, states: seq<char>, a: seq<RouteStep>, front: seq<RouteStep>, last: RouteStep)
    requires |names| == |states|
    requires Applied(names, states, a + front) == Applied(names, Applied(names, states, a), front)
    ensures Applied(names, states, a + (front + [last])) == Applied(names, Applied(names, states, a), front + [last])
  {
    Assoc(a, front, [last]);
    AppliedSnoc(names, states, a + front, last);
    AppliedSnoc(names, Applied(names, states, a), front, last);
  }

  lemma {:induction false} AppliedAppend(names: seq<CString>, states: seq<char>, a: seq<RouteStep>, b: seq<RouteStep>)
    requires |names| == |states|
    ensures Applied(names, states, a + b) == Applied(names, Applied(names, states, a), b)
  {
    if b == [] {
      assert a + b == a;
    } else {
      var front, last := b[..|b| - 1], b[|b| - 1];
      AppliedAppend(names, states, a, front);
      AppendedOneMore(names, states, a, front, last);
      assert b == front + [last];
    }
  }

  lemma OthersMoveNothing(cfg: Config, dec: Decoder, dev: Device, cmd: Command)
    requires Fits(cfg, dev, cmd) && cmd.msgType == SET && TextOf(cmd.key) != "memsroute"
    ensures Handle(cfg, dec, dev, cmd).device.states == dev.states
  {
    if TextOf(cmd.key) in {"mems", "laser", "atten"} {
      BareKeyAnswer(cfg, dec, dev, cmd);
    } else {
      EntryOf(TextOf(cmd.key));
    }
  }

  /** One command and the switches. */
  lemma SwitchStep(cfg: Config, dec: Decoder, judge: Publication -> Verdict, start: Device, dev: Device, cmd: Command)
    requires |cfg.names| == |cfg.pairs| == |dev.states|
    ensures Handled(cfg, dec, judge, start, dev, cmd).0.states == Applied(cfg.names, dev.states, StepsOf(cfg, dec, cmd))
  {
    if Shaped(cmd) {
      EntryOf(TextOf(cmd.key));
      if cmd.msgType != SET {
        AskingIsHarmless(cfg, dec, judge, start, dev, cmd);
      } else if TextOf(cmd.key) == "memsroute" {
        RouteMoves(cfg, dec, judge, start, dev, cmd);
      } else {
        OthersMoveNothing(cfg, dec, dev, cmd);
        HandledIs(cfg, dec, judge, start, dev, cmd);
      }
    }
  }

  /** After commands one after the other the recorded states are those of all applied steps. */
  lemma {:induction false} StatesAreApplied(cfg: Config, dec: Decoder, judge: Publication -> Verdict, start: Device, cmds: seq<Command>)
    requires |cfg.names| == |cfg.pairs| == |start.states|
    ensures DeviceAfter(FirmwareWith(cfg, dec, judge, start), cmds).states ==
            Applied(cfg.names, start.states, AppliedSteps(cfg, dec, cmds))
  {
    if cmds != [] {
      var n := |cmds| - 1;
      StatesAreApplied(cfg, dec, judge, start, cmds[..n]);
      SwitchStep(cfg, dec, judge, start, DeviceAfter(FirmwareWith(cfg, dec, judge, start), cmds[..n]), cmds[n]);
      AppliedAppend(cfg.names, start.states, AppliedSteps(cfg, dec, cmds[..n]), StepsOf(cfg, dec, cmds[n]));
    }
  }
}
