/** The handlers as they run: they change the switches, the pins and the power line of an
    instrument in place, and each is proved to do what module Dispatch says. */
module Instruments {
  import opened CText
  import opened Routing
  import opened Pins
  import opened MemsSwitching
  import opened Messages
  import opened KeyPairs
  import opened Dispatch
  import RouteReport

  /** Setting the steps from position i on. */
  lemma SetRouteFrom(cfg: Config, dev: Device, steps: seq<RouteStep>, i: nat)
    requires |cfg.names| == |dev.states| && i <= |steps|
    ensures i == |steps| ==> SetRoute(cfg, dev, steps[i..]) == Answer(dev, RESP_OK, OK_TEXT)
    ensures i < |steps| && !StepOk(cfg.names, steps[i]) ==>
              SetRoute(cfg, dev, steps[i..]) == Answer(dev, RESP_ERROR, StepRefusal(cfg, steps[i]))
    ensures i < |steps| && StepOk(cfg.names, steps[i]) ==>
              SetRoute(cfg, dev, steps[i..]) == SetRoute(cfg, StepDone(cfg, dev, steps[i]), steps[i + 1..])
  {
    SetRouteUnfolds(cfg, dev, steps[i..]);
    assert i < |steps| ==> steps[i..][1..] == steps[i + 1..];
  }

  lemma StoredText(before: string, text: CString)
    requires |text| < |before|
    ensures TextOf(Stored(before, text)) == text
  {
    var b := Stored(before, text);
    assert b[..|text|] == text;
    IndexOfIs(b, NUL, |text|);
  }

  /** The pulses of the steps from position i on. */
  lemma PulsesFrom(cfg: Config, writes: Trace, steps: seq<RouteStep>, i: nat)
    requires |cfg.names| == |cfg.pairs| && i < |steps|
    ensures StepOk(cfg.names, steps[i]) ==>
              writes + StepPulses(cfg, steps[i..]) == writes + StepPulses(cfg, [steps[i]]) + StepPulses(cfg, steps[i + 1..])
    ensures !StepOk(cfg.names, steps[i]) ==> StepPulses(cfg, steps[i..]) == StepPulses(cfg, [steps[i]]) == []
  {
    assert steps[i..][1..] == steps[i + 1..];
    assert StepPulses(cfg, [steps[i]][1..]) == [];
  }

  class Instrument {
    const port: Expander
    const router: MemsRouter
    var power: bool

    ghost predicate Valid()
      reads this, router, router.routes, router.switches
    {
      router.Valid() && forall i :: 0 <= i < |router.switches| ==> router.switches[i].port == port
    }

    ghost function Cfg(): Config
      reads this, router, router.routes
      requires router.Valid()
    {
      Config(router.Names(), router.Pairs(), router.Routes())
    }

    ghost function Dev(): (dev: Device)
      reads this, router.switches
      ensures |dev.states| == |router.switches|
    {
      Device(router.States(), power)
    }

    constructor (port: Expander, router: MemsRouter)
      requires router.Valid() && forall i :: 0 <= i < |router.switches| ==> router.switches[i].port == port
      ensures Valid() && this.port == port && this.router == router && !power
    {
      this.port := port;
      this.router := router;
      power := false;
    }

    /** The pins are low and have always agreed with the recorded states. */
    ghost predicate Quiet()
      reads this, port, router.switches
    {
      Settled(port.writes, router.Pairs(), router.States())
    }

    /** Setting one switch of the router. It keeps the pins quiet if no pin is shared. */
    method SetSwitch(sw: MemsSwitch, ghost k: nat, state: char) returns (rc: int)
      requires Valid() && k < |router.switches| && router.switches[k] == sw
      modifies port, sw`state
      ensures Valid()
      ensures rc == 0 <==> Settable(state)
      ensures Dev() == if rc == 0 then old(Dev()).(states := old(Dev()).states[k := state]) else old(Dev())
      ensures port.writes == old(port.writes) + if rc == 0 then Pulse(PinFor(router.Pairs()[k], state)) else []
      ensures Disjoint(router.Pairs()) && old(Quiet()) ==> Quiet()
    {
      ghost var trace, before, pairs := port.writes, router.States(), router.Pairs();
      rc := sw.SetState(state);
      if rc == 0 {
        assert router.States() == before[k := state];
        if Disjoint(pairs) && Settled(trace, pairs, before) {
          PulseKeepsSettled(trace, pairs, before, k, state);
        }
      } else {
        assert router.States() == before;
      }
    }

    /** The body of the loop in `memsroute_set`; refusal is the text of its error exit. */
    method SetStep(step: RouteStep) returns (refusal: Option<CString>)
      requires Valid()
      modifies port, router.switches
      ensures Valid()
      ensures refusal == None <==> StepOk(router.Names(), step)
      ensures refusal != None ==> Dev() == old(Dev()) && refusal.value == StepRefusal(Cfg(), step)
      ensures refusal == None ==> Dev() == StepDone(Cfg(), old(Dev()), step)
      ensures port.writes == old(port.writes) + StepPulses(Cfg(), [step])
      ensures Disjoint(router.Pairs()) && old(Quiet()) ==> Quiet()
    {
      var sw, k := router.FindSwitch(step.switchName);
      if sw == null {
        return Some(ROUTE_ERROR);
      }
      OneStepPulse(Cfg(), step);
      var rc := SetSwitch(sw, k, step.state);
      refusal := if rc != 0 then Some(SwitchFailed(step)) else None;
    }

    /** The loop of `memsroute_set`. It stops at the first step that cannot be done. */
    method SetSteps(steps: seq<RouteStep>) returns (msgType: MsgType, text: CString)
      requires Valid()
      modifies port, router.switches
      ensures Valid()
      ensures old(SetRoute(Cfg(), Dev(), steps)) == Answer(Dev(), msgType, text)
      ensures port.writes == old(port.writes) + StepPulses(Cfg(), steps)
      ensures Disjoint(router.Pairs()) && old(Quiet()) ==> Quiet()
    {
      ghost var cfg := Cfg();
      ghost var goal := SetRoute(cfg, Dev(), steps);
      ghost var all := port.writes + StepPulses(cfg, steps);
      var i := 0;
      assert steps[0..] == steps;
      while i < |steps|
        invariant 0 <= i <= |steps| && Valid() && cfg == Cfg()
        invariant SetRoute(cfg, Dev(), steps[i..]) == goal
        invariant port.writes + StepPulses(cfg, steps[i..]) == all
        invariant Disjoint(router.Pairs()) && old(Quiet()) ==> Quiet()
      {
        SetRouteFrom(cfg, Dev(), steps, i);
        PulsesFrom(cfg, port.writes, steps, i);
        var refusal := SetStep(steps[i]);
        if refusal != None {
          return RESP_ERROR, refusal.value;
        }
        i := i + 1;
      }
      SetRouteFrom(cfg, Dev(), steps, i);
      return RESP_OK, OK_TEXT;
    }

    // The source's handlers each end in a call of `_msg_builder`. Here they yield its
    // two arguments, and the call is made once, in DispatchCommand.

    method MemsrouteSet(dec: Decoder, cmd: Command) returns (msgType: MsgType, text: CString)
      requires Valid() && Shaped(cmd)
      modifies port, router.switches
      ensures Valid()
      ensures old(Dispatch.MemsrouteSet(Cfg(), dec, Dev(), cmd)) == Answer(Dev(), msgType, text)
      ensures port.writes == old(port.writes) + RouteWrites(Cfg(), dec, cmd)
      ensures Disjoint(router.Pairs()) && old(Quiet()) ==> Quiet()
    {
      var names := dec.route(Argument(cmd));
      if names == None {
        return RESP_ERROR, BAD_ROUTE_JSON;
      }
      var route := router.GetRoute(names.value.0, names.value.1);
      if route == None {
        return RESP_ERROR, INVALID_ROUTE;
      }
      msgType, text := SetSteps(route.value.steps);
    }

    method MemsrouteGet() returns (msgType: MsgType, text: CString)
      requires Valid()
      ensures Dispatch.MemsrouteGet(Cfg(), Dev()) == Answer(Dev(), msgType, text)
    {
      var keys := new RouteKey[MAX_ROUTES];
      var n := router.ActiveRoutes(keys, MAX_ROUTES);
      var report := RouteReport.WriteReport(keys[..n]);
      match report
      case Some(json) => return RESP_OK, json;
      case None => return RESP_ERROR, OVERFLOW_TEXT;
    }

    /** The switch a `mems/<name>` key names: its key is parsed into two local arrays. */
    method NamedSwitch(key: CString) returns (rc: int, sw: MemsSwitch?, ghost k: nat)
      requires Valid()
      ensures rc == ParseKeyPair(key, 15, 15).Code()
      ensures rc == 0 ==>
                && k == Routing.FindSwitch(router.Names(), ParseKeyPair(key, 15, 15).setting)
                && sw == if k < |router.switches| then router.switches[k] else null
    {
      var name, setting := new char[16], new char[16];
      ghost var before := setting[..];
      rc := ParseKeyPairInto(key, name, 15, setting, 15);
      sw, k := null, 0;
      if rc == 0 {
        ghost var pair := ParseKeyPair(key, 15, 15);
        PairIffJoin(key, pair.name, pair.setting, 15, 15);
        StoredText(before, pair.setting);
        sw, k := router.FindSwitch(TextOf(setting[..]));
      }
    }

    method MemsGet(key: CString) returns (msgType: MsgType, text: CString)
      requires Valid()
      ensures Dispatch.MemsGet(Cfg(), Dev(), key) == Answer(Dev(), msgType, text)
    {
      var rc, sw, k := NamedSwitch(key);
      if rc != 0 {
        return RESP_ERROR, BAD_MEMS_KEY;
      }
      if sw == null {
        return RESP_ERROR, INVALID_SWITCH;
      }
      var _, state := sw.GetState();
      return RESP_OK, Formatted("{\"value\":\"" + [state] + "\"}", MAX_PAYLOAD_LEN);
    }

    method MemsSet(dec: Decoder, cmd: Command) returns (msgType: MsgType, text: CString)
      requires Valid() && Shaped(cmd)
      modifies port, router.switches
      ensures Valid()
      ensures old(Dispatch.MemsSet(Cfg(), dec, Dev(), cmd)) == Answer(Dev(), msgType, text)
      ensures port.writes == old(port.writes) + SwitchWrites(Cfg(), dec, cmd)
      ensures Disjoint(router.Pairs()) && old(Quiet()) ==> Quiet()
    {
      var rc, sw, k := NamedSwitch(TextOf(cmd.key));
      if rc != 0 {
        return RESP_ERROR, BAD_MEMS_KEY;
      }
      var value := dec.position(Argument(cmd));
      if value == None {
        return RESP_ERROR, BAD_STATE_JSON;
      }
      if sw == null {
        return RESP_ERROR, INVALID_SWITCH;
      }
      var state := if value.value == "" then NUL else value.value[0];
      OneStepPulse(Cfg(), RouteStep(ParseKeyPair(TextOf(cmd.key), 15, 15).setting, state));
      rc := SetSwitch(sw, k, state);
      if rc != 0 {
        return RESP_ERROR, INVALID_STATE;
      }
      return RESP_OK, OK_TEXT;
    }

    /** Whether the power line had to be switched. */
    method EnablePower() returns (switched: bool)
      modifies this`power
      ensures power && (switched <==> !old(power))
    {
      switched := !power;
      power := true;
    }

    method DisablePower() returns (switched: bool)
      modifies this`power
      ensures !power && (switched <==> old(power))
    {
      switched := power;
      power := false;
    }

    method PowerSet(dec: Decoder, cmd: Command) returns (msgType: MsgType, text: CString)
      requires Valid() && Shaped(cmd)
      modifies this`power
      ensures Valid()
      ensures old(Dispatch.PowerSet(dec, Dev(), cmd)) == Answer(Dev(), msgType, text)
    {
      var flag := dec.flag(Argument(cmd));
      if flag == None {
        return RESP_ERROR, MISSING_VALUE;
      }
      if flag.value {
        var _ := EnablePower();
      } else {
        var _ := DisablePower();
      }
      return RESP_ERROR, OK_TEXT;
    }

    method SleepSet(dec: Decoder, cmd: Command) returns (msgType: MsgType, text: CString)
      requires Valid() && Shaped(cmd)
      modifies this`power
      ensures Valid()
      ensures old(Dispatch.SleepSet(dec, Dev(), cmd)) == Answer(Dev(), msgType, text)
    {
      var flag := dec.flag(Argument(cmd));
      if flag == None {
        return RESP_ERROR, MISSING_VALUE;
      }
      if flag.value {
        var _ := DisablePower();
      }
      return RESP_ERROR, OK_TEXT;
    }

    method HandleSet(entry: nat, dec: Decoder, cmd: Command) returns (msgType: MsgType, text: CString)
      requires Valid() && Shaped(cmd) && cmd.msgType == SET && entry == FindDispatch(TextOf(cmd.key))
      modifies port, router.switches, this`power
      ensures Valid()
      ensures old(Handle(Cfg(), dec, Dev(), cmd)) == Answer(Dev(), msgType, text)
      ensures port.writes == old(port.writes) + Writes(Cfg(), dec, cmd)
      ensures Disjoint(router.Pairs()) && old(Quiet()) ==> Quiet()
    {
      match entry
      case 0 => msgType, text := MemsrouteSet(dec, cmd);
      case 1 =>
        SplitKeysNotInTable(TextOf(cmd.key));
        msgType, text := MemsSet(dec, cmd);
      case 2 => return RESP_ERROR, BAD_LASER_KEY;
      case 3 => msgType, text := PowerSet(dec, cmd);
      case 4 => return RESP_ERROR, BAD_LASER_KEY;
      case 5 => return RESP_ERROR, UNSUPPORTED_TEXT;
      case 6 => msgType, text := SleepSet(dec, cmd);
      case _ => return RESP_ERROR, UNKNOWN_TEXT;
    }

    method HandleGet(entry: nat, cmd: Command, ghost dec: Decoder) returns (msgType: MsgType, text: CString)
      requires Valid() && Shaped(cmd) && cmd.msgType != SET && entry == FindDispatch(TextOf(cmd.key))
      ensures Handle(Cfg(), dec, Dev(), cmd) == Answer(Dev(), msgType, text)
    {
      match entry
      case 0 => msgType, text := MemsrouteGet();
      case 1 => msgType, text := MemsGet(TextOf(cmd.key));
      case 2 => return RESP_ERROR, BAD_LASER_KEY;
      case 3 => return RESP_OK, PowerText(power);
      case 4 => return RESP_ERROR, BAD_ATTEN_KEY;
      case 5 => return RESP_OK, PowerText(power);
      case 6 => return RESP_ERROR, UNSUPPORTED_TEXT;
      case _ => return RESP_ERROR, UNKNOWN_TEXT;
    }

    /** `dispatch_command`. The reply and the new device are those of the sequential
        interpreter, and the pins stay quiet if none is shared. */
    method DispatchCommand(dec: Decoder, cmd: Command) returns (om: OutMsg)
      requires Valid() && Shaped(cmd)
      modifies port, router.switches, this`power
      ensures Valid()
      ensures om == old(Answered(Cfg(), dec, Dev(), cmd))
      ensures Dev() == old(Handle(Cfg(), dec, Dev(), cmd).device)
      ensures port.writes == old(port.writes) + Writes(Cfg(), dec, cmd)
      ensures Disjoint(router.Pairs()) && old(Quiet()) ==> Quiet()
    {
      var entry := FindDispatch(TextOf(cmd.key));
      var msgType, text;
      if cmd.msgType == SET {
        msgType, text := HandleSet(entry, dec, cmd);
      } else {
        msgType, text := HandleGet(entry, cmd, dec);
      }
      om := MsgBuilder(cmd, msgType, text);
    }
  }
}
