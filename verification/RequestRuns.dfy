/** What a client gets for its requests in whole runs: each reply in terms of the topics and
    words of the publications, and of the requests carried out before. */
module RequestRuns {
  import opened CText
  import opened Routing
  import opened Messages
  import opened Dispatch
  import opened Receiving
  import opened Pipeline
  import opened CommandRuns
  import opened Answering
  import opened Requests
  import FirmwareRuns
  import JsonReader
  import PinTraces
  import RouteReport

  lemma {:induction false} RepliesAt(env: Env, cmds: seq<Command>, i: nat)
    requires i < |cmds|
    ensures RepliesTo(env, cmds)[i] == env.handle(DeviceAfter(env, cmds[..i]), cmds[i]).1
    ensures DeviceAfter(env, cmds[..i + 1]) == env.handle(DeviceAfter(env, cmds[..i]), cmds[i]).0
  {
    assert cmds[..i + 1][..i] == cmds[..i];
    var last := |cmds| - 1;
    if i < last {
      RepliesAt(env, cmds[..last], i);
      assert cmds[..last][..i] == cmds[..i] && cmds[..last][i] == cmds[i];
    }
  }

  /** The i-th reply of a run: the command it answers, and the device as the commands before
      leave it and as this one leaves it. */
  lemma ReplyAt(cfg: Config, dec: Decoder, judge: Publication -> Verdict, start: Device, steps: seq<Step>, i: nat)
    requires |cfg.names| == |cfg.pairs| == |start.states|
    requires Run(FirmwareWith(cfg, dec, judge, start), Init(FirmwareWith(cfg, dec, judge, start)), steps)
    ensures var env := FirmwareWith(cfg, dec, judge, start);
            var t := After(env, Init(env), steps);
            i < |AllReplies(t)| ==>
              && i < |t.taken| && t.taken <= t.accepted && |DeviceAfter(env, t.taken[..i]).states| == |cfg.names|
              && Handled(cfg, dec, judge, start, DeviceAfter(env, t.taken[..i]), t.taken[i]) ==
                 (DeviceAfter(env, t.taken[..i + 1]), AllReplies(t)[i])
  {
    var env := FirmwareWith(cfg, dec, judge, start);
    var t := After(env, Init(env), steps);
    SequentialRefinement(env, steps);
    if i < |AllReplies(t)| {
      FirmwareRuns.SwitchesStay(cfg, dec, judge, start, t.taken[..i]);
      RepliesAt(env, t.taken, i);
    }
  }

  /** In every run behind any receiver: the reply to a command that asks for "power" or
      "status" tells whether the commands carried out before it left the power line on. */
  lemma PowerRepliesInRuns(cfg: Config, dec: Decoder, judge: Publication -> Verdict, start: Device, steps: seq<Step>, i: nat)
    requires |cfg.names| == |cfg.pairs| == |start.states|
    requires Run(FirmwareWith(cfg, dec, judge, start), Init(FirmwareWith(cfg, dec, judge, start)), steps)
    ensures var env := FirmwareWith(cfg, dec, judge, start);
            var t := After(env, Init(env), steps);
            i < |AllReplies(t)| && i < |t.taken| && Shaped(t.taken[i]) && t.taken[i].msgType != SET && TextOf(t.taken[i].key) in {"power", "status"} ==>
              AllReplies(t)[i].msgType == RESP_OK &&
              TextOf(AllReplies(t)[i].payload) ==
                if LeaveOn(dec, start.power, t.taken[..i]) then "{\"power\":true}" else "{\"power\":false}"
  {
    var env := FirmwareWith(cfg, dec, judge, start);
    var t := After(env, Init(env), steps);
    ReplyAt(cfg, dec, judge, start, steps, i);
    if i < |AllReplies(t)| && i < |t.taken| && Shaped(t.taken[i]) && t.taken[i].msgType != SET && TextOf(t.taken[i].key) in {"power", "status"} {
      PowerTold(cfg, dec, judge, start, DeviceAfter(env, t.taken[..i]), t.taken[i]);
      PowerIsLeft(cfg, dec, judge, start, t.taken[..i]);
    }
  }

  /** In every run behind any receiver: the reply to a command that asks for "memsroute" is
      the JSON object of the routes that are live after the steps applied by the commands
      before it, as long as it fits and the names need no escapes. */
  lemma ReportsInRuns(cfg: Config, dec: Decoder, judge: Publication -> Verdict, start: Device, steps: seq<Step>, i: nat)
    requires |cfg.names| == |cfg.pairs| == |start.states| && |cfg.routes| <= 18
    requires Run(FirmwareWith(cfg, dec, judge, start), Init(FirmwareWith(cfg, dec, judge, start)), steps)
    ensures var env := FirmwareWith(cfg, dec, judge, start);
            var t := After(env, Init(env), steps);
            i < |AllReplies(t)| && i < |t.taken| && Shaped(t.taken[i]) && t.taken[i].msgType != SET && TextOf(t.taken[i].key) == "memsroute" ==>
              var om := AllReplies(t)[i];
              var live := LiveKeys(cfg.names, Applied(cfg.names, start.states, AppliedSteps(cfg, dec, t.taken[..i])), cfg.routes);
              && (|RouteReport.Render(live)| > 255 ==> Says(om, RESP_ERROR, "{\"error\":\"overflow building JSON\"}"))
              && (|RouteReport.Render(live)| <= 255 ==>
                    && om.msgType == RESP_OK
                    && (JsonReader.ReadDocument(TextOf(om.payload)) ==
                          Some(JsonReader.Object([("active_routes", JsonReader.Object(JsonReader.Pairs(live)))])) <==>
                        JsonReader.PlainKeys(live)))
  {
    var env := FirmwareWith(cfg, dec, judge, start);
    var t := After(env, Init(env), steps);
    ReplyAt(cfg, dec, judge, start, steps, i);
    if i < |AllReplies(t)| && i < |t.taken| && Shaped(t.taken[i]) && t.taken[i].msgType != SET && TextOf(t.taken[i].key) == "memsroute" {
      RoutesTold(cfg, dec, judge, start, DeviceAfter(env, t.taken[..i]), t.taken[i]);
      StatesAreApplied(cfg, dec, judge, start, t.taken[..i]);
      JsonReader.ReportIsJson(LiveKeys(cfg.names, DeviceAfter(env, t.taken[..i]).states, cfg.routes));
    }
  }

  lemma DeclinedOnce(cfg: Config, dec: Decoder, judge: Publication -> Verdict, start: Device, dev: Device, cmd: Command)
    requires Fits(cfg, dev, cmd)
    ensures var (after, om) := Handled(cfg, dec, judge, start, dev, cmd);
            var key := TextOf(cmd.key);
            && (key !in {"memsroute", "mems", "laser", "power", "atten", "status", "sleep"} ==>
                  after == dev && Says(om, RESP_ERROR, "{\"error\":\"Unknown request\"}"))
            && ((key == "status" && cmd.msgType == SET) || (key == "sleep" && cmd.msgType != SET) ==>
                  after == dev && Says(om, RESP_ERROR, "{\"error\":\"Unsupported operation\"}"))
            && (key == "mems" ==> after == dev && Says(om, RESP_ERROR, BAD_MEMS_KEY))
            && (key == "laser" || (key == "atten" && cmd.msgType == SET) ==> after == dev && Says(om, RESP_ERROR, BAD_LASER_KEY))
            && (key == "atten" && cmd.msgType != SET ==> after == dev && Says(om, RESP_ERROR, BAD_ATTEN_KEY))
  {
    var key := TextOf(cmd.key);
    if key !in {"memsroute", "mems", "laser", "power", "atten", "status", "sleep"} {
      UnknownKey(cfg, dec, judge, start, dev, cmd);
    } else if key in {"mems", "laser", "atten"} {
      BareKey(cfg, dec, judge, start, dev, cmd);
    } else if (key == "status" && cmd.msgType == SET) || (key == "sleep" && cmd.msgType != SET) {
      NotSupported(cfg, dec, judge, start, dev, cmd);
    }
  }

  /** In every run behind any receiver: what has no handler is answered so, and changes
      nothing. */
  lemma DeclinedInRuns(cfg: Config, dec: Decoder, judge: Publication -> Verdict, start: Device, steps: seq<Step>, i: nat)
    requires |cfg.names| == |cfg.pairs| == |start.states|
    requires Run(FirmwareWith(cfg, dec, judge, start), Init(FirmwareWith(cfg, dec, judge, start)), steps)
    ensures var env := FirmwareWith(cfg, dec, judge, start);
            var t := After(env, Init(env), steps);
            i < |AllReplies(t)| && i < |t.taken| && Shaped(t.taken[i]) ==>
              var key, om := TextOf(t.taken[i].key), AllReplies(t)[i];
              var same := DeviceAfter(env, t.taken[..i + 1]) == DeviceAfter(env, t.taken[..i]);
              && (key !in {"memsroute", "mems", "laser", "power", "atten", "status", "sleep"} ==>
                    same && Says(om, RESP_ERROR, "{\"error\":\"Unknown request\"}"))
              && ((key == "status" && t.taken[i].msgType == SET) || (key == "sleep" && t.taken[i].msgType != SET) ==>
                    same && Says(om, RESP_ERROR, "{\"error\":\"Unsupported operation\"}"))
              && (key == "mems" ==> same && Says(om, RESP_ERROR, BAD_MEMS_KEY))
              && (key == "laser" || (key == "atten" && t.taken[i].msgType == SET) ==> same && Says(om, RESP_ERROR, BAD_LASER_KEY))
              && (key == "atten" && t.taken[i].msgType != SET ==> same && Says(om, RESP_ERROR, BAD_ATTEN_KEY))
  {
    var env := FirmwareWith(cfg, dec, judge, start);
    var t := After(env, Init(env), steps);
    ReplyAt(cfg, dec, judge, start, steps, i);
    if i < |AllReplies(t)| && Shaped(t.taken[i]) {
      DeclinedOnce(cfg, dec, judge, start, DeviceAfter(env, t.taken[..i]), t.taken[i]);
    }
  }

  /** In every run behind any receiver: "power" and "sleep" are answered with an OK text when
      their flag decodes. */
  lemma FlagRepliesInRuns(cfg: Config, dec: Decoder, judge: Publication -> Verdict, start: Device, steps: seq<Step>, i: nat)
    requires |cfg.names| == |cfg.pairs| == |start.states|
    requires Run(FirmwareWith(cfg, dec, judge, start), Init(FirmwareWith(cfg, dec, judge, start)), steps)
    ensures var env := FirmwareWith(cfg, dec, judge, start);
            var t := After(env, Init(env), steps);
            i < |AllReplies(t)| && i < |t.taken| && Shaped(t.taken[i]) && t.taken[i].msgType == SET && TextOf(t.taken[i].key) in {"power", "sleep"} ==>
              Says(AllReplies(t)[i], RESP_ERROR,
                   if dec.flag(Argument(t.taken[i])) == None then "{\"error\":\"Missing setting value\"}" else "{\"status\":\"OK\"}")
  {
    var env := FirmwareWith(cfg, dec, judge, start);
    var t := After(env, Init(env), steps);
    ReplyAt(cfg, dec, judge, start, steps, i);
    if i < |AllReplies(t)| && Shaped(t.taken[i]) && t.taken[i].msgType == SET && TextOf(t.taken[i].key) in {"power", "sleep"} {
      PowerSwitched(cfg, dec, judge, start, DeviceAfter(env, t.taken[..i]), t.taken[i]);
    }
  }

  /** In every run behind any receiver: a set request for a route is answered with OK exactly
      if the route exists and all its steps were applied. */
  lemma RouteRepliesInRuns(cfg: Config, dec: Decoder, judge: Publication -> Verdict, start: Device, steps: seq<Step>, i: nat)
    requires |cfg.names| == |cfg.pairs| == |start.states|
    requires Run(FirmwareWith(cfg, dec, judge, start), Init(FirmwareWith(cfg, dec, judge, start)), steps)
    ensures var env := FirmwareWith(cfg, dec, judge, start);
            var t := After(env, Init(env), steps);
            i < |AllReplies(t)| && i < |t.taken| && Shaped(t.taken[i]) && t.taken[i].msgType == SET && TextOf(t.taken[i].key) == "memsroute" ==>
              var cmd, om := t.taken[i], AllReplies(t)[i];
              && (dec.route(Argument(cmd)) == None ==> Says(om, RESP_ERROR, BAD_ROUTE_JSON))
              && (dec.route(Argument(cmd)).Some? ==>
                    var (input, output) := dec.route(Argument(cmd)).value;
                    var k := FindRoute(cfg.routes, input, output);
                    && (k == |cfg.routes| ==> Says(om, RESP_ERROR, INVALID_ROUTE))
                    && (k < |cfg.routes| ==>
                          var route, n := cfg.routes[k].steps, |StepsOf(cfg, dec, cmd)|;
                          && n <= |route| && StepsOf(cfg, dec, cmd) == route[..n]
                          && (n == |route| ==> Says(om, RESP_OK, "{\"status\":\"OK\"}"))
                          && (n < |route| ==> !StepOk(cfg.names, route[n]) && Says(om, RESP_ERROR, StepRefusal(cfg, route[n])))))
  {
    var env := FirmwareWith(cfg, dec, judge, start);
    var t := After(env, Init(env), steps);
    ReplyAt(cfg, dec, judge, start, steps, i);
    if i < |AllReplies(t)| && Shaped(t.taken[i]) && t.taken[i].msgType == SET && TextOf(t.taken[i].key) == "memsroute" {
      var dev, cmd := DeviceAfter(env, t.taken[..i]), t.taken[i];
      NoRouteToSet(cfg, dec, judge, start, dev, cmd);
      if dec.route(Argument(cmd)).Some? {
        var (input, output) := dec.route(Argument(cmd)).value;
        if FindRoute(cfg.routes, input, output) < |cfg.routes| {
          RouteTold(cfg, dec, judge, start, dev, cmd, FindRoute(cfg.routes, input, output));
        }
      }
    }
  }

  // ---------- from publication to reply ----------

  lemma PublicationAnswered(cfg: Config, dec: Decoder, judge: Publication -> Verdict, start: Device,
                            dev: Device, pub: Publication, cmd: Command)
    requires Fits(cfg, dev, cmd) && Renders(dec, pub, cmd)
    ensures var (after, om) := Handled(cfg, dec, judge, start, dev, cmd);
            var gets := SpellsGet(WordOf(dec, pub));
            && (gets ==> after == dev && PinTraces.TakenWrites(cfg, dec, cmd) == [])
            && (gets && pub.topic in {"cmd/hsfib-tib/req/" + "power", "cmd/hsfib-tib/req/" + "status"} ==>
                  Says(om, RESP_OK, if dev.power then "{\"power\":true}" else "{\"power\":false}"))
            && (!gets && pub.topic == "cmd/hsfib-tib/req/" + "power" ==>
                  om.msgType == RESP_ERROR && (dec.flag(Argument(cmd)).Some? ==> after.power == dec.flag(Argument(cmd)).value))
  {
    assert forall key: string :: ("cmd/hsfib-tib/req/" + key)[18..] == key;
    if SpellsGet(WordOf(dec, pub)) {
      AskingIsHarmless(cfg, dec, judge, start, dev, cmd);
      if TextOf(cmd.key) in {"power", "status"} {
        PowerTold(cfg, dec, judge, start, dev, cmd);
      }
    } else if TextOf(cmd.key) == "power" {
      PowerSwitched(cfg, dec, judge, start, dev, cmd);
    }
  }

  /** In every run behind a receiver that copies as the coded one does: the i-th reply, by
      the topic and the word of the i-th accepted publication. One that spells "get" is
      answered as a question, changes nothing and writes no pin; one that spells "set"
      reaches the set handler. Any other word is refused (Requests.Verdicts). */
  lemma PublicationsAnswered(cfg: Config, dec: Decoder, judge: Publication -> Verdict, start: Device, steps: seq<Step>, i: nat)
    requires |cfg.names| == |cfg.pairs| == |start.states| && Copies(dec, judge)
    requires Run(FirmwareWith(cfg, dec, judge, start), Init(FirmwareWith(cfg, dec, judge, start)), steps)
    ensures var env := FirmwareWith(cfg, dec, judge, start);
            var t := After(env, Init(env), steps);
            i < |AllReplies(t)| ==>
              && i < |t.taken| && i < |t.requests| && Renders(dec, t.requests[i], t.taken[i])
              && var pub, om := t.requests[i], AllReplies(t)[i];
                 var gets := SpellsGet(WordOf(dec, pub));
                 && (gets || SpellsSet(WordOf(dec, pub)))
                 && (gets ==> DeviceAfter(env, t.taken[..i + 1]) == DeviceAfter(env, t.taken[..i])
                              && PinTraces.TakenWrites(cfg, dec, t.taken[i]) == [])
                 && (gets && pub.topic in {"cmd/hsfib-tib/req/" + "power", "cmd/hsfib-tib/req/" + "status"} ==>
                       Says(om, RESP_OK, if LeaveOn(dec, start.power, t.taken[..i]) then "{\"power\":true}" else "{\"power\":false}"))
                 && (!gets && pub.topic == "cmd/hsfib-tib/req/" + "power" ==>
                       && om.msgType == RESP_ERROR
                       && (dec.flag(Argument(t.taken[i])).Some? ==>
                             DeviceAfter(env, t.taken[..i + 1]).power == dec.flag(Argument(t.taken[i])).value))
  {
    var env := FirmwareWith(cfg, dec, judge, start);
    var t := After(env, Init(env), steps);
    ReplyAt(cfg, dec, judge, start, steps, i);
    CommandsRender(cfg, dec, judge, start, steps, i);
    if i < |AllReplies(t)| {
      assert t.accepted[i] == t.taken[i];
      PublicationAnswered(cfg, dec, judge, start, DeviceAfter(env, t.taken[..i]), t.requests[i], t.taken[i]);
      PowerIsLeft(cfg, dec, judge, start, t.taken[..i]);
    }
  }
}
