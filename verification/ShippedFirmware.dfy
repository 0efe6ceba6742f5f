/** The firmware with the shipped tables: what the general results say about it. */
module ShippedFirmware {
  import opened CText
  import opened Routing
  import opened Pins
  import opened Messages
  import opened KeyPairs
  import opened Dispatch
  import opened Receiving
  import opened Pipeline
  import opened Devices
  import RouteReport
  import CommandRuns
  import FirmwareRuns
  import PinRuns
  import PinTraces
  import PinProgress

  function Shipped(): Config {
    Config(SWITCH_NAMES, PIN_PAIRS, ROUTES)
  }

  function Start(): Device {
    Device(AllUnknown(8), false)
  }

  /** In whatever state the switches are, the route report is the exact list of the live
      routes and never the overflow error. */
  lemma ReportNeverOverflows(dev: Device)
    requires |dev.states| == 8
    ensures MemsrouteGet(Shipped(), dev) == Answer(dev, RESP_OK, RouteReport.Render(LiveNow(dev.states)))
  {
    ShippedListFits(dev.states);
  }

  lemma YjQuoteFree(i: nat)
    requires i < 8
    ensures '\"' !in YJ_ROUTES[i].key.input && '\"' !in YJ_ROUTES[i].key.output
  {
  }

  lemma HkQuoteFree(i: nat)
    requires i < 8
    ensures '\"' !in HK_ROUTES[i].key.input && '\"' !in HK_ROUTES[i].key.output
  {
  }

  lemma RouteNamesQuoteFree(i: nat)
    requires i < |ROUTES|
    ensures '\"' !in ROUTES[i].key.input && '\"' !in ROUTES[i].key.output
  {
    if i < 8 {
      YjQuoteFree(i);
    } else {
      HkQuoteFree(i - 8);
    }
  }

  /** And a reader of the report gets back exactly those routes. */
  lemma ReportReadsBack(dev: Device)
    requires |dev.states| == 8
    ensures RouteReport.ReadReport(MemsrouteGet(Shipped(), dev).text) == Some(LiveNow(dev.states))
  {
    var keys := LiveNow(dev.states);
    ReportNeverOverflows(dev);
    forall i | 0 <= i < |keys| ensures '\"' !in keys[i].input && '\"' !in keys[i].output {
      ListedIffLive(SWITCH_NAMES, dev.states, ROUTES, keys[i]);
      var r :| r in ROUTES && r.key == keys[i];
      var j :| 0 <= j < |ROUTES| && ROUTES[j] == r;
      RouteNamesQuoteFree(j);
    }
    RouteReport.ReadBack(keys);
  }

  /** So in every run of the firmware, behind any receiver, the overflow branch is out of
      reach. */
  lemma OverflowUnreachable(dec: Decoder, judge: Publication -> Verdict, steps: seq<Step>)
    requires Run(FirmwareWith(Shipped(), dec, judge, Start()), Init(FirmwareWith(Shipped(), dec, judge, Start())), steps)
    ensures var env := FirmwareWith(Shipped(), dec, judge, Start());
            var dev := After(env, Init(env), steps).device;
            |dev.states| == 8 && MemsrouteGet(Shipped(), dev).msgType == RESP_OK
  {
    var env := FirmwareWith(Shipped(), dec, judge, Start());
    var t := After(env, Init(env), steps);
    CommandRuns.SequentialRefinement(env, steps);
    FirmwareRuns.SwitchesStay(Shipped(), dec, judge, Start(), t.taken);
    ReportNeverOverflows(t.device);
  }

  /** In every run behind any receiver, whatever the threads do in between, no two control
      pins of the instrument are ever high at once, and between two dispatches all are low
      and each switch is recorded where it was pulsed last. The trace starts with the
      writes of the setup. */
  lemma ShippedHardwareAgreement(dec: Decoder, judge: Publication -> Verdict, trace: Trace, steps: seq<PinRuns.FineStep>)
    requires Settled(trace, PIN_PAIRS, AllUnknown(8))
    requires PinRuns.FineRun(Shipped(), dec, judge, Start(),
                             PinRuns.FineInit(FirmwareWith(Shipped(), dec, judge, Start()), trace), steps)
    ensures var env := FirmwareWith(Shipped(), dec, judge, Start());
            var g := PinRuns.FineAfter(Shipped(), dec, judge, Start(), PinRuns.FineInit(env, trace), steps);
            && NeverTwoHigh(g.trace)
            && (g.job == PinRuns.NoJob ==> Settled(g.trace, PIN_PAIRS, g.s.device.states))
  {
    PinsDisjoint();
    PinRuns.HardwareAgreement(Shipped(), dec, judge, Start(), trace, steps);
  }

  lemma ShippedRoutesFit()
    ensures PinProgress.RoutesFit(Shipped())
  {
    forall i | 0 <= i < |ROUTES| ensures |ROUTES[i].steps| <= MAX_ROUTE_PATH {
      RouteFits(i);
    }
  }

  /** The steps of a set request that names a route of the table. */
  lemma RequestedRoute(dec: Decoder, cmd: Command)
    requires Shaped(cmd) && dec.route(Argument(cmd)).Some?
    ensures var (input, output) := dec.route(Argument(cmd)).value;
            var k := FindRoute(ROUTES, input, output);
            k < |ROUTES| ==> RequestedSteps(Shipped(), dec, cmd) == (ROUTES[k].steps, "")
  {
  }

  lemma SetRouteListed(dec: Decoder, dev: Device, cmd: Command, k: nat)
    requires |dev.states| == 8 && Shaped(cmd) && k < |ROUTES|
    requires FindDispatch(TextOf(cmd.key)) == 0 && cmd.msgType == SET
    requires RequestedSteps(Shipped(), dec, cmd) == (ROUTES[k].steps, "")
    ensures var after := Handle(Shipped(), dec, dev, cmd).device;
            |after.states| == 8 && ROUTES[k].key in LiveNow(after.states)
  {
    var steps := ROUTES[k].steps;
    ShippedRouteSetThenListed(dev.states, k);
    assert steps[..|steps|] == steps;
    assert Handle(Shipped(), dec, dev, cmd) == SetRoute(Shipped(), dev, steps);
  }

  /** After commands of which the last sets a shipped route the route is listed. */
  lemma LastRequestListed(dec: Decoder, judge: Publication -> Verdict, cmds: seq<Command>, k: nat)
    requires cmds != [] && k < |ROUTES|
    requires var cmd := cmds[|cmds| - 1];
             && Shaped(cmd) && FindDispatch(TextOf(cmd.key)) == 0 && cmd.msgType == SET
             && RequestedSteps(Shipped(), dec, cmd) == (ROUTES[k].steps, "")
    ensures var states := CommandRuns.DeviceAfter(FirmwareWith(Shipped(), dec, judge, Start()), cmds).states;
            |states| == 8 && ROUTES[k].key in LiveNow(states)
  {
    var before := cmds[..|cmds| - 1];
    FirmwareRuns.SwitchesStay(Shipped(), dec, judge, Start(), before);
    SetRouteListed(dec, CommandRuns.DeviceAfter(FirmwareWith(Shipped(), dec, judge, Start()), before), cmds[|cmds| - 1], k);
  }

  /** From request to pins to report. Behind any receiver, requests that it accepts, the
      last of them to set a shipped route, are carried out by some run; at its end exactly
      their pulses have been written, all control pins are low, and the route report lists
      the route. */
  lemma RequestedRouteIsSet(dec: Decoder, judge: Publication -> Verdict, before: Trace, pubs: seq<Publication>)
    returns (steps: seq<PinRuns.FineStep>)
    requires Settled(before, PIN_PAIRS, AllUnknown(8)) && pubs != []
    requires forall i :: 0 <= i < |pubs| ==> judge(pubs[i]).Accepted?
    requires var cmd := judge(pubs[|pubs| - 1]).cmd;
             && Shaped(cmd) && FindDispatch(TextOf(cmd.key)) == 0 && cmd.msgType == SET
             && dec.route(Argument(cmd)).Some?
             && FindRoute(ROUTES, dec.route(Argument(cmd)).value.0, dec.route(Argument(cmd)).value.1) < |ROUTES|
    ensures PinRuns.FineRun(Shipped(), dec, judge, Start(),
                            PinRuns.FineInit(FirmwareWith(Shipped(), dec, judge, Start()), before), steps)
    ensures var env := FirmwareWith(Shipped(), dec, judge, Start());
            var g := PinRuns.FineAfter(Shipped(), dec, judge, Start(), PinRuns.FineInit(env, before), steps);
            var (input, output) := dec.route(Argument(judge(pubs[|pubs| - 1]).cmd)).value;
            && g.trace == before + PinTraces.Written(Shipped(), dec, PinProgress.Commands(judge, pubs))
            && Settled(g.trace, PIN_PAIRS, g.s.device.states)
            && ROUTES[FindRoute(ROUTES, input, output)].key in LiveNow(g.s.device.states)
  {
    var cmds := PinProgress.Commands(judge, pubs);
    var cmd := cmds[|cmds| - 1];
    var (input, output) := dec.route(Argument(cmd)).value;
    ShippedRoutesFit();
    steps := PinProgress.EveryRequestCarriedOut(Shipped(), dec, judge, Start(), before, pubs);
    ShippedHardwareAgreement(dec, judge, before, steps);
    RequestedRoute(dec, cmd);
    LastRequestListed(dec, judge, cmds, FindRoute(ROUTES, input, output));
  }

  lemma NameLengths(k: nat)
    requires k < 8
    ensures |SWITCH_NAMES[k]| >= 15 <==> k in {4, 5}
    ensures '/' !in SWITCH_NAMES[k] && SWITCH_NAMES[k] != ""
  {
  }

  /** A handler for single switches parses the name into fifteen characters with their
      terminator. Of the shipped switches the two retro switches, with names of sixteen
      characters, cannot be addressed so; the others can. */
  lemma RetroSwitchesTooLong(device: CString, k: nat)
    requires k < 8 && '/' !in device && 0 < |device| < 15
    ensures var key: CString := device + "/" + SWITCH_NAMES[k];
            ParseKeyPair(key, 15, 15) == if k in {4, 5} then BadSetting(device) else Pair(device, SWITCH_NAMES[k])
  {
    var key: CString := device + "/" + SWITCH_NAMES[k];
    NameLengths(k);
    assert key == device + "/" + SWITCH_NAMES[k] + "";
    ParseOfJoin(device, SWITCH_NAMES[k], "", 15, 15);
  }
}
