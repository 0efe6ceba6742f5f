/** The shipped instrument: eight switches on sixteen pins, sixteen routes. */
module Devices {
  import opened CText
  import opened Routing
  import opened Pins
  import opened MemsSwitching
  import opened RouteReport
  import opened Messages

  const YJ_CAL_LASER: CString := "yj_cal_laser"
  const HK_CAL_LASER: CString := "hk_cal_laser"
  const YJ_AO_FEI: CString := "yj_ao_fei"
  const HK_AO_FEI: CString := "hk_ao_fei"
  const YJ_FORWARD_RETRO: CString := "yj_forward_retro"
  const HK_FORWARD_RETRO: CString := "hk_forward_retro"
  const YJ_MM_SM: CString := "yj_mm_sm"
  const HK_MM_SM: CString := "hk_mm_sm"

  const SWITCH_NAMES: seq<CString> := [
    YJ_CAL_LASER, HK_CAL_LASER, YJ_AO_FEI, HK_AO_FEI,
    YJ_FORWARD_RETRO, HK_FORWARD_RETRO, YJ_MM_SM, HK_MM_SM]

  const PIN_PAIRS: seq<PinPair> := [
    PinPair(0, 1), PinPair(2, 3), PinPair(4, 5), PinPair(6, 7),
    PinPair(8, 9), PinPair(10, 11), PinPair(12, 13), PinPair(14, 15)]

  const YJ_ROUTES: seq<Route> := [
    Route(RouteKey("yj_1430", "yj_ao"),
          [RouteStep(YJ_CAL_LASER, 'B'), RouteStep(YJ_FORWARD_RETRO, 'A'), RouteStep(YJ_AO_FEI, 'A')]),
    Route(RouteKey("yj_1430", "yj_fei"),
          [RouteStep(YJ_CAL_LASER, 'B'), RouteStep(YJ_FORWARD_RETRO, 'A'), RouteStep(YJ_AO_FEI, 'B')]),
    Route(RouteKey("yj_cal", "yj_ao"), [RouteStep(YJ_CAL_LASER, 'A'), RouteStep(YJ_AO_FEI, 'A')]),
    Route(RouteKey("yj_cal", "yj_fei"), [RouteStep(YJ_CAL_LASER, 'A'), RouteStep(YJ_AO_FEI, 'B')]),
    Route(RouteKey("yj_laser", "yj_ao"), [RouteStep(YJ_CAL_LASER, 'B'), RouteStep(YJ_AO_FEI, 'A')]),
    Route(RouteKey("yj_laser", "yj_fei"), [RouteStep(YJ_CAL_LASER, 'B'), RouteStep(YJ_AO_FEI, 'B')]),
    Route(RouteKey("yj_mm", "yj_pd"), [RouteStep(YJ_MM_SM, 'A')]),
    Route(RouteKey("yj_sm", "yj_pd"), [RouteStep(YJ_MM_SM, 'B')])]

  const HK_ROUTES: seq<Route> := [
    Route(RouteKey("hk_1430", "hk_ao"),
          [RouteStep(HK_CAL_LASER, 'B'), RouteStep(HK_FORWARD_RETRO, 'A'), RouteStep(HK_AO_FEI, 'A')]),
    Route(RouteKey("hk_1430", "hk_fei"),
          [RouteStep(HK_CAL_LASER, 'B'), RouteStep(HK_FORWARD_RETRO, 'A'), RouteStep(HK_AO_FEI, 'B')]),
    Route(RouteKey("hk_cal", "hk_ao"), [RouteStep(HK_CAL_LASER, 'A'), RouteStep(HK_AO_FEI, 'A')]),
    Route(RouteKey("hk_cal", "hk_fei"), [RouteStep(HK_CAL_LASER, 'A'), RouteStep(HK_AO_FEI, 'B')]),
    Route(RouteKey("hk_laser", "hk_ao"), [RouteStep(HK_CAL_LASER, 'B'), RouteStep(HK_AO_FEI, 'A')]),
    Route(RouteKey("hk_laser", "hk_fei"), [RouteStep(HK_CAL_LASER, 'B'), RouteStep(HK_AO_FEI, 'B')]),
    Route(RouteKey("hk_mm", "hk_pd"), [RouteStep(HK_MM_SM, 'A')]),
    Route(RouteKey("hk_sm", "hk_pd"), [RouteStep(HK_MM_SM, 'B')])]

  const ROUTES: seq<Route> := YJ_ROUTES + HK_ROUTES

  /** What one half of the table looks like for the switches at these four positions. */
  datatype Side = Side(cal: nat, ao: nat, retro: nat, mm: nat)

  const YJ: Side := Side(0, 2, 4, 6)
  const HK: Side := Side(1, 3, 5, 7)

  lemma NameOf(k: nat)
    requires k < 8
    ensures FindSwitch(SWITCH_NAMES, SWITCH_NAMES[k]) == k
  {
    var n := SWITCH_NAMES[k];
    assert |YJ_CAL_LASER| == |HK_CAL_LASER| == 12 && YJ_CAL_LASER[0] == 'y' && HK_CAL_LASER[0] == 'h';
    assert |YJ_AO_FEI| == |HK_AO_FEI| == 9 && YJ_AO_FEI[0] == 'y' && HK_AO_FEI[0] == 'h';
    assert |YJ_FORWARD_RETRO| == |HK_FORWARD_RETRO| == 16 && YJ_FORWARD_RETRO[0] == 'y' && HK_FORWARD_RETRO[0] == 'h';
    assert |YJ_MM_SM| == |HK_MM_SM| == 8 && YJ_MM_SM[0] == 'y' && HK_MM_SM[0] == 'h';
    forall j | 0 <= j < k ensures !SameName(SWITCH_NAMES[j], n) {
      var m := SWITCH_NAMES[j];
      assert |m| != |n| || m[0] != n[0];
      assert Clip(m, NAME_LEN) == m && Clip(n, NAME_LEN) == n;
    }
    FindSwitchIs(SWITCH_NAMES, n, k);
  }

  // ---------- how long the list of live routes can get ----------

  /** The length of the text of a pair: two names, four quotes, a colon. */
  function PairLength(key: RouteKey): nat {
    |key.input| + |key.output| + 5
  }

  lemma PairTextLength(key: RouteKey)
    ensures |PairText(key)| == PairLength(key)
  {
  }

  /** The length of all pair texts of a list. */
  function Weight(keys: seq<RouteKey>): nat {
    if keys == [] then 0 else Weight(keys[..|keys| - 1]) + PairLength(keys[|keys| - 1])
  }

  lemma WeightSnoc(keys: seq<RouteKey>, key: RouteKey)
    ensures Weight(keys + [key]) == Weight(keys) + PairLength(key)
  {
    assert (keys + [key])[..|keys|] == keys;
  }

  lemma {:induction false} FlatLength(keys: seq<RouteKey>)
    ensures |Flat(Entries(keys))| == Weight(keys) + if keys == [] then 0 else |keys| - 1
  {
    if keys != [] {
      assert Entries(keys)[..|keys| - 1] == Entries(keys[..|keys| - 1]);
      FlatLength(keys[..|keys| - 1]);
      PairTextLength(keys[|keys| - 1]);
    }
  }

  lemma {:induction false} WeightAppend(a: seq<RouteKey>, b: seq<RouteKey>)
    ensures Weight(a + b) == Weight(a) + Weight(b)
  {
    if b == [] {
      assert a + b == a;
    } else {
      assert (a + b)[..|a + b| - 1] == a + b[..|b| - 1];
      WeightAppend(a, b[..|b| - 1]);
    }
  }

  /** Which routes of a half are live, read off the positions of its four switches. */
  predicate LiveAt(states: seq<char>, side: Side, i: nat)
    requires |states| == 8 && side.cal < 8 && side.ao < 8 && side.retro < 8 && side.mm < 8
  {
    match i
    case 0 => states[side.cal] == 'B' && states[side.retro] == 'A' && states[side.ao] == 'A'
    case 1 => states[side.cal] == 'B' && states[side.retro] == 'A' && states[side.ao] == 'B'
    case 2 => states[side.cal] == 'A' && states[side.ao] == 'A'
    case 3 => states[side.cal] == 'A' && states[side.ao] == 'B'
    case 4 => states[side.cal] == 'B' && states[side.ao] == 'A'
    case 5 => states[side.cal] == 'B' && states[side.ao] == 'B'
    case 6 => states[side.mm] == 'A'
    case 7 => states[side.mm] == 'B'
    case _ => false
  }

  /** The lengths of the eight pair texts of a half. */
  const PAIR_LENGTHS: seq<nat> := [17, 18, 16, 17, 18, 19, 15, 15]

  ghost predicate IsSide(states: seq<char>, routes: seq<Route>, side: Side)
    requires |states| == 8 && side.cal < 8 && side.ao < 8 && side.retro < 8 && side.mm < 8
  {
    && |routes| == 8
    && forall i :: 0 <= i < 8 ==>
      && (Live(SWITCH_NAMES, states, routes[i]) <==> LiveAt(states, side, i))
      && PairLength(routes[i].key) == PAIR_LENGTHS[i]
  }

  lemma LiveByName(states: seq<char>, route: Route)
    requires |states| == 8 && 1 <= |route.steps| <= 3
    ensures Live(SWITCH_NAMES, states, route) <==>
            && StepHolds(SWITCH_NAMES, states, route.steps[0])
            && (|route.steps| > 1 ==> StepHolds(SWITCH_NAMES, states, route.steps[1]))
            && (|route.steps| > 2 ==> StepHolds(SWITCH_NAMES, states, route.steps[2]))
  {
  }

  lemma YjLengths()
    ensures forall i :: 0 <= i < 8 ==> PairLength(YJ_ROUTES[i].key) == PAIR_LENGTHS[i]
  {
  }

  lemma YjLive(states: seq<char>, i: nat)
    requires |states| == 8 && i < 8
    ensures Live(SWITCH_NAMES, states, YJ_ROUTES[i]) <==> LiveAt(states, YJ, i)
  {
    NameOf(YJ.cal);
    NameOf(YJ.ao);
    NameOf(YJ.retro);
    NameOf(YJ.mm);
    LiveByName(states, YJ_ROUTES[i]);
  }

  lemma YjIsSide(states: seq<char>)
    requires |states| == 8
    ensures IsSide(states, YJ_ROUTES, YJ)
  {
    YjLengths();
    forall i | 0 <= i < 8 ensures Live(SWITCH_NAMES, states, YJ_ROUTES[i]) <==> LiveAt(states, YJ, i) {
      YjLive(states, i);
    }
  }

  lemma HkLengths()
    ensures forall i :: 0 <= i < 8 ==> PairLength(HK_ROUTES[i].key) == PAIR_LENGTHS[i]
  {
  }

  lemma HkLive(states: seq<char>, i: nat)
    requires |states| == 8 && i < 8
    ensures Live(SWITCH_NAMES, states, HK_ROUTES[i]) <==> LiveAt(states, HK, i)
  {
    NameOf(HK.cal);
    NameOf(HK.ao);
    NameOf(HK.retro);
    NameOf(HK.mm);
    LiveByName(states, HK_ROUTES[i]);
  }

  lemma HkIsSide(states: seq<char>)
    requires |states| == 8
    ensures IsSide(states, HK_ROUTES, HK)
  {
    HkLengths();
    forall i | 0 <= i < 8 ensures Live(SWITCH_NAMES, states, HK_ROUTES[i]) <==> LiveAt(states, HK, i) {
      HkLive(states, i);
    }
  }

  /** The number and weight of the live routes of a half, summed over the first n. */
  function CountAt(states: seq<char>, side: Side, n: nat): nat
    requires |states| == 8 && side.cal < 8 && side.ao < 8 && side.retro < 8 && side.mm < 8
  {
    if n == 0 then 0 else CountAt(states, side, n - 1) + if LiveAt(states, side, n - 1) then 1 else 0
  }

  function WeightAt(states: seq<char>, side: Side, n: nat): nat
    requires |states| == 8 && side.cal < 8 && side.ao < 8 && side.retro < 8 && side.mm < 8 && n <= 8
  {
    if n == 0 then 0
    else WeightAt(states, side, n - 1) + if LiveAt(states, side, n - 1) then PAIR_LENGTHS[n - 1] else 0
  }

  lemma TotalsStep(names: seq<CString>, states: seq<char>, routes: seq<Route>, n: nat, live: bool, length: nat)
    requires |names| == |states| && n < |routes|
    requires Live(names, states, routes[n]) == live && PairLength(routes[n].key) == length
    ensures var before, after := LiveKeys(names, states, routes[..n]), LiveKeys(names, states, routes[..n + 1]);
            && |after| == |before| + (if live then 1 else 0)
            && Weight(after) == Weight(before) + (if live then length else 0)
  {
    LiveKeysSnoc(names, states, routes, n);
    var before := LiveKeys(names, states, routes[..n]);
    WeightSnoc(before, routes[n].key);
    assert before + [] == before;
  }

  lemma {:induction false} SideTotals(states: seq<char>, routes: seq<Route>, side: Side, n: nat)
    requires |states| == 8 && side.cal < 8 && side.ao < 8 && side.retro < 8 && side.mm < 8
    requires IsSide(states, routes, side) && n <= 8
    ensures |LiveKeys(SWITCH_NAMES, states, routes[..n])| == CountAt(states, side, n)
    ensures Weight(LiveKeys(SWITCH_NAMES, states, routes[..n])) == WeightAt(states, side, n)
  {
    if n > 0 {
      SideTotals(states, routes, side, n - 1);
      TotalsStep(SWITCH_NAMES, states, routes, n - 1, LiveAt(states, side, n - 1), PAIR_LENGTHS[n - 1]);
    }
  }

  lemma Unroll(states: seq<char>, side: Side, n: nat)
    requires |states| == 8 && side.cal < 8 && side.ao < 8 && side.retro < 8 && side.mm < 8 && n + 2 <= 8
    ensures CountAt(states, side, n + 2) == CountAt(states, side, n) +
            (if LiveAt(states, side, n) then 1 else 0) + (if LiveAt(states, side, n + 1) then 1 else 0)
    ensures WeightAt(states, side, n + 2) == WeightAt(states, side, n) +
            (if LiveAt(states, side, n) then PAIR_LENGTHS[n] else 0) +
            (if LiveAt(states, side, n + 1) then PAIR_LENGTHS[n + 1] else 0)
  {
    assert CountAt(states, side, n + 1) == CountAt(states, side, n) + if LiveAt(states, side, n) then 1 else 0;
  }

  /** A half never has more than three live routes, and they are never longer than 52
      characters; with the light split and everything towards the back end both
      bounds are met. */
  lemma SideBound(states: seq<char>, side: Side)
    requires |states| == 8 && side.cal < 8 && side.ao < 8 && side.retro < 8 && side.mm < 8
    ensures CountAt(states, side, 8) <= 3 && WeightAt(states, side, 8) <= 52
    ensures states[side.cal] == 'B' && states[side.retro] == 'A' && states[side.ao] == 'B' && Settable(states[side.mm]) ==>
              CountAt(states, side, 8) == 3 && WeightAt(states, side, 8) == 52
  {
    Unroll(states, side, 0);
    Unroll(states, side, 2);
    Unroll(states, side, 4);
    Unroll(states, side, 6);
  }

  function LiveNow(states: seq<char>): seq<RouteKey>
    requires |states| == 8
  {
    LiveKeys(SWITCH_NAMES, states, ROUTES)
  }

  lemma LiveNowTotals(states: seq<char>)
    requires |states| == 8
    ensures |LiveNow(states)| == CountAt(states, YJ, 8) + CountAt(states, HK, 8)
    ensures Weight(LiveNow(states)) == WeightAt(states, YJ, 8) + WeightAt(states, HK, 8)
  {
    YjIsSide(states);
    HkIsSide(states);
    SideTotals(states, YJ_ROUTES, YJ, 8);
    SideTotals(states, HK_ROUTES, HK, 8);
    assert YJ_ROUTES[..8] == YJ_ROUTES && HK_ROUTES[..8] == HK_ROUTES;
    LiveKeysAppend(SWITCH_NAMES, states, YJ_ROUTES, HK_ROUTES);
    WeightAppend(LiveKeys(SWITCH_NAMES, states, YJ_ROUTES), LiveKeys(SWITCH_NAMES, states, HK_ROUTES));
  }

  /** In every state the switches can be in, at most six routes are live, the constant
      the header declares, and their list is at most 129 characters long: it always
      fits the payload. */
  lemma ShippedListFits(states: seq<char>)
    requires |states| == 8
    ensures |LiveNow(states)| <= MAX_ACTIVE_ROUTES
    ensures |Render(LiveNow(states))| <= 129 < MAX_PAYLOAD_LEN
    ensures FirstKeys(LiveNow(states), MAX_ROUTES) == LiveNow(states)
  {
    LiveNowTotals(states);
    SideBound(states, YJ);
    SideBound(states, HK);
    FlatLength(LiveNow(states));
  }

  /** Both bounds are met, for example with every splitter at 'B' and every retro
      switch at 'A', so neither can be lowered. */
  lemma ShippedListTight(states: seq<char>)
    requires states == "BBBBAAAA"
    ensures |LiveNow(states)| == MAX_ACTIVE_ROUTES && |Render(LiveNow(states))| == 129
  {
    LiveNowTotals(states);
    SideBound(states, YJ);
    SideBound(states, HK);
    FlatLength(LiveNow(states));
  }

  // ---------- the shipped wiring and routes ----------

  lemma PinsDisjoint()
    ensures Disjoint(PIN_PAIRS) && |PIN_PAIRS| == |SWITCH_NAMES| == 8
  {
  }

  /** A step of the table that names the switch at position k. */
  lemma StepOkAt(step: RouteStep, k: nat)
    requires k < 8 && step.switchName == SWITCH_NAMES[k] && Settable(step.state)
    ensures StepOk(SWITCH_NAMES, step) && FindSwitch(SWITCH_NAMES, step.switchName) == k
  {
    NameOf(k);
  }

  /** The positions of the switches a route of one half names. */
  ghost predicate StepsAt(route: Route, side: Side)
    requires side.cal < 8 && side.ao < 8 && side.retro < 8 && side.mm < 8
  {
    var at := (k: nat) => if k < 8 then SWITCH_NAMES[k] else "";
    forall j :: 0 <= j < |route.steps| ==>
      && Settable(route.steps[j].state)
      && (if |route.steps| == 1 then route.steps[j].switchName == at(side.mm)
          else if j == 0 then route.steps[j].switchName == at(side.cal)
          else if j == |route.steps| - 1 then route.steps[j].switchName == at(side.ao)
          else route.steps[j].switchName == at(side.retro))
  }

  /** Which position of the switch table step j of n steps names. */
  function StepAt(side: Side, n: nat, j: nat): nat {
    if n == 1 then side.mm else if j == 0 then side.cal else if j == n - 1 then side.ao else side.retro
  }

  lemma SideStep(route: Route, side: Side, j: nat)
    requires side == YJ || side == HK
    requires StepsAt(route, side) && j < |route.steps|
    ensures StepOk(SWITCH_NAMES, route.steps[j])
    ensures FindSwitch(SWITCH_NAMES, route.steps[j].switchName) == StepAt(side, |route.steps|, j)
  {
    StepOkAt(route.steps[j], StepAt(side, |route.steps|, j));
  }

  lemma SideStepsOk(route: Route, side: Side)
    requires side == YJ || side == HK
    requires StepsAt(route, side)
    ensures GoodSteps(SWITCH_NAMES, route.steps) == |route.steps|
  {
    forall j | 0 <= j < |route.steps| ensures StepOk(SWITCH_NAMES, route.steps[j]) {
      SideStep(route, side, j);
    }
    GoodStepsIs(SWITCH_NAMES, route.steps, |route.steps|);
  }

  /** No route names a switch twice. */
  lemma SideStepsConsistent(route: Route, side: Side)
    requires side == YJ || side == HK
    requires 1 <= |route.steps| <= 3 && StepsAt(route, side)
    ensures Consistent(SWITCH_NAMES, route.steps)
  {
    forall i, j | 0 <= i < |route.steps| && 0 <= j < |route.steps|
      ensures !Clash(SWITCH_NAMES, route.steps[i], route.steps[j])
    {
      SideStep(route, side, i);
      SideStep(route, side, j);
    }
  }

  lemma YjStepsAt(i: nat)
    requires i < 8
    ensures 1 <= |YJ_ROUTES[i].steps| <= 3 && StepsAt(YJ_ROUTES[i], YJ)
  {
  }

  lemma HkStepsAt(i: nat)
    requires i < 8
    ensures 1 <= |HK_ROUTES[i].steps| <= 3 && StepsAt(HK_ROUTES[i], HK)
  {
  }

  /** Every route of the table can always be set, and is then in the list. */
  lemma ShippedRouteSetThenListed(states: seq<char>, i: nat)
    requires |states| == 8 && i < |ROUTES|
    ensures GoodSteps(SWITCH_NAMES, ROUTES[i].steps) == |ROUTES[i].steps|
    ensures ROUTES[i].key in FirstKeys(LiveNow(Applied(SWITCH_NAMES, states, ROUTES[i].steps)), MAX_ROUTES)
  {
    if i < 8 {
      YjStepsAt(i);
      SideStepsOk(YJ_ROUTES[i], YJ);
      SideStepsConsistent(YJ_ROUTES[i], YJ);
    } else {
      HkStepsAt(i - 8);
      SideStepsOk(HK_ROUTES[i - 8], HK);
      SideStepsConsistent(HK_ROUTES[i - 8], HK);
    }
    SetThenListed(SWITCH_NAMES, states, ROUTES, ROUTES[i], MAX_ROUTES);
  }

  /** Neither half uses a key twice. */
  lemma SideKeysUnique(routes: seq<Route>)
    requires routes == YJ_ROUTES || routes == HK_ROUTES
    ensures KeysUnique(routes)
  {
  }

  lemma ShippedKeysUnique()
    ensures KeysUnique(ROUTES)
  {
    SideKeysUnique(YJ_ROUTES);
    SideKeysUnique(HK_ROUTES);
    forall i, j | 0 <= i < 8 <= j < 16 ensures ROUTES[i].key != ROUTES[j].key {
      assert ROUTES[i].key.input[0] == 'y' && ROUTES[j].key.input[0] == 'h';
    }
  }

  /** Of the shipped routes no two that disagree on a switch are ever both listed. */
  lemma ShippedClashesNotListed(states: seq<char>, a: Route, b: Route, i: nat, j: nat)
    requires |states| == 8 && a in ROUTES && b in ROUTES
    requires i < |a.steps| && j < |b.steps| && Clash(SWITCH_NAMES, a.steps[i], b.steps[j])
    ensures !(a.key in LiveNow(states) && b.key in LiveNow(states))
  {
    ShippedKeysUnique();
    ClashingRoutesNotBothListed(SWITCH_NAMES, states, ROUTES, a, b, i, j);
  }

  // ---------- the tables in other words ----------

  /** Switch k hangs on pins 2k and 2k + 1. */
  lemma PinsOf(k: nat)
    requires k < 8
    ensures PIN_PAIRS[k] == PinPair(2 * k, 2 * k + 1)
  {
  }

  /** The inputs and outputs of one half, without the prefix that names the half. */
  const INPUTS: seq<CString> := ["_1430", "_1430", "_cal", "_cal", "_laser", "_laser", "_mm", "_sm"]
  const OUTPUTS: seq<CString> := ["_ao", "_fei", "_ao", "_fei", "_ao", "_fei", "_pd", "_pd"]

  /** The two halves define the same eight routes. */
  lemma YjKeys(i: nat)
    requires i < 8
    ensures YJ_ROUTES[i].key == RouteKey("yj" + INPUTS[i], "yj" + OUTPUTS[i])
  {
  }

  lemma HkKeys(i: nat)
    requires i < 8
    ensures HK_ROUTES[i].key == RouteKey("hk" + INPUTS[i], "hk" + OUTPUTS[i])
  {
  }

  /** The pins that setting the routes of the first half pulses, in their order; those of
      the second half are each two further on. */
  const ROUTE_PINS: seq<seq<nat>> := [[1, 8, 4], [1, 8, 5], [0, 4], [0, 5], [1, 4], [1, 5], [12], [13]]

  /** The pin a step of the table pulses. */
  function StepPin(step: RouteStep): nat {
    var k := FindSwitch(SWITCH_NAMES, step.switchName);
    if k < 8 then PinFor(PIN_PAIRS[k], step.state) else 0
  }

  lemma StepPinIs(step: RouteStep, k: nat)
    requires k < 8 && step.switchName == SWITCH_NAMES[k]
    ensures StepPin(step) == if step.state == 'A' then 2 * k else 2 * k + 1
  {
    NameOf(k);
    PinsOf(k);
  }

  lemma YjPins(i: nat, j: nat)
    requires i < 8 && j < |YJ_ROUTES[i].steps|
    ensures |ROUTE_PINS[i]| == |YJ_ROUTES[i].steps| && StepPin(YJ_ROUTES[i].steps[j]) == ROUTE_PINS[i][j]
  {
    StepPinIs(YJ_ROUTES[i].steps[j], if i > 5 then 6 else if j == 0 then 0 else if i < 2 && j == 1 then 4 else 2);
  }

  lemma HkPins(i: nat, j: nat)
    requires i < 8 && j < |HK_ROUTES[i].steps|
    ensures |ROUTE_PINS[i]| == |HK_ROUTES[i].steps| && StepPin(HK_ROUTES[i].steps[j]) == ROUTE_PINS[i][j] + 2
  {
    StepPinIs(HK_ROUTES[i].steps[j], if i > 5 then 7 else if j == 0 then 1 else if i < 2 && j == 1 then 5 else 3);
  }

  // ---------- setup ----------

  function AllUnknown(n: nat): (states: seq<char>)
    ensures |states| == n && forall k :: 0 <= k < n ==> states[k] == 'U'
  {
    seq(n, _ => 'U')
  }

  /** The object stands for the switch at position i of the tables. */
  ghost predicate IsSwitch(sw: MemsSwitch, port: Expander, i: nat)
    reads sw
    requires i < 8
  {
    sw.port == port && sw.name == SWITCH_NAMES[i] && sw.Pair() == PIN_PAIRS[i] && sw.state == 'U'
  }

  ghost predicate QuietPort(port: Expander)
    reads port
  {
    Settled(port.writes, PIN_PAIRS, AllUnknown(8))
  }

  lemma NameFits(i: nat)
    requires i < 8
    ensures Clip(SWITCH_NAMES[i], NAME_LEN - 1) == SWITCH_NAMES[i]
  {
  }

  method SetupSwitch(port: Expander, i: nat) returns (sw: MemsSwitch)
    requires i < 8 && QuietPort(port)
    modifies port
    ensures fresh(sw) && IsSwitch(sw, port, i) && QuietPort(port)
  {
    ghost var before := port.writes;
    sw := new MemsSwitch(port, PIN_PAIRS[i].a, PIN_PAIRS[i].b, SWITCH_NAMES[i]);
    NameFits(i);
    LowKeepsSettled(before, PIN_PAIRS, AllUnknown(8), PIN_PAIRS[i].a);
    LowKeepsSettled(before + [PinWrite(PIN_PAIRS[i].a, false)], PIN_PAIRS, AllUnknown(8), PIN_PAIRS[i].b);
  }

  lemma QuietAtStart()
    ensures Settled([], PIN_PAIRS, AllUnknown(8))
  {
  }

  /** The first part of the setup: one switch object for each name, with its two pins
      driven low. */
  method SetupSwitches(port: Expander) returns (switches: seq<MemsSwitch>)
    requires port.writes == []
    modifies port
    ensures |switches| == 8 && fresh(switches)
    ensures forall i, j :: 0 <= i < j < 8 ==> switches[i] != switches[j]
    ensures forall i :: 0 <= i < 8 ==> IsSwitch(switches[i], port, i)
    ensures QuietPort(port)
  {
    switches := [];
    QuietAtStart();
    var i := 0;
    while i < 8
      invariant 0 <= i <= 8 && |switches| == i && fresh(switches)
      invariant forall j, k :: 0 <= j < k < i ==> switches[j] != switches[k]
      invariant forall j :: 0 <= j < i ==> IsSwitch(switches[j], port, j)
      invariant QuietPort(port)
    {
      var sw := SetupSwitch(port, i);
      switches := switches + [sw];
      i := i + 1;
    }
  }

  lemma RouteFits(i: nat)
    requires i < |ROUTES|
    ensures 1 <= |ROUTES[i].steps| <= MAX_ROUTE_PATH
  {
    if i < 8 {
      YjStepsAt(i);
    } else {
      HkStepsAt(i - 8);
    }
  }

  /** One call of `mems_router_define_route` for the route at position i of the table. */
  method DefineTableRoute(router: MemsRouter, i: nat)
    requires router.Valid() && i < |ROUTES| && router.numRoutes == i
    modifies router`numRoutes, router.routes
    ensures router.Valid() && router.Routes() == old(router.Routes()) + [ROUTES[i]]
  {
    var route := ROUTES[i];
    RouteFits(i);
    var _ := router.DefineRoute(Some(route.key.input), Some(route.key.output), Some(route.steps), |route.steps|);
    assert route.steps[..|route.steps|] == route.steps;
  }

  lemma TablePrefix(i: nat)
    requires i < |ROUTES|
    ensures ROUTES[..i + 1] == ROUTES[..i] + [ROUTES[i]]
  {
  }

  lemma SwitchViews(router: MemsRouter, port: Expander)
    requires |router.switches| == 8
    requires forall i :: 0 <= i < 8 ==> IsSwitch(router.switches[i], port, i)
    ensures router.Names() == SWITCH_NAMES && router.Pairs() == PIN_PAIRS && router.States() == AllUnknown(8)
  {
  }

  /** The rest: the router, and its routes in the order of the table. With the port not
      ready nothing is set up. */
  method Setup(port: Expander, ready: bool) returns (router: MemsRouter?)
    requires port.writes == []
    modifies port
    ensures !ready ==> router == null && port.writes == []
    ensures ready ==>
              && router != null && router.Valid()
              && router.Names() == SWITCH_NAMES && router.Pairs() == PIN_PAIRS && router.Routes() == ROUTES
              && router.States() == AllUnknown(8)
              && (forall i :: 0 <= i < |router.switches| ==> router.switches[i].port == port)
              && Settled(port.writes, router.Pairs(), router.States())
  {
    if !ready {
      return null;
    }
    var switches := SetupSwitches(port);
    var r := new MemsRouter(switches, 8);
    assert r.switches == switches;
    var i := 0;
    while i < |ROUTES|
      invariant 0 <= i <= |ROUTES| && r.Valid() && fresh(r) && fresh(r.routes)
      invariant r.numRoutes == i && r.Routes() == ROUTES[..i]
      invariant forall j :: 0 <= j < 8 ==> IsSwitch(switches[j], port, j)
      invariant QuietPort(port)
    {
      TablePrefix(i);
      DefineTableRoute(r, i);
      i := i + 1;
    }
    assert ROUTES[..i] == ROUTES;
    SwitchViews(r, port);
    return r;
  }
}
