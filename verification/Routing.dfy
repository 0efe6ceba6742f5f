/** The routing table of the MEMS switches, as values: which switch a name denotes,
    what applying the steps of a route does to the recorded switch states, and which
    routes are live in given states. */
module Routing {
  import opened CText
  import opened Sequences

  const NAME_LEN: nat := 24
  const MAX_SWITCHES: nat := 8
  const MAX_ROUTES: nat := 18
  const MAX_ROUTE_PATH: nat := 5
  const MAX_ACTIVE_ROUTES: nat := 6

  datatype RouteStep = RouteStep(switchName: CString, state: char)
  datatype RouteKey = RouteKey(input: CString, output: CString)
  datatype Route = Route(key: RouteKey, steps: seq<RouteStep>)

  /** `strncmp(a, b, MEMS_SWITCH_NAME_LEN) == 0`. */
  predicate SameName(a: CString, b: CString) {
    Clip(a, NAME_LEN) == Clip(b, NAME_LEN)
  }

  /** The same text, or the same first 24 characters. */
  lemma SameNameMeans(a: CString, b: CString)
    ensures SameName(a, b) <==> a == b || (|a| >= 24 && |b| >= 24 && a[..24] == b[..24])
  {
    assert a[..|a|] == a && b[..|b|] == b;
  }

  /** The first switch with this name, |names| when there is none. */
  function FindSwitch(names: seq<CString>, name: CString): (k: nat)
    ensures k <= |names|
    ensures k < |names| ==> SameName(names[k], name)
    ensures forall j :: 0 <= j < k ==> !SameName(names[j], name)
  {
    if names == [] || SameName(names[0], name) then 0 else 1 + FindSwitch(names[1..], name)
  }

  lemma FindSwitchIs(names: seq<CString>, name: CString, k: nat)
    requires k <= |names|
    requires k < |names| ==> SameName(names[k], name)
    requires forall j :: 0 <= j < k ==> !SameName(names[j], name)
    ensures FindSwitch(names, name) == k
  {
  }

  predicate Settable(state: char) {
    state == 'A' || state == 'B'
  }

  // ---------- applying steps ----------

  /** The step names a switch of the router and asks for a position it has. */
  predicate StepOk(names: seq<CString>, step: RouteStep) {
    FindSwitch(names, step.switchName) < |names| && Settable(step.state)
  }

  /** How many leading steps can be applied; |steps| when all can. */
  function GoodSteps(names: seq<CString>, steps: seq<RouteStep>): (n: nat)
    ensures n <= |steps|
    ensures forall i :: 0 <= i < n ==> StepOk(names, steps[i])
    ensures n < |steps| ==> !StepOk(names, steps[n])
  {
    if steps == [] || !StepOk(names, steps[0]) then 0 else 1 + GoodSteps(names, steps[1..])
  }

  lemma GoodStepsIs(names: seq<CString>, steps: seq<RouteStep>, n: nat)
    requires n <= |steps|
    requires forall i :: 0 <= i < n ==> StepOk(names, steps[i])
    requires n < |steps| ==> !StepOk(names, steps[n])
    ensures GoodSteps(names, steps) == n
  {
  }

  /** The recorded states after the steps, oldest first. */
  function Applied(names: seq<CString>, states: seq<char>, steps: seq<RouteStep>): (after: seq<char>)
    requires |names| == |states|
    ensures |after| == |states|
  {
    if steps == [] then states
    else
      var last := |steps| - 1;
      var before := Applied(names, states, steps[..last]);
      var k := FindSwitch(names, steps[last].switchName);
      if k < |names| then before[k := steps[last].state] else before
  }

  lemma AppliedSnoc(names: seq<CString>, states: seq<char>, steps: seq<RouteStep>, step: RouteStep)
    requires |names| == |states|
    ensures var k := FindSwitch(names, step.switchName);
            var before := Applied(names, states, steps);
            Applied(names, states, steps + [step]) == if k < |names| then before[k := step.state] else before
  {
    assert (steps + [step])[..|steps|] == steps;
  }

  /** One step more at the end, when the steps before are split at the front. */
  lemma AppliedOneMore(names: seq<CString>, states: seq<char>, step: RouteStep, front: seq<RouteStep>, last: RouteStep)
    requires |names| == |states|
    requires Applied(names, states, [step] + front) == Applied(names, Applied(names, states, [step]), front)
    ensures Applied(names, states, [step] + (front + [last])) ==
            Applied(names, Applied(names, states, [step]), front + [last])
  {
    assert [step] + (front + [last]) == ([step] + front) + [last];
    AppliedSnoc(names, states, [step] + front, last);
    AppliedSnoc(names, Applied(names, states, [step]), front, last);
  }

  /** Applying steps one by one from the front comes to the same. */
  lemma {:induction false} AppliedFront(names: seq<CString>, states: seq<char>, step: RouteStep, rest: seq<RouteStep>)
    requires |names| == |states|
    ensures Applied(names, states, [step] + rest) == Applied(names, Applied(names, states, [step]), rest)
  {
    if rest == [] {
      assert [step] + rest == [step];
    } else {
      var front, last := rest[..|rest| - 1], rest[|rest| - 1];
      AppliedFront(names, states, step, front);
      AppliedOneMore(names, states, step, front, last);
      assert rest == front + [last];
    }
  }

  /** The same for the first n of the steps. */
  lemma AppliedFirst(names: seq<CString>, states: seq<char>, steps: seq<RouteStep>, n: nat)
    requires |names| == |states| && 0 < n <= |steps| && FindSwitch(names, steps[0].switchName) < |names|
    ensures Applied(names, states, steps[..n]) ==
            Applied(names, states[FindSwitch(names, steps[0].switchName) := steps[0].state], steps[1..][..n - 1])
  {
    assert steps[..n] == [steps[0]] + steps[1..][..n - 1];
    AppliedFront(names, states, steps[0], steps[1..][..n - 1]);
    AppliedSnoc(names, states, [], steps[0]);
    assert [] + [steps[0]] == [steps[0]];
  }

  lemma GoodStepsFront(names: seq<CString>, steps: seq<RouteStep>)
    requires steps != []
    ensures GoodSteps(names, steps) == if StepOk(names, steps[0]) then 1 + GoodSteps(names, steps[1..]) else 0
  {
  }

  /** Step i is the last one that names switch k. */
  ghost predicate LastNaming(names: seq<CString>, steps: seq<RouteStep>, i: nat, k: nat) {
    && i < |steps| && FindSwitch(names, steps[i].switchName) == k
    && forall j :: i < j < |steps| ==> FindSwitch(names, steps[j].switchName) != k
  }

  ghost predicate NeverNamed(names: seq<CString>, steps: seq<RouteStep>, k: nat) {
    forall j :: 0 <= j < |steps| ==> FindSwitch(names, steps[j].switchName) != k
  }

  /** After the steps every named switch is in the position of the last step naming it. */
  lemma {:induction false} AppliedIsLastNaming(names: seq<CString>, states: seq<char>, steps: seq<RouteStep>, i: nat, k: nat)
    requires |names| == |states| && k < |names| && LastNaming(names, steps, i, k)
    ensures Applied(names, states, steps)[k] == steps[i].state
  {
    var last := |steps| - 1;
    if i < last {
      assert steps[..last][i] == steps[i];
      AppliedIsLastNaming(names, states, steps[..last], i, k);
    }
  }

  /** A switch no step names has not moved. */
  lemma {:induction false} AppliedElsewhere(names: seq<CString>, states: seq<char>, steps: seq<RouteStep>, k: nat)
    requires |names| == |states| && k < |names| && NeverNamed(names, steps, k)
    ensures Applied(names, states, steps)[k] == states[k]
  {
    if steps != [] {
      AppliedElsewhere(names, states, steps[..|steps| - 1], k);
    }
  }

  lemma {:induction false} SomeLastNaming(names: seq<CString>, steps: seq<RouteStep>, i: nat) returns (m: nat)
    requires i < |steps|
    ensures i <= m && LastNaming(names, steps, m, FindSwitch(names, steps[i].switchName))
    decreases |steps| - i
  {
    var k := FindSwitch(names, steps[i].switchName);
    if j :| i < j < |steps| && FindSwitch(names, steps[j].switchName) == k {
      m := SomeLastNaming(names, steps, j);
    } else {
      m := i;
    }
  }

  // ---------- live routes ----------

  predicate StepHolds(names: seq<CString>, states: seq<char>, step: RouteStep)
    requires |names| == |states|
  {
    var k := FindSwitch(names, step.switchName);
    k < |names| && states[k] == step.state
  }

  predicate Live(names: seq<CString>, states: seq<char>, route: Route)
    requires |names| == |states|
  {
    forall j :: 0 <= j < |route.steps| ==> StepHolds(names, states, route.steps[j])
  }

  /** The keys of the live routes, in definition order. */
  function LiveKeys(names: seq<CString>, states: seq<char>, routes: seq<Route>): (keys: seq<RouteKey>)
    requires |names| == |states|
    ensures |keys| <= |routes|
  {
    if routes == [] then []
    else
      var last := |routes| - 1;
      var before := LiveKeys(names, states, routes[..last]);
      if Live(names, states, routes[last]) then before + [routes[last].key] else before
  }

  /** A router lists no more than max routes: the first ones, in definition order. */
  function FirstKeys(keys: seq<RouteKey>, max: nat): seq<RouteKey> {
    keys[..Min(|keys|, max)]
  }

  lemma {:induction false} LiveKeysAppend(names: seq<CString>, states: seq<char>, a: seq<Route>, b: seq<Route>)
    requires |names| == |states|
    ensures LiveKeys(names, states, a + b) == LiveKeys(names, states, a) + LiveKeys(names, states, b)
  {
    if b == [] {
      assert a + b == a;
    } else {
      var last := |b| - 1;
      assert (a + b)[..|a + b| - 1] == a + b[..last];
      LiveKeysAppend(names, states, a, b[..last]);
    }
  }

  lemma LiveKeysSnoc(names: seq<CString>, states: seq<char>, routes: seq<Route>, i: nat)
    requires |names| == |states| && i < |routes|
    ensures LiveKeys(names, states, routes[..i + 1]) ==
            LiveKeys(names, states, routes[..i]) + if Live(names, states, routes[i]) then [routes[i].key] else []
  {
    assert routes[..i + 1][..i] == routes[..i];
  }

  /** A route is live when every step finds its switch where it wants it. */
  lemma LiveMeans(names: seq<CString>, states: seq<char>, route: Route)
    requires |names| == |states|
    ensures Live(names, states, route) <==>
            forall m :: 0 <= m < |route.steps| ==>
              var k := FindSwitch(names, route.steps[m].switchName); k < |names| && states[k] == route.steps[m].state
  {
  }

  lemma IncreasingSnoc(at: seq<nat>, n: nat)
    requires Increasing(at) && forall i :: 0 <= i < |at| ==> at[i] < n
    ensures Increasing(at + [n])
  {
  }

  lemma OneMorePosition(before: seq<nat>, last: nat, j: nat, keep: bool)
    requires forall i :: 0 <= i < |before| ==> before[i] < last
    ensures j != last ==> (j in (if keep then before + [last] else before) <==> j in before)
    ensures last in (if keep then before + [last] else before) <==> keep
  {
  }

  /** The positions of the live routes in the table. */
  function LivePositions(names: seq<CString>, states: seq<char>, routes: seq<Route>): (at: seq<nat>)
    requires |names| == |states|
    ensures forall i :: 0 <= i < |at| ==> at[i] < |routes|
  {
    if routes == [] then []
    else
      var last := |routes| - 1;
      var before := LivePositions(names, states, routes[..last]);
      if Live(names, states, routes[last]) then before + [last] else before
  }

  lemma {:induction false} LivePositionsExact(names: seq<CString>, states: seq<char>, routes: seq<Route>, j: nat)
    requires |names| == |states| && j < |routes|
    ensures j in LivePositions(names, states, routes) <==> Live(names, states, routes[j])
  {
    var last := |routes| - 1;
    OneMorePosition(LivePositions(names, states, routes[..last]), last, j, Live(names, states, routes[last]));
    if j < last {
      LivePositionsExact(names, states, routes[..last], j);
    }
  }

  /** The list holds the keys of exactly these routes, in the order of the table. */
  lemma {:induction false} LiveKeysInOrder(names: seq<CString>, states: seq<char>, routes: seq<Route>)
    requires |names| == |states|
    ensures var at, keys := LivePositions(names, states, routes), LiveKeys(names, states, routes);
            |at| == |keys| && Increasing(at) && forall i :: 0 <= i < |at| ==> keys[i] == routes[at[i]].key
  {
    if routes != [] {
      var last := |routes| - 1;
      LiveKeysInOrder(names, states, routes[..last]);
      IncreasingSnoc(LivePositions(names, states, routes[..last]), last);
    }
  }

  /** A scan that stops at the end of the table or when the caller's array is full has
      found the first keys of the whole list. */
  lemma ScanIsFirstKeys(names: seq<CString>, states: seq<char>, routes: seq<Route>, i: nat, max: nat)
    requires |names| == |states| && i <= |routes|
    requires |LiveKeys(names, states, routes[..i])| <= max
    requires i == |routes| || |LiveKeys(names, states, routes[..i])| == max
    ensures LiveKeys(names, states, routes[..i]) == FirstKeys(LiveKeys(names, states, routes), max)
  {
    assert routes[..i] + routes[i..] == routes;
    LiveKeysAppend(names, states, routes[..i], routes[i..]);
  }

  /** A key is listed exactly when some route with that key is live. */
  lemma {:induction false} ListedIffLive(names: seq<CString>, states: seq<char>, routes: seq<Route>, key: RouteKey)
    requires |names| == |states|
    ensures key in LiveKeys(names, states, routes) <==>
            exists r :: r in routes && r.key == key && Live(names, states, r)
  {
    if routes != [] {
      var last := |routes| - 1;
      ListedIffLive(names, states, routes[..last], key);
      assert routes == routes[..last] + [routes[last]];
    }
  }

  /** Two steps ask the same switch for different positions. */
  predicate Clash(names: seq<CString>, a: RouteStep, b: RouteStep) {
    FindSwitch(names, a.switchName) == FindSwitch(names, b.switchName) && a.state != b.state
  }

  /** Steps that never ask the same switch for different positions. */
  predicate Consistent(names: seq<CString>, steps: seq<RouteStep>) {
    forall i, j :: 0 <= i < |steps| && 0 <= j < |steps| ==> !Clash(names, steps[i], steps[j])
  }

  /** A route that asks for no more than a live route asks for is live too, and so
      both keys are listed. */
  lemma SubrouteListed(names: seq<CString>, states: seq<char>, routes: seq<Route>, part: Route, whole: Route)
    requires |names| == |states|
    requires part in routes && whole in routes
    requires forall step :: step in part.steps ==> step in whole.steps
    requires Live(names, states, whole)
    ensures part.key in LiveKeys(names, states, routes) && whole.key in LiveKeys(names, states, routes)
  {
    forall j | 0 <= j < |part.steps| ensures StepHolds(names, states, part.steps[j]) {
      assert part.steps[j] in part.steps;
      var i :| 0 <= i < |whole.steps| && whole.steps[i] == part.steps[j];
      assert StepHolds(names, states, whole.steps[i]);
    }
    ListedIffLive(names, states, routes, part.key);
    ListedIffLive(names, states, routes, whole.key);
  }

  /** The steps name switches of the router only. */
  predicate AllKnown(names: seq<CString>, steps: seq<RouteStep>) {
    forall i :: 0 <= i < |steps| ==> FindSwitch(names, steps[i].switchName) < |names|
  }

  /** After the steps of a route have been applied the route is live exactly when its steps
      never ask one switch for two positions. */
  lemma LiveAfterAppliedIffConsistent(names: seq<CString>, states: seq<char>, route: Route)
    requires |names| == |states| && AllKnown(names, route.steps)
    ensures Live(names, Applied(names, states, route.steps), route) <==> Consistent(names, route.steps)
  {
    var steps, after := route.steps, Applied(names, states, route.steps);
    if Live(names, after, route) {
      forall i, j | 0 <= i < |steps| && 0 <= j < |steps| ensures !Clash(names, steps[i], steps[j]) {
        assert StepHolds(names, after, steps[i]) && StepHolds(names, after, steps[j]);
      }
    }
    if Consistent(names, steps) {
      forall i | 0 <= i < |steps| ensures StepHolds(names, after, steps[i]) {
        var k := FindSwitch(names, steps[i].switchName);
        var m := SomeLastNaming(names, steps, i);
        AppliedIsLastNaming(names, states, steps, m, k);
        assert !Clash(names, steps[i], steps[m]);
      }
    }
  }

  /** Set, then list: once all steps of a route have been applied, the route is live
      exactly when its steps never ask one switch for two positions. */
  lemma LiveAfterSetIffConsistent(names: seq<CString>, states: seq<char>, route: Route)
    requires |names| == |states|
    requires GoodSteps(names, route.steps) == |route.steps|
    ensures Live(names, Applied(names, states, route.steps), route) <==> Consistent(names, route.steps)
  {
    forall i | 0 <= i < |route.steps| ensures FindSwitch(names, route.steps[i].switchName) < |names| {
      assert StepOk(names, route.steps[i]);
    }
    LiveAfterAppliedIffConsistent(names, states, route);
  }

  /** Set, then list, with the list a caller gets: a consistent route that has just
      been set is in the next list that has room for every defined route. */
  lemma SetThenListed(names: seq<CString>, states: seq<char>, routes: seq<Route>, route: Route, max: nat)
    requires |names| == |states| && route in routes && |routes| <= max
    requires GoodSteps(names, route.steps) == |route.steps| && Consistent(names, route.steps)
    ensures route.key in FirstKeys(LiveKeys(names, Applied(names, states, route.steps), routes), max)
  {
    var after := Applied(names, states, route.steps);
    LiveAfterSetIffConsistent(names, states, route);
    ListedIffLive(names, after, routes, route.key);
    assert FirstKeys(LiveKeys(names, after, routes), max) == LiveKeys(names, after, routes);
  }

  // ---------- which routes can be listed together ----------

  /** Two routes that disagree on a shared switch are never both live. */
  lemma ClashingRoutesNotBothLive(names: seq<CString>, states: seq<char>, a: Route, b: Route, i: nat, j: nat)
    requires |names| == |states|
    requires i < |a.steps| && j < |b.steps| && Clash(names, a.steps[i], b.steps[j])
    ensures !(Live(names, states, a) && Live(names, states, b))
  {
    assert StepHolds(names, states, a.steps[i]) ==> !StepHolds(names, states, b.steps[j]);
  }

  /** The two routes name known switches only and do not disagree, nor does either with
      itself. */
  predicate Compatible(names: seq<CString>, a: Route, b: Route) {
    AllKnown(names, a.steps + b.steps) && Consistent(names, a.steps + b.steps)
  }

  lemma LiveMeansConsistent(names: seq<CString>, states: seq<char>, route: Route)
    requires |names| == |states| && Live(names, states, route)
    ensures AllKnown(names, route.steps) && Consistent(names, route.steps)
  {
    forall i | 0 <= i < |route.steps| ensures FindSwitch(names, route.steps[i].switchName) < |names| {
      assert StepHolds(names, states, route.steps[i]);
    }
    forall i, j | 0 <= i < |route.steps| && 0 <= j < |route.steps| ensures !Clash(names, route.steps[i], route.steps[j]) {
      assert StepHolds(names, states, route.steps[i]) && StepHolds(names, states, route.steps[j]);
    }
  }

  /** A route with the steps of two routes is live exactly when both are. */
  lemma LiveTogether(names: seq<CString>, states: seq<char>, a: Route, b: Route)
    requires |names| == |states|
    ensures Live(names, states, Route(a.key, a.steps + b.steps)) <==> Live(names, states, a) && Live(names, states, b)
  {
    var both := a.steps + b.steps;
    if Live(names, states, Route(a.key, both)) {
      forall j | 0 <= j < |a.steps| ensures StepHolds(names, states, a.steps[j]) {
        assert StepHolds(names, states, both[j]);
      }
      forall j | 0 <= j < |b.steps| ensures StepHolds(names, states, b.steps[j]) {
        assert StepHolds(names, states, both[|a.steps| + j]);
      }
    }
  }

  /** Some state of the switches makes both routes live. */
  ghost predicate CanBeLive(names: seq<CString>, a: Route, b: Route) {
    exists states: seq<char> :: |states| == |names| && Live(names, states, a) && Live(names, states, b)
  }

  lemma CanBeLiveIffCompatible(names: seq<CString>, a: Route, b: Route)
    ensures CanBeLive(names, a, b) <==> Compatible(names, a, b)
  {
    var both := Route(a.key, a.steps + b.steps);
    if CanBeLive(names, a, b) {
      var states: seq<char> :| |states| == |names| && Live(names, states, a) && Live(names, states, b);
      LiveTogether(names, states, a, b);
      LiveMeansConsistent(names, states, both);
    }
    if Compatible(names, a, b) {
      var start := seq(|names|, _ => 'U');
      var states := Applied(names, start, both.steps);
      LiveAfterAppliedIffConsistent(names, start, both);
      LiveTogether(names, states, a, b);
      assert Live(names, states, a) && Live(names, states, b);
    }
  }

  /** Some state of the switches lists both keys. */
  ghost predicate CanBeListed(names: seq<CString>, routes: seq<Route>, x: RouteKey, y: RouteKey) {
    exists states: seq<char> ::
      |states| == |names| && x in LiveKeys(names, states, routes) && y in LiveKeys(names, states, routes)
  }

  /** Two keys can be listed together exactly when the table has routes under them that
      are compatible; so they never are exactly when all routes under the one clash with
      all routes under the other, or name unknown switches, or contradict themselves. */
  lemma ListedTogetherIff(names: seq<CString>, routes: seq<Route>, x: RouteKey, y: RouteKey)
    ensures CanBeListed(names, routes, x, y) <==>
            exists a, b :: a in routes && b in routes && a.key == x && b.key == y && Compatible(names, a, b)
  {
    if CanBeListed(names, routes, x, y) {
      var states: seq<char> :|
        |states| == |names| && x in LiveKeys(names, states, routes) && y in LiveKeys(names, states, routes);
      ListedIffLive(names, states, routes, x);
      ListedIffLive(names, states, routes, y);
      var a :| a in routes && a.key == x && Live(names, states, a);
      var b :| b in routes && b.key == y && Live(names, states, b);
      assert CanBeLive(names, a, b);
      CanBeLiveIffCompatible(names, a, b);
    }
    if a, b :| a in routes && b in routes && a.key == x && b.key == y && Compatible(names, a, b) {
      CanBeLiveIffCompatible(names, a, b);
      var states: seq<char> :| |states| == |names| && Live(names, states, a) && Live(names, states, b);
      ListedIffLive(names, states, routes, x);
      ListedIffLive(names, states, routes, y);
    }
  }

  lemma ClashNotCompatible(names: seq<CString>, a: Route, b: Route, i: nat, j: nat)
    requires i < |a.steps| && j < |b.steps| && Clash(names, a.steps[i], b.steps[j])
    ensures !Compatible(names, a, b)
  {
    var both := a.steps + b.steps;
    assert both[i] == a.steps[i] && both[|a.steps| + j] == b.steps[j];
  }

  /** No two routes of the table have the same key. */
  ghost predicate KeysUnique(routes: seq<Route>) {
    forall i, j :: 0 <= i < j < |routes| ==> routes[i].key != routes[j].key
  }

  /** So of two routes that disagree at most one is listed when the table uses no key twice. */
  lemma ClashingRoutesNotBothListed(names: seq<CString>, states: seq<char>, routes: seq<Route>,
                                    a: Route, b: Route, i: nat, j: nat)
    requires |names| == |states| && a in routes && b in routes && KeysUnique(routes)
    requires i < |a.steps| && j < |b.steps| && Clash(names, a.steps[i], b.steps[j])
    ensures !(a.key in LiveKeys(names, states, routes) && b.key in LiveKeys(names, states, routes))
  {
    if a.key in LiveKeys(names, states, routes) && b.key in LiveKeys(names, states, routes) {
      ListedTogetherIff(names, routes, a.key, b.key);
      assert CanBeListed(names, routes, a.key, b.key);
      var r, q :| r in routes && q in routes && r.key == a.key && q.key == b.key && Compatible(names, r, q);
      ClashNotCompatible(names, a, b, i, j);
    }
  }

  /** A table that uses a key twice can list both keys of two routes that disagree: for the
      third route here is compatible with the second. */
  lemma ReusedKeyHidesClash(name: CString, x: RouteKey, y: RouteKey)
    ensures var up, down := [RouteStep(name, 'A')], [RouteStep(name, 'B')];
            var keys := LiveKeys([name], "B", [Route(x, up), Route(y, down), Route(x, down)]);
            Clash([name], up[0], down[0]) && x in keys && y in keys
  {
    var up, down := [RouteStep(name, 'A')], [RouteStep(name, 'B')];
    var routes := [Route(x, up), Route(y, down), Route(x, down)];
    FindSwitchIs([name], name, 0);
    assert StepHolds([name], "B", down[0]);
    ListedIffLive([name], "B", routes, x);
    ListedIffLive([name], "B", routes, y);
    assert routes[1] in routes && routes[2] in routes;
  }

  /** The first route whose two names match, |routes| when there is none. */
  function FindRoute(routes: seq<Route>, input: CString, output: CString): (k: nat)
    ensures k <= |routes|
    ensures k < |routes| ==> SameName(routes[k].key.input, input) && SameName(routes[k].key.output, output)
    ensures forall j :: 0 <= j < k ==> !(SameName(routes[j].key.input, input) && SameName(routes[j].key.output, output))
  {
    if routes == [] || (SameName(routes[0].key.input, input) && SameName(routes[0].key.output, output)) then 0
    else 1 + FindRoute(routes[1..], input, output)
  }

  lemma FindRouteIs(routes: seq<Route>, input: CString, output: CString, k: nat)
    requires k <= |routes|
    requires k < |routes| ==> SameName(routes[k].key.input, input) && SameName(routes[k].key.output, output)
    requires forall j :: 0 <= j < k ==> !(SameName(routes[j].key.input, input) && SameName(routes[j].key.output, output))
    ensures FindRoute(routes, input, output) == k
  {
  }
}
