/** The switch and router objects of mems_switching.c. Every method is tied to the
    values of module Routing and to the pin writes of module Pins. */
module MemsSwitching {
  import opened CText
  import opened Routing
  import opened Pins

  /** The GPIO port the switches hang on. Writes always succeed; what is kept is the
      order in which they happen. */
  class Expander {
    ghost var writes: Trace

    constructor ()
      ensures writes == []
    {
      writes := [];
    }

    method Set(pin: nat, level: bool)
      modifies this
      ensures writes == old(writes) + [PinWrite(pin, level)]
    {
      writes := writes + [PinWrite(pin, level)];
    }
  }

  class MemsSwitch {
    const port: Expander
    const pinA: nat
    const pinB: nat
    const name: CString
    var state: char

    constructor (port: Expander, pinA: nat, pinB: nat, name: CString)
      modifies port
      ensures this.port == port && this.pinA == pinA && this.pinB == pinB
      ensures this.name == Clip(name, NAME_LEN - 1) && state == 'U'
      ensures port.writes == old(port.writes) + [PinWrite(pinA, false)] + [PinWrite(pinB, false)]
    {
      this.port := port;
      this.pinA := pinA;
      this.pinB := pinB;
      this.name := Clip(name, NAME_LEN - 1);
      state := 'U';
      new;
      port.Set(pinA, false);
      port.Set(pinB, false);
    }

    function Pair(): PinPair {
      PinPair(pinA, pinB)
    }

    method SetState(newState: char) returns (rc: int)
      modifies this`state, port
      ensures rc == 0 <==> newState == 'A' || newState == 'B'
      ensures rc == 0 ==> state == newState && port.writes == old(port.writes) + Pulse(PinFor(Pair(), newState))
      ensures rc == 0 ==>
                var pin := if newState == 'A' then pinA else pinB;
                port.writes == old(port.writes) + [PinWrite(pin, false), PinWrite(pin, true), PinWrite(pin, false)]
      ensures rc != 0 ==> rc == -1 && state == old(state) && port.writes == old(port.writes)
    {
      var pin;
      if newState == 'A' {
        pin := pinA;
      } else if newState == 'B' {
        pin := pinB;
      } else {
        return -1;
      }
      port.Set(pin, false);
      port.Set(pin, true);
      port.Set(pin, false);
      state := newState;
      return 0;
    }

    method GetState() returns (rc: int, out: char)
      ensures out == state && (rc == 0 <==> Settable(state)) && (rc == 0 || rc == -1)
    {
      out := state;
      rc := if state == 'A' || state == 'B' then 0 else -1;
    }
  }

  class MemsRouter {
    const switches: seq<MemsSwitch>
    const routes: array<Route>
    var numRoutes: nat

    /** The arrays keep their limits. */
    ghost predicate Sized()
      reads this, routes
    {
      && |switches| <= MAX_SWITCHES
      && routes.Length == MAX_ROUTES && numRoutes <= routes.Length
      && (forall i :: 0 <= i < numRoutes ==> 1 <= |routes[i].steps| <= MAX_ROUTE_PATH)
    }

    /** And no switch is listed twice. */
    ghost predicate Valid()
      reads this, routes
    {
      Sized() && forall i, j :: 0 <= i < j < |switches| ==> switches[i] != switches[j]
    }

    ghost function Names(): (names: seq<CString>)
      ensures |names| == |switches|
    {
      seq(|switches|, i requires 0 <= i < |switches| => switches[i].name)
    }

    ghost function Pairs(): (pairs: seq<PinPair>)
      ensures |pairs| == |switches|
    {
      seq(|switches|, i requires 0 <= i < |switches| => switches[i].Pair())
    }

    ghost function States(): (states: seq<char>)
      reads switches
      ensures |states| == |switches|
    {
      seq(|switches|, i requires 0 <= i < |switches| reads switches => switches[i].state)
    }

    ghost function Routes(): (table: seq<Route>)
      reads this, routes
      requires Sized()
    {
      routes[..numRoutes]
    }

    constructor (switches: seq<MemsSwitch>, numSwitches: nat)
      requires numSwitches <= |switches|
      ensures Sized() && fresh(routes) && Routes() == []
      ensures this.switches == switches[..Min(numSwitches, 8)]
    {
      this.switches := switches[..Min(numSwitches, MAX_SWITCHES)];
      routes := new Route[MAX_ROUTES];
      numRoutes := 0;
    }

    method FindSwitch(name: CString) returns (sw: MemsSwitch?, ghost k: nat)
      requires Sized()
      ensures k == Routing.FindSwitch(Names(), name)
      ensures sw == var j := Routing.FindSwitch(Names(), name); if j < |switches| then switches[j] else null
    {
      var i := 0;
      while i < |switches|
        invariant 0 <= i <= |switches|
        invariant forall j :: 0 <= j < i ==> !SameName(Names()[j], name)
      {
        if SameName(switches[i].name, name) {
          FindSwitchIs(Names(), name, i);
          return switches[i], i;
        }
        i := i + 1;
      }
      FindSwitchIs(Names(), name, i);
      return null, i;
    }

    /** Null pointers are None; numSteps is what the caller says the array holds. */
    method DefineRoute(input: Option<CString>, output: Option<CString>, steps: Option<seq<RouteStep>>, numSteps: nat)
      returns (rc: int)
      requires Sized()
      requires steps.Some? ==> numSteps <= |steps.value|
      modifies this`numRoutes, routes
      ensures Sized()
      ensures rc == -1 <==> old(numRoutes) >= 18
      ensures rc == 0 <==> old(numRoutes) < 18 && input.Some? && output.Some? && steps.Some? && 0 < numSteps <= 5
      ensures rc != 0 ==> (rc == -1 || rc == -2) && Routes() == old(Routes())
      ensures rc == 0 ==> Routes() == old(Routes()) + [Route(RouteKey(input.value, output.value), steps.value[..numSteps])]
    {
      if numRoutes >= MAX_ROUTES {
        return -1;
      }
      if input.None? || output.None? || steps.None? || numSteps == 0 || numSteps > MAX_ROUTE_PATH {
        return -2;
      }
      routes[numRoutes] := Route(RouteKey(input.value, output.value), steps.value[..numSteps]);
      numRoutes := numRoutes + 1;
      return 0;
    }

    method GetRoute(input: CString, output: CString) returns (found: Option<Route>)
      requires Sized()
      ensures var k := FindRoute(Routes(), input, output);
              found == if k < |Routes()| then Some(Routes()[k]) else None
    {
      var i := 0;
      while i < numRoutes
        invariant 0 <= i <= numRoutes
        invariant forall j :: 0 <= j < i ==>
                    !(SameName(Routes()[j].key.input, input) && SameName(Routes()[j].key.output, output))
      {
        if SameName(routes[i].key.input, input) && SameName(routes[i].key.output, output) {
          FindRouteIs(Routes(), input, output, i);
          return Some(routes[i]);
        }
        i := i + 1;
      }
      FindRouteIs(Routes(), input, output, i);
      return None;
    }

    /** The inner loop of the listing: do all steps of a route hold? */
    method IsLive(route: Route) returns (match_: bool)
      requires Sized()
      ensures match_ <==> Live(Names(), States(), route)
    {
      var j := 0;
      while j < |route.steps|
        invariant 0 <= j <= |route.steps|
        invariant forall i :: 0 <= i < j ==> StepHolds(Names(), States(), route.steps[i])
      {
        var sw, k := FindSwitch(route.steps[j].switchName);
        if sw == null || sw.state != route.steps[j].state {
          assert !StepHolds(Names(), States(), route.steps[j]);
          return false;
        }
        j := j + 1;
      }
      return true;
    }

    /** One turn of the listing loop: keep the key of route i if it is live. */
    method KeepIfLive(i: nat, outKeys: array<RouteKey>, nFound: nat) returns (n: nat)
      requires Sized() && i < numRoutes && nFound < outKeys.Length
      modifies outKeys
      ensures n == nFound + if old(Live(Names(), States(), Routes()[i])) then 1 else 0
      ensures outKeys[..n] == old(outKeys[..nFound]) + if n > nFound then [old(Routes()[i].key)] else []
      ensures forall k :: n <= k < outKeys.Length ==> outKeys[k] == old(outKeys[k])
    {
      n := nFound;
      var live := IsLive(routes[i]);
      if live {
        outKeys[n] := routes[i].key;
        n := n + 1;
      }
    }

    method ActiveRoutes(outKeys: array<RouteKey>, maxKeys: nat) returns (nFound: nat)
      requires Sized() && maxKeys <= outKeys.Length
      requires outKeys as object != routes as object
      modifies outKeys
      ensures nFound <= maxKeys
      ensures outKeys[..nFound] == FirstKeys(LiveKeys(Names(), States(), Routes()), maxKeys)
      ensures forall k :: nFound <= k < outKeys.Length ==> outKeys[k] == old(outKeys[k])
    {
      nFound := 0;
      var i := 0;
      ghost var names, states, table := Names(), States(), Routes();
      while i < numRoutes && nFound < maxKeys
        invariant 0 <= i <= numRoutes && nFound <= maxKeys
        invariant unchanged(this) && unchanged(routes) && unchanged(switches)
        invariant outKeys[..nFound] == LiveKeys(names, states, table[..i])
        invariant forall k :: nFound <= k < outKeys.Length ==> outKeys[k] == old(outKeys[k])
      {
        LiveKeysSnoc(names, states, table, i);
        nFound := KeepIfLive(i, outKeys, nFound);
        i := i + 1;
      }
      ScanIsFirstKeys(names, states, table, i, maxKeys);
    }
  }
}
