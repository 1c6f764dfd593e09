/** The dashboard's figures: the headline statistics over the trade routes
    and the per-resource availability totals over the star systems. */
module Dashboard {
  import opened StarSystems

  /** A numeric field of a route as the dashboard receives it: possibly
      missing. */
  datatype Amount = Missing | Amount(value: real)

  /** The fields of a trade route the dashboard reads. */
  datatype RouteFigures = RouteFigures(tradeValue: Amount, fuelCost: Amount, status: string)

  datatype Stats = Stats(
    totalSystems: nat,
    totalRoutes: nat,
    totalTradeValue: real,
    totalFuelCost: real,
    averageProfit: real,
    activeRoutes: nat)

  /** `field || 0`. */
  function OrZero(a: Amount): real {
    if a.Amount? then a.value else 0.0
  }

  /** `routes.reduce((sum, route) => sum + (route.tradeValue || 0), 0)`. */
  function TotalTradeValue(routes: seq<RouteFigures>): real {
    if routes == [] then 0.0
    else TotalTradeValue(routes[..|routes| - 1]) + OrZero(routes[|routes| - 1].tradeValue)
  }

  /** `routes.reduce((sum, route) => sum + (route.fuelCost || 0), 0)`. */
  function TotalFuelCost(routes: seq<RouteFigures>): real {
    if routes == [] then 0.0
    else TotalFuelCost(routes[..|routes| - 1]) + OrZero(routes[|routes| - 1].fuelCost)
  }

  /** `routes.filter(route => route.status === 'active').length`. */
  function ActiveCount(routes: seq<RouteFigures>): nat {
    if routes == [] then 0
    else ActiveCount(routes[..|routes| - 1]) + (if routes[|routes| - 1].status == "active" then 1 else 0)
  }

  /** The positions of the active routes. */
  ghost function ActivePositions(routes: seq<RouteFigures>): set<nat> {
    set k: nat | k < |routes| && routes[k].status == "active"
  }

  /** The count is the number of routes whose status is `active`. */
  lemma {:induction false} ActiveCountIsPositions(routes: seq<RouteFigures>)
    ensures ActiveCount(routes) == |ActivePositions(routes)|
    ensures ActiveCount(routes) <= |routes|
  {
    if routes != [] {
      var n := |routes| - 1;
      var prefix := routes[..n];
      ActiveCountIsPositions(prefix);
      var before := ActivePositions(prefix);
      assert forall k: nat :: k < n ==> prefix[k] == routes[k];
      if routes[n].status == "active" {
        assert ActivePositions(routes) == before + {n};
        assert n !in before;
      } else {
        assert ActivePositions(routes) == before;
      }
    }
  }

  /** With no missing and no negative amounts, the totals are the sums of
      non-negative values. */
  lemma {:induction false} TotalsNonNegative(routes: seq<RouteFigures>)
    requires forall k :: 0 <= k < |routes| ==> 0.0 <= OrZero(routes[k].tradeValue) && 0.0 <= OrZero(routes[k].fuelCost)
    ensures 0.0 <= TotalTradeValue(routes) && 0.0 <= TotalFuelCost(routes)
  {
    if routes != [] {
      TotalsNonNegative(routes[..|routes| - 1]);
    }
  }

  /** `calculateStats`. */
  function CalculateStats(systemCount: nat, routes: seq<RouteFigures>): (s: Stats)
    ensures s.totalSystems == systemCount && s.totalRoutes == |routes|
    ensures s.totalTradeValue == TotalTradeValue(routes) && s.totalFuelCost == TotalFuelCost(routes)
    ensures |routes| > 0 ==> s.averageProfit * (|routes| as real) == s.totalTradeValue - s.totalFuelCost
    ensures |routes| == 0 ==> s.averageProfit == 0.0
    ensures s.activeRoutes == |ActivePositions(routes)| && s.activeRoutes <= s.totalRoutes
  {
    var totalTradeValue := TotalTradeValue(routes);
    var totalFuelCost := TotalFuelCost(routes);
    var totalRoutes := |routes|;
    ActiveCountIsPositions(routes);
    Stats(systemCount, totalRoutes, totalTradeValue, totalFuelCost,
          if totalRoutes > 0 then (totalTradeValue - totalFuelCost) / (totalRoutes as real) else 0.0,
          ActiveCount(routes))
  }

  /** Every resource of every system, system by system. */
  function AllResources(systems: seq<StarSystem>): seq<Resource> {
    if systems == [] then []
    else AllResources(systems[..|systems| - 1]) + systems[|systems| - 1].resources
  }

  /** One resource added to the running totals. */
  function AddAvailability(totals: map<string, real>, r: Resource): map<string, real> {
    totals[r.name := (if r.name in totals then totals[r.name] else 0.0) + r.availability]
  }

  /** The totals after the resources have been added in order. */
  function Totals(resources: seq<Resource>): map<string, real> {
    if resources == [] then map[]
    else AddAvailability(Totals(resources[..|resources| - 1]), resources[|resources| - 1])
  }

  /** The summed availability of the resources called `name`. */
  function Availability(resources: seq<Resource>, name: string): real {
    if resources == [] then 0.0
    else Availability(resources[1..], name) + (if resources[0].name == name then resources[0].availability else 0.0)
  }

  lemma {:induction false} AvailabilityAppend(resources: seq<Resource>, r: Resource, name: string)
    ensures Availability(resources + [r], name)
            == Availability(resources, name) + (if r.name == name then r.availability else 0.0)
  {
    if resources != [] {
      assert (resources + [r])[1..] == resources[1..] + [r];
      AvailabilityAppend(resources[1..], r, name);
    }
  }

  /** The map has one key per resource name, holding the summed
      availability of the resources of that name. */
  lemma {:induction false} TotalsAreSums(resources: seq<Resource>)
    ensures forall name :: name in Totals(resources) <==> exists k :: 0 <= k < |resources| && resources[k].name == name
    ensures forall name :: name in Totals(resources) ==> Totals(resources)[name] == Availability(resources, name)
  {
    if resources != [] {
      var n := |resources| - 1;
      var prefix := resources[..n];
      TotalsAreSums(prefix);
      assert resources == prefix + [resources[n]];
      forall name | name in Totals(resources)
        ensures Totals(resources)[name] == Availability(resources, name)
      {
        AvailabilityAppend(prefix, resources[n], name);
        if name !in Totals(prefix) {
          assert forall k :: 0 <= k < |prefix| ==> prefix[k].name != name;
          AvailabilityAbsent(prefix, name);
        }
      }
      forall name | exists k :: 0 <= k < |resources| && resources[k].name == name
        ensures name in Totals(resources)
      {
        var k :| 0 <= k < |resources| && resources[k].name == name;
        if k < n { assert prefix[k].name == name; }
      }
    }
  }

  lemma {:induction false} AvailabilityAbsent(resources: seq<Resource>, name: string)
    requires forall k :: 0 <= k < |resources| ==> resources[k].name != name
    ensures Availability(resources, name) == 0.0
  {
    if resources != [] {
      AvailabilityAbsent(resources[1..], name);
    }
  }

  lemma TotalsStep(resources: seq<Resource>, i: nat)
    requires i < |resources|
    ensures Totals(resources[..i + 1]) == AddAvailability(Totals(resources[..i]), resources[i])
  {
    assert resources[..i + 1][..i] == resources[..i];
  }

  /** One more resource of the system joins the running totals. */
  lemma TotalsAppendStep(before: seq<Resource>, resources: seq<Resource>, j: nat)
    requires j < |resources|
    ensures Totals(before + resources[..j + 1]) == AddAvailability(Totals(before + resources[..j]), resources[j])
  {
    var all := before + resources[..j + 1];
    assert all[..|before| + j] == before + resources[..j];
    assert all[|before| + j] == resources[j];
    TotalsStep(all, |before| + j);
    assert all[..|before| + j + 1] == all;
  }

  /** The `forEach` over one system's resources, continuing `totals`: a
      name whose running total is truthy is incremented, any other name
      (absent, or at 0) is set to the availability. */
  method AddSystemResources(totals: map<string, real>, resources: seq<Resource>, ghost before: seq<Resource>)
    returns (resourceMap: map<string, real>)
    requires totals == Totals(before)
    ensures resourceMap == Totals(before + resources)
  {
    resourceMap := totals;
    var j := 0;
    assert before + resources[..0] == before;
    while j < |resources|
      invariant 0 <= j <= |resources|
      invariant resourceMap == Totals(before + resources[..j])
    {
      var resource := resources[j];
      TotalsAppendStep(before, resources, j);
      if resource.name in resourceMap && resourceMap[resource.name] != 0.0 {
        resourceMap := resourceMap[resource.name := resourceMap[resource.name] + resource.availability];
      } else {
        resourceMap := resourceMap[resource.name := resource.availability];
      }
      j := j + 1;
    }
    assert resources[..j] == resources;
  }

  /** The `resourceMap` built by `generateResourceData`. */
  method ResourceTotals(systems: seq<StarSystem>) returns (resourceMap: map<string, real>)
    ensures resourceMap == Totals(AllResources(systems))
  {
    resourceMap := map[];
    var i := 0;
    while i < |systems|
      invariant 0 <= i <= |systems|
      invariant resourceMap == Totals(AllResources(systems[..i]))
    {
      assert systems[..i + 1][..i] == systems[..i];
      resourceMap := AddSystemResources(resourceMap, systems[i].resources, AllResources(systems[..i]));
      i := i + 1;
    }
    assert systems[..i] == systems;
  }
}
