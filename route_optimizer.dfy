/** The optimise handler of the route-optimiser panel: it validates the
    selection, enumerates the client routes, prices each with the allocator,
    ranks them by profit and flags the best. */
module RouteOptimizer {
  import opened Util
  import opened Text
  import opened StarSystems
  import opened TradeRoutes
  import opened Knapsack
  import opened Ranking
  import opened ClientRoutes

  /** Why the handler stops before computing anything. */
  datatype Rejection = MissingEndpoint | SameEndpoints | NoFuelSelected | SystemNotFound

  /** A priced route as the panel lists it: the evaluation, overlaid with
      its title, endpoint ids, waypoint ids, type and optimal flag. */
  datatype OptimizedRoute = OptimizedRoute(
    evaluation: RouteEvaluation,
    name: string,
    sourceSystem: string,
    destinationSystem: string,
    waypoints: seq<string>,
    routeType: RouteType,
    isOptimal: bool)

  datatype Outcome =
    | Rejected(reason: Rejection)
    | Optimized(routes: seq<OptimizedRoute>, selectedRoute: Option<OptimizedRoute>)

  function RouteProfit(r: OptimizedRoute): real { r.evaluation.profit }

  /** The result of a lookup by id (`undefined` when nothing matches). */
  datatype Lookup = Missing | Found(system: StarSystem)

  /** `starSystems.find(s => s._id === id)`: the first system with that id. */
  function FindById(systems: seq<StarSystem>, id: string): (r: Lookup)
    ensures r.Found? ==> r.system in systems && r.system.id == id
    ensures r.Missing? <==> forall k :: 0 <= k < |systems| ==> systems[k].id != id
  {
    if systems == [] then Missing
    else if systems[0].id == id then Found(systems[0])
    else
      var r := FindById(systems[1..], id);
      assert forall k :: 1 <= k < |systems| ==> systems[1..][k - 1] == systems[k];
      r
  }

  /** The allocator reads no negative weight anywhere in the catalogue. */
  predicate CatalogueWeightsAllowed(systems: seq<StarSystem>) {
    forall k :: 0 <= k < |systems| ==> WeightsAllowed(systems[k].resources)
  }

  /** What `calculateRouteEfficiency` computes for a route. */
  function Evaluation(sqrt: real -> real, route: Route, fuel: FuelType): RouteEvaluation
    requires 0.0 < fuel.efficiency
    requires |route.systems| >= 1
    requires WeightsAllowed(route.systems[0].resources)
  {
    var distance := PathDistance(sqrt, route.systems);
    var fuelCost := PathFuelCost(sqrt, route.systems, fuel);
    var tradeValue := Allocate(route.systems[0].resources, fuel.efficiency, DefaultCapacity).totalValue;
    RouteEvaluation(route, distance, fuelCost, tradeValue, tradeValue - fuelCost,
                    QuotientOrZero(tradeValue - fuelCost, fuelCost), fuel.name, fuel.efficiency)
  }

  /** Every enumerated route starts at the source. */
  predicate StartAt(routes: seq<Route>, source: StarSystem) {
    forall j :: 0 <= j < |routes| ==> |routes[j].systems| >= 1 && routes[j].systems[0] == source
  }

  /** The map callback: the route's evaluation overlaid with its title,
      endpoint ids, waypoint ids and type, not yet optimal. */
  function Describe(sqrt: real -> real, source: StarSystem, destination: StarSystem,
                    route: Route, fuel: FuelType): OptimizedRoute
    requires 0.0 < fuel.efficiency
    requires |route.systems| >= 1 && route.systems[0] == source && WeightsAllowed(source.resources)
  {
    OptimizedRoute(Evaluation(sqrt, route, fuel), Join(SystemNames(route.systems), Arrow),
                   source.id, destination.id, SystemIds(route.waypoints), route.routeType, false)
  }

  /** The `allRoutes.map(...)` step, one listed route per enumerated route. */
  function Described(sqrt: real -> real, source: StarSystem, destination: StarSystem,
                     routes: seq<Route>, fuel: FuelType): (d: seq<OptimizedRoute>)
    requires 0.0 < fuel.efficiency
    requires StartAt(routes, source) && WeightsAllowed(source.resources)
    ensures |d| == |routes|
  {
    if routes == [] then []
    else
      var n := |routes| - 1;
      Described(sqrt, source, destination, routes[..n], fuel)
      + [Describe(sqrt, source, destination, routes[n], fuel)]
  }

  lemma DescribedStep(sqrt: real -> real, source: StarSystem, destination: StarSystem,
                      routes: seq<Route>, fuel: FuelType, i: int)
    requires 0.0 < fuel.efficiency
    requires StartAt(routes, source) && WeightsAllowed(source.resources)
    requires 0 <= i < |routes|
    ensures StartAt(routes[..i], source) && StartAt(routes[..i + 1], source)
    ensures Described(sqrt, source, destination, routes[..i + 1], fuel)
            == Described(sqrt, source, destination, routes[..i], fuel)
               + [Describe(sqrt, source, destination, routes[i], fuel)]
  {
    assert routes[..i + 1][..i] == routes[..i];
  }

  /** The predicate `DescribedFacts` states of each listed route. */
  ghost predicate DescribesRoute(sqrt: real -> real, source: StarSystem, destination: StarSystem,
                                 route: Route, fuel: FuelType, d: OptimizedRoute)
    requires 0.0 < fuel.efficiency && WeightsAllowed(source.resources)
  {
    && d.evaluation.route == route
    && d.evaluation.totalDistance == PathDistance(sqrt, route.systems)
    && d.evaluation.profit == Allocate(source.resources, fuel.efficiency, DefaultCapacity).totalValue
                              - PathFuelCost(sqrt, route.systems, fuel)
    && d.name == Join(SystemNames(route.systems), Arrow)
    && d.sourceSystem == source.id && d.destinationSystem == destination.id
    && d.waypoints == SystemIds(route.waypoints)
    && d.routeType == route.routeType
    && !d.isOptimal
  }

  lemma DescribeFacts(sqrt: real -> real, source: StarSystem, destination: StarSystem,
                      route: Route, fuel: FuelType)
    requires 0.0 < fuel.efficiency
    requires |route.systems| >= 1 && route.systems[0] == source && WeightsAllowed(source.resources)
    ensures DescribesRoute(sqrt, source, destination, route, fuel, Describe(sqrt, source, destination, route, fuel))
  {
  }

  /** Each listed route is the enumerated route at the same position,
      priced by the allocator over the source's resources, titled by its
      system names joined with the arrow, carrying the endpoint and waypoint
      ids and its type, and not optimal. */
  lemma {:induction false} DescribedFacts(sqrt: real -> real, source: StarSystem, destination: StarSystem,
                                          routes: seq<Route>, fuel: FuelType)
    requires 0.0 < fuel.efficiency
    requires StartAt(routes, source) && WeightsAllowed(source.resources)
    ensures var d := Described(sqrt, source, destination, routes, fuel);
            forall j :: 0 <= j < |routes| ==> DescribesRoute(sqrt, source, destination, routes[j], fuel, d[j])
  {
    if routes != [] {
      var n := |routes| - 1;
      assert StartAt(routes[..n], source);
      var prev := Described(sqrt, source, destination, routes[..n], fuel);
      var last := Describe(sqrt, source, destination, routes[n], fuel);
      var d := Described(sqrt, source, destination, routes, fuel);
      assert d == prev + [last];
      DescribedFacts(sqrt, source, destination, routes[..n], fuel);
      DescribeFacts(sqrt, source, destination, routes[n], fuel);
      forall j | 0 <= j < |routes| ensures DescribesRoute(sqrt, source, destination, routes[j], fuel, d[j]) {
        if j < n {
          assert d[j] == prev[j] && routes[j] == routes[..n][j];
        }
      }
    }
  }

  /** The list sorted by descending profit, the first one flagged optimal. */
  function Ranked(routes: seq<OptimizedRoute>): (r: seq<OptimizedRoute>)
    ensures |r| == |routes|
  {
    var sorted := SortDesc(routes, RouteProfit);
    if sorted == [] then [] else sorted[0 := sorted[0].(isOptimal := true)]
  }

  function Unflagged(routes: seq<OptimizedRoute>): (u: seq<OptimizedRoute>)
    ensures |u| == |routes|
    ensures forall k :: 0 <= k < |routes| ==> u[k] == routes[k].(isOptimal := false)
  {
    seq(|routes|, k requires 0 <= k < |routes| => routes[k].(isOptimal := false))
  }

  /** Ranking keeps the routes (up to the flag), orders them by
      non-increasing profit, puts a most profitable one first and flags
      exactly that one. */
  lemma RankedFacts(routes: seq<OptimizedRoute>)
    requires forall k :: 0 <= k < |routes| ==> !routes[k].isOptimal
    ensures var r := Ranked(routes);
            && multiset(Unflagged(r)) == multiset(routes)
            && NonIncreasing(r, RouteProfit)
            && (forall k :: 0 <= k < |routes| ==> RouteProfit(r[0]) >= RouteProfit(routes[k]))
            && (forall k :: 0 <= k < |r| ==> (r[k].isOptimal <==> k == 0))
  {
    RankedKeepsRoutes(routes);
    RankedOrdered(routes);
    RankedFirstIsMaximal(routes);
  }

  /** Clearing the flag again gives back the sorted input, and element 0 is
      the only flagged one. */
  lemma RankedKeepsRoutes(routes: seq<OptimizedRoute>)
    requires forall k :: 0 <= k < |routes| ==> !routes[k].isOptimal
    ensures Unflagged(Ranked(routes)) == SortDesc(routes, RouteProfit)
    ensures multiset(Unflagged(Ranked(routes))) == multiset(routes)
    ensures forall k :: 0 <= k < |Ranked(routes)| ==> (Ranked(routes)[k].isOptimal <==> k == 0)
  {
    var sorted := SortDesc(routes, RouteProfit);
    forall k | 0 <= k < |sorted| ensures !sorted[k].isOptimal {
      assert sorted[k] in multiset(routes);
      var j :| 0 <= j < |routes| && routes[j] == sorted[k];
    }
    assert Unflagged(Ranked(routes)) == sorted;
  }

  /** The ranking orders profits non-increasingly. */
  lemma RankedOrdered(routes: seq<OptimizedRoute>)
    ensures NonIncreasing(Ranked(routes), RouteProfit)
  {
    var sorted := SortDesc(routes, RouteProfit);
    var r := Ranked(routes);
    SortDescNonIncreasing(routes, RouteProfit);
    assert forall k :: 0 <= k < |r| ==> RouteProfit(r[k]) == RouteProfit(sorted[k]);
  }

  /** The route ranked first is at least as profitable as every input route. */
  lemma RankedFirstIsMaximal(routes: seq<OptimizedRoute>)
    ensures forall k :: 0 <= k < |routes| ==> RouteProfit(Ranked(routes)[0]) >= RouteProfit(routes[k])
  {
    if routes != [] {
      SortDescFirstIsMaximal(routes, RouteProfit);
    }
  }

  /** Sort the list in place by descending profit and flag its first
      element optimal. */
  method RankAndFlag(routes: seq<OptimizedRoute>) returns (ranked: seq<OptimizedRoute>)
    ensures ranked == Ranked(routes)
  {
    ranked := SortDesc(routes, RouteProfit);
    if |ranked| > 0 {
      ranked := ranked[0 := ranked[0].(isOptimal := true)];
    }
  }

  /** The outcome of `handleOptimize`: the four rejections in the order the
      handler tests them, otherwise the ranked routes and the first of them
      as the selection. */
  function Optimization(sqrt: real -> real, starSystems: seq<StarSystem>, sourceId: string, destinationId: string,
                        selectedFuel: Option<FuelType>, maxWaypoints: int): (o: Outcome)
    requires selectedFuel.Some? ==> 0.0 < selectedFuel.value.efficiency
    requires CatalogueWeightsAllowed(starSystems)
    ensures o == Rejected(MissingEndpoint) <==> sourceId == "" || destinationId == ""
    ensures o == Rejected(SameEndpoints) <==> sourceId != "" && destinationId != "" && sourceId == destinationId
    ensures o == Rejected(NoFuelSelected) <==>
              sourceId != "" && destinationId != "" && sourceId != destinationId && selectedFuel.None?
    ensures o == Rejected(SystemNotFound) <==>
              && sourceId != "" && destinationId != "" && sourceId != destinationId && selectedFuel.Some?
              && (FindById(starSystems, sourceId).Missing? || FindById(starSystems, destinationId).Missing?)
    ensures o.Optimized? ==> |o.routes| >= 1 && o.selectedRoute == Some(o.routes[0]) && o.selectedRoute.value.isOptimal
  {
    if sourceId == "" || destinationId == "" then Rejected(MissingEndpoint)
    else if sourceId == destinationId then Rejected(SameEndpoints)
    else if selectedFuel.None? then Rejected(NoFuelSelected)
    else
      var source := FindById(starSystems, sourceId);
      var destination := FindById(starSystems, destinationId);
      if source.Missing? || destination.Missing? then Rejected(SystemNotFound)
      else
        var routes := AllRoutes(source.system, destination.system, starSystems, maxWaypoints);
        AllRoutesStartAtSource(source.system, destination.system, starSystems, maxWaypoints);
        assert WeightsAllowed(source.system.resources) by { SourceWeightsAllowed(starSystems, sourceId); }
        var ranked := Ranked(Described(sqrt, source.system, destination.system, routes, selectedFuel.value));
        Optimized(ranked, Some(ranked[0]))
  }

  /** Every enumerated client route starts at the source, and there is at
      least the direct one. */
  lemma AllRoutesStartAtSource(source: StarSystem, destination: StarSystem, all: seq<StarSystem>, maxWaypoints: int)
    ensures |AllRoutes(source, destination, all, maxWaypoints)| >= 1
    ensures StartAt(AllRoutes(source, destination, all, maxWaypoints), source)
  {
    AllRoutesShape(source, destination, all, maxWaypoints);
  }

  lemma SourceWeightsAllowed(systems: seq<StarSystem>, id: string)
    requires CatalogueWeightsAllowed(systems)
    requires FindById(systems, id).Found?
    ensures WeightsAllowed(FindById(systems, id).system.resources)
  {
    var s := FindById(systems, id).system;
    var k :| 0 <= k < |systems| && systems[k] == s;
  }

  /** `handleOptimize`, from the selection to the ranked list. */
  method HandleOptimize(sqrt: real -> real, starSystems: seq<StarSystem>, sourceId: string, destinationId: string,
                        selectedFuel: Option<FuelType>, maxWaypoints: int)
    returns (o: Outcome)
    requires selectedFuel.Some? ==> 0.0 < selectedFuel.value.efficiency
    requires CatalogueWeightsAllowed(starSystems)
    ensures o == Optimization(sqrt, starSystems, sourceId, destinationId, selectedFuel, maxWaypoints)
  {
    if sourceId == "" || destinationId == "" {
      return Rejected(MissingEndpoint);
    }
    if sourceId == destinationId {
      return Rejected(SameEndpoints);
    }
    if selectedFuel.None? {
      return Rejected(NoFuelSelected);
    }
    var fuel := selectedFuel.value;
    var source := FindById(starSystems, sourceId);
    var destination := FindById(starSystems, destinationId);
    if source.Missing? || destination.Missing? {
      return Rejected(SystemNotFound);
    }
    var allRoutes := GenerateAllRoutes(source.system, destination.system, starSystems, maxWaypoints);
    AllRoutesStartAtSource(source.system, destination.system, starSystems, maxWaypoints);
    SourceWeightsAllowed(starSystems, sourceId);
    var optimizedRoutes := DescribeAll(sqrt, source.system, destination.system, allRoutes, fuel);
    optimizedRoutes := RankAndFlag(optimizedRoutes);
    o := Optimized(optimizedRoutes, Some(optimizedRoutes[0]));
  }

  /** The map callback for one route: price it with
      `calculateRouteEfficiency`, then overlay the listing fields. */
  method DescribeRoute(sqrt: real -> real, source: StarSystem, destination: StarSystem,
                       route: Route, fuel: FuelType)
    returns (entry: OptimizedRoute)
    requires 0.0 < fuel.efficiency
    requires |route.systems| >= 1 && route.systems[0] == source && WeightsAllowed(source.resources)
    ensures entry == Describe(sqrt, source, destination, route, fuel)
  {
    var routeEfficiency := RouteEfficiency(sqrt, route, fuel);
    EvaluationOf(sqrt, route, fuel, routeEfficiency);
    entry := OptimizedRoute(routeEfficiency, Join(SystemNames(route.systems), Arrow),
                            source.id, destination.id, SystemIds(route.waypoints),
                            route.routeType, false);
  }

  /** A pricing with the figures `calculateRouteEfficiency` promises is
      `Evaluation`. */
  lemma EvaluationOf(sqrt: real -> real, route: Route, fuel: FuelType, e: RouteEvaluation)
    requires 0.0 < fuel.efficiency
    requires |route.systems| >= 1 && WeightsAllowed(route.systems[0].resources)
    requires e.route == route && e.fuelType == fuel.name && e.fuelEfficiency == fuel.efficiency
    requires e.totalDistance == PathDistance(sqrt, route.systems)
    requires e.totalFuelCost == PathFuelCost(sqrt, route.systems, fuel)
    requires e.totalTradeValue == Allocate(route.systems[0].resources, fuel.efficiency, DefaultCapacity).totalValue
    requires e.profit == e.totalTradeValue - e.totalFuelCost
    requires e.efficiency == QuotientOrZero(e.profit, e.totalFuelCost)
    ensures e == Evaluation(sqrt, route, fuel)
  {
  }

  /** The `allRoutes.map(...)` loop: price each route and dress it. */
  method DescribeAll(sqrt: real -> real, source: StarSystem, destination: StarSystem,
                     routes: seq<Route>, fuel: FuelType)
    returns (described: seq<OptimizedRoute>)
    requires 0.0 < fuel.efficiency
    requires StartAt(routes, source) && WeightsAllowed(source.resources)
    ensures described == Described(sqrt, source, destination, routes, fuel)
  {
    described := [];
    var i := 0;
    while i < |routes|
      invariant 0 <= i <= |routes|
      invariant StartAt(routes[..i], source)
      invariant described == Described(sqrt, source, destination, routes[..i], fuel)
    {
      DescribedStep(sqrt, source, destination, routes, fuel, i);
      var entry := DescribeRoute(sqrt, source, destination, routes[i], fuel);
      described := described + [entry];
      i := i + 1;
    }
    assert routes[..i] == routes;
  }

  /** With both endpoints found, distinct, and a fuel selected, the run
      succeeds: it lists one route per enumerated route (the direct one and
      every waypoint combination), described and ranked, and selects the
      first; `RankedDescriptions` says what that list holds. */
  lemma OptimizedRoutes(sqrt: real -> real, starSystems: seq<StarSystem>, source: StarSystem, destination: StarSystem,
                        fuel: FuelType, maxWaypoints: int)
    requires 0.0 < fuel.efficiency
    requires CatalogueWeightsAllowed(starSystems)
    requires source.id != "" && destination.id != "" && source.id != destination.id
    requires FindById(starSystems, source.id) == Found(source)
    requires FindById(starSystems, destination.id) == Found(destination)
    ensures var routes := AllRoutes(source, destination, starSystems, maxWaypoints);
            var m := |OtherSystems(starSystems, source, destination)|;
            var o := Optimization(sqrt, starSystems, source.id, destination.id, Some(fuel), maxWaypoints);
            && |routes| == 1 + SumBinomials(m, Min(maxWaypoints, m))
            && StartAt(routes, source) && WeightsAllowed(source.resources)
            && o.Optimized?
            && o.routes == Ranked(Described(sqrt, source, destination, routes, fuel))
            && o.selectedRoute == Some(o.routes[0])
  {
    AllRoutesStartAtSource(source, destination, starSystems, maxWaypoints);
    SourceWeightsAllowed(starSystems, source.id);
    AllRoutesCount(source, destination, starSystems, maxWaypoints);
  }

  /** The listed routes are the described routes (up to the optimal flag),
      each priced and titled as `Describe` says, ordered by non-increasing
      profit, with exactly the first flagged optimal. */
  lemma RankedDescriptions(sqrt: real -> real, source: StarSystem, destination: StarSystem,
                           routes: seq<Route>, fuel: FuelType)
    requires 0.0 < fuel.efficiency
    requires StartAt(routes, source) && WeightsAllowed(source.resources)
    ensures var described := Described(sqrt, source, destination, routes, fuel);
            var ranked := Ranked(described);
            && |ranked| == |routes|
            && (forall j :: 0 <= j < |routes| ==> DescribesRoute(sqrt, source, destination, routes[j], fuel, described[j]))
            && multiset(Unflagged(ranked)) == multiset(described)
            && NonIncreasing(ranked, RouteProfit)
            && (forall k :: 0 <= k < |ranked| ==> (ranked[k].isOptimal <==> k == 0))
  {
    var described := Described(sqrt, source, destination, routes, fuel);
    DescribedFacts(sqrt, source, destination, routes, fuel);
    RankedFacts(described);
  }
}
