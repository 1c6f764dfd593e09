/** The client-side route planner: waypoint combinations, the enumeration of
    candidate routes, and the per-route and single-route cost and profit
    figures that price trade value with the cargo allocator. */
module ClientRoutes {
  import opened Util
  import opened Geometry
  import opened StarSystems
  import opened TradeRoutes
  import opened Knapsack

  // ---------------------------------------------------------------------
  // getCombinations

  /** `getCombinations(arr, k)`: singletons when k is 1, the whole list when
      k is its length, and otherwise, for each admissible head position `i`,
      the head followed by every (k-1)-combination of what comes after it. */
  function Combinations<T>(arr: seq<T>, k: int): (c: seq<seq<T>>)
    requires 1 <= k
    ensures forall j :: 0 <= j < |c| ==> |c[j]| == k
    decreases |arr|, 1
  {
    if k == 1 then seq(|arr|, i requires 0 <= i < |arr| => [arr[i]])
    else if k == |arr| then [arr]
    else HeadedCombinations(arr, k, 0)
  }

  /** The combinations the loop `for (i = from; i <= arr.length - k; i++)`
      collects, in push order. */
  function HeadedCombinations<T>(arr: seq<T>, k: int, from: int): (c: seq<seq<T>>)
    requires 2 <= k && 0 <= from
    ensures forall j :: 0 <= j < |c| ==> |c[j]| == k
    decreases |arr|, 0, |arr| - from
  {
    if from > |arr| - k then []
    else
      var tails := Combinations(arr[from + 1..], k - 1);
      Prefixed(arr[from], tails) + HeadedCombinations(arr, k, from + 1)
  }

  /** `tails.map(tail => [head, ...tail])`. */
  function Prefixed<T>(head: T, tails: seq<seq<T>>): (c: seq<seq<T>>)
    ensures |c| == |tails|
    ensures forall j :: 0 <= j < |c| ==> c[j] == [head] + tails[j]
  {
    seq(|tails|, j requires 0 <= j < |tails| => [head] + tails[j])
  }

  /** There are exactly C(|arr|, k) combinations. */
  lemma {:induction false} CombinationsCount<T>(arr: seq<T>, k: int)
    requires 1 <= k
    ensures |Combinations(arr, k)| == Binomial(|arr|, k)
    decreases |arr|, 1
  {
    if k == 1 {
      BinomialOne(|arr|);
    } else if k == |arr| {
      BinomialAll(|arr|);
    } else if k > |arr| {
      BinomialAboveN(|arr|, k);
    } else {
      HeadedCount(arr, k, 0);
    }
  }

  lemma {:induction false} HeadedCount<T>(arr: seq<T>, k: int, from: int)
    requires 2 <= k && 0 <= from <= |arr| - k + 1
    ensures |HeadedCombinations(arr, k, from)| == Binomial(|arr| - from, k)
    decreases |arr|, 0, |arr| - from
  {
    if from > |arr| - k {
      BinomialAboveN(|arr| - from, k);
    } else {
      CombinationsCount(arr[from + 1..], k - 1);
      HeadedCount(arr, k, from + 1);
    }
  }

  /** Every combination keeps the relative order of `arr`. */
  lemma {:induction false} CombinationsOrdered<T>(arr: seq<T>, k: int)
    requires 1 <= k
    ensures forall j :: 0 <= j < |Combinations(arr, k)| ==> IsSubsequence(Combinations(arr, k)[j], arr)
    decreases |arr|, 1
  {
    var c := Combinations(arr, k);
    if k == 1 {
      forall j | 0 <= j < |c| ensures IsSubsequence(c[j], arr) {
        assert IsSubsequence(c[j], arr[j..]) by {
          assert c[j] == [arr[j]] && arr[j..][0] == arr[j];
        }
        SubsequenceOfSuffix(c[j], arr, j);
      }
    } else if k == |arr| {
      SubsequenceReflexive(arr);
    } else {
      HeadedOrdered(arr, k, 0);
    }
  }

  lemma {:induction false} HeadedOrdered<T>(arr: seq<T>, k: int, from: int)
    requires 2 <= k && 0 <= from
    ensures forall j :: 0 <= j < |HeadedCombinations(arr, k, from)| ==>
              IsSubsequence(HeadedCombinations(arr, k, from)[j], arr)
    decreases |arr|, 0, |arr| - from
  {
    if from <= |arr| - k {
      var tails := Combinations(arr[from + 1..], k - 1);
      var front := Prefixed(arr[from], tails);
      var rest := HeadedCombinations(arr, k, from + 1);
      CombinationsOrdered(arr[from + 1..], k - 1);
      HeadedOrdered(arr, k, from + 1);
      forall j | 0 <= j < |front| ensures IsSubsequence(front[j], arr) {
        var s := arr[from..];
        assert s[1..] == arr[from + 1..];
        assert front[j][1..] == tails[j];
        assert IsSubsequence(front[j], s);
        SubsequenceOfSuffix(front[j], arr, from);
      }
      assert HeadedCombinations(arr, k, from) == front + rest;
    }
  }

  lemma {:induction false} SubsequenceReflexive<T>(s: seq<T>)
    ensures IsSubsequence(s, s)
  {
    if s != [] {
      SubsequenceReflexive(s[1..]);
    }
  }

  /** From a list without repeats, no combination repeats an element. */
  lemma CombinationsDistinct<T>(arr: seq<T>, k: int)
    requires 1 <= k && Distinct(arr)
    ensures forall j :: 0 <= j < |Combinations(arr, k)| ==> Distinct(Combinations(arr, k)[j])
  {
    CombinationsOrdered(arr, k);
    forall j | 0 <= j < |Combinations(arr, k)| ensures Distinct(Combinations(arr, k)[j]) {
      SubsequenceDistinct(Combinations(arr, k)[j], arr);
    }
  }

  /** `getCombinations(arr, k)` as the source computes it: a recursive call
      per head position, and a push per tail. */
  method GetCombinations<T>(arr: seq<T>, k: int) returns (c: seq<seq<T>>)
    requires 1 <= k
    ensures c == Combinations(arr, k)
    decreases |arr|
  {
    if k == 1 {
      return seq(|arr|, i requires 0 <= i < |arr| => [arr[i]]);
    }
    if k == |arr| {
      return [arr];
    }
    c := [];
    var i := 0;
    while i <= |arr| - k
      invariant 0 <= i && (i == 0 || i <= |arr| - k + 1)
      invariant c + HeadedCombinations(arr, k, i) == HeadedCombinations(arr, k, 0)
      decreases |arr| - i
    {
      var tails := GetCombinations(arr[i + 1..], k - 1);
      HeadedStep(arr, k, i, c, tails);
      c := PushPrefixed(c, arr[i], tails);
      i := i + 1;
    }
    assert HeadedCombinations(arr, k, i) == [];
    assert c == HeadedCombinations(arr, k, 0);
  }

  /** One pass of the loop of `getCombinations`: the tails from position
      `from` on, headed by `arr[from]`, come before those of later heads. */
  lemma HeadedStep<T>(arr: seq<T>, k: int, from: int, c: seq<seq<T>>, tails: seq<seq<T>>)
    requires 2 <= k && 0 <= from <= |arr| - k
    requires tails == Combinations(arr[from + 1..], k - 1)
    ensures c + HeadedCombinations(arr, k, from)
            == (c + Prefixed(arr[from], tails)) + HeadedCombinations(arr, k, from + 1)
  {
    assert HeadedCombinations(arr, k, from) == Prefixed(arr[from], tails) + HeadedCombinations(arr, k, from + 1);
  }

  /** `tails.forEach(tail => combinations.push([head, ...tail]))`. */
  method PushPrefixed<T>(c: seq<seq<T>>, head: T, tails: seq<seq<T>>) returns (r: seq<seq<T>>)
    ensures r == c + Prefixed(head, tails)
  {
    r := c;
    var j := 0;
    while j < |tails|
      invariant 0 <= j <= |tails|
      invariant r == c + Prefixed(head, tails[..j])
    {
      assert tails[..j + 1] == tails[..j] + [tails[j]];
      r := r + [[head] + tails[j]];
      j := j + 1;
    }
    assert tails[..j] == tails;
  }

  // ---------------------------------------------------------------------
  // generateAllRoutes

  /** A candidate route: its kind, the systems visited in order and the
      intermediate stops. */
  datatype Route = Route(routeType: RouteType, systems: seq<StarSystem>, waypoints: seq<StarSystem>)

  function DirectRoute(source: StarSystem, destination: StarSystem): Route {
    Route(Direct, [source, destination], [])
  }

  function MultiHopRoute(source: StarSystem, destination: StarSystem, waypoints: seq<StarSystem>): Route {
    Route(MultiHop, [source] + waypoints + [destination], waypoints)
  }

  /** One multi-hop route per combination, in order. */
  function MultiHopRoutesOf(source: StarSystem, destination: StarSystem, combos: seq<seq<StarSystem>>): (r: seq<Route>)
    ensures |r| == |combos|
    ensures forall j :: 0 <= j < |r| ==> r[j] == MultiHopRoute(source, destination, combos[j])
  {
    seq(|combos|, j requires 0 <= j < |combos| => MultiHopRoute(source, destination, combos[j]))
  }

  /** The multi-hop routes with 1, 2, ..., hi waypoints, in that order. */
  function RoutesUpTo(source: StarSystem, destination: StarSystem, others: seq<StarSystem>, hi: int): seq<Route>
    decreases if hi < 0 then 0 else hi
  {
    if hi < 1 then []
    else RoutesUpTo(source, destination, others, hi - 1)
         + MultiHopRoutesOf(source, destination, Combinations(others, hi))
  }

  function Min(a: int, b: int): int { if a <= b then a else b }

  /** The list `generateAllRoutes` returns. */
  function AllRoutes(source: StarSystem, destination: StarSystem, all: seq<StarSystem>, maxWaypoints: int): seq<Route>
  {
    var others := OtherSystems(all, source, destination);
    [DirectRoute(source, destination)] + RoutesUpTo(source, destination, others, Min(maxWaypoints, |others|))
  }

  /** `generateAllRoutes(source, destination, allSystems, maxWaypoints)`. */
  method GenerateAllRoutes(source: StarSystem, destination: StarSystem, allSystems: seq<StarSystem>, maxWaypoints: int)
    returns (routes: seq<Route>)
    ensures routes == AllRoutes(source, destination, allSystems, maxWaypoints)
  {
    routes := [DirectRoute(source, destination)];
    var others := OtherSystems(allSystems, source, destination);
    var hi := Min(maxWaypoints, |others|);
    var i := 1;
    while i <= hi
      invariant 1 <= i && (i <= hi + 1 || i == 1)
      invariant routes == [DirectRoute(source, destination)] + RoutesUpTo(source, destination, others, i - 1)
    {
      var combinations := GetCombinations(others, i);
      RoutesUpToStep(source, destination, others, i, [DirectRoute(source, destination)]);
      routes := PushMultiHop(routes, source, destination, combinations);
      i := i + 1;
    }
  }

  /** One more pass of the outer loop of `generateAllRoutes` appends the
      routes with `hi` waypoints. */
  lemma RoutesUpToStep(source: StarSystem, destination: StarSystem, others: seq<StarSystem>, hi: int, front: seq<Route>)
    requires 1 <= hi
    ensures front + RoutesUpTo(source, destination, others, hi)
            == (front + RoutesUpTo(source, destination, others, hi - 1))
               + MultiHopRoutesOf(source, destination, Combinations(others, hi))
  {
  }

  /** `combinations.forEach(waypoints => routes.push({...}))`: one multi-hop
      route per combination, appended in order. */
  method PushMultiHop(routes: seq<Route>, source: StarSystem, destination: StarSystem, combinations: seq<seq<StarSystem>>)
    returns (r: seq<Route>)
    ensures r == routes + MultiHopRoutesOf(source, destination, combinations)
  {
    r := routes;
    var j := 0;
    while j < |combinations|
      invariant 0 <= j <= |combinations|
      invariant r == routes + MultiHopRoutesOf(source, destination, combinations[..j])
    {
      assert combinations[..j + 1] == combinations[..j] + [combinations[j]];
      r := r + [MultiHopRoute(source, destination, combinations[j])];
      j := j + 1;
    }
    assert combinations[..j] == combinations;
  }

  lemma {:induction false} RoutesUpToCount(source: StarSystem, destination: StarSystem, others: seq<StarSystem>, hi: int)
    ensures |RoutesUpTo(source, destination, others, hi)| == SumBinomials(|others|, hi)
    decreases if hi < 0 then 0 else hi
  {
    if hi >= 1 {
      RoutesUpToCount(source, destination, others, hi - 1);
      CombinationsCount(others, hi);
    }
  }

  /** The direct route and then C(m,1) + ... + C(m, min(maxWaypoints, m))
      multi-hop routes, m being the number of other systems. */
  lemma AllRoutesCount(source: StarSystem, destination: StarSystem, all: seq<StarSystem>, maxWaypoints: int)
    ensures var m := |OtherSystems(all, source, destination)|;
            |AllRoutes(source, destination, all, maxWaypoints)| == 1 + SumBinomials(m, Min(maxWaypoints, m))
  {
    var others := OtherSystems(all, source, destination);
    RoutesUpToCount(source, destination, others, Min(maxWaypoints, |others|));
  }

  /** What every route after the direct one looks like. */
  predicate WellFormedMultiHop(r: Route, source: StarSystem, destination: StarSystem,
                               others: seq<StarSystem>, hi: int)
  {
    && r.routeType == MultiHop
    && r.systems == [source] + r.waypoints + [destination]
    && 1 <= |r.waypoints| <= hi
    && IsSubsequence(r.waypoints, others)
  }

  lemma {:induction false} RoutesUpToShape(source: StarSystem, destination: StarSystem, others: seq<StarSystem>, hi: int)
    ensures forall j :: 0 <= j < |RoutesUpTo(source, destination, others, hi)| ==>
              WellFormedMultiHop(RoutesUpTo(source, destination, others, hi)[j], source, destination, others, hi)
    decreases if hi < 0 then 0 else hi
  {
    if hi >= 1 {
      var prev := RoutesUpTo(source, destination, others, hi - 1);
      var next := MultiHopRoutesOf(source, destination, Combinations(others, hi));
      RoutesUpToShape(source, destination, others, hi - 1);
      CombinationsOrdered(others, hi);
      var all := prev + next;
      forall j | 0 <= j < |all| ensures WellFormedMultiHop(all[j], source, destination, others, hi) {
        if j < |prev| {
          assert all[j] == prev[j];
          assert WellFormedMultiHop(prev[j], source, destination, others, hi - 1);
        } else {
          assert all[j] == next[j - |prev|];
        }
      }
    }
  }

  /** The direct route comes first with no waypoints; every later route is
      multi-hop through 1..maxWaypoints systems taken in list order, none of
      which shares an id with either endpoint. */
  lemma AllRoutesShape(source: StarSystem, destination: StarSystem, all: seq<StarSystem>, maxWaypoints: int)
    ensures var routes := AllRoutes(source, destination, all, maxWaypoints);
            && routes[0] == Route(Direct, [source, destination], [])
            && forall j :: 1 <= j < |routes| ==>
                 && routes[j].routeType == MultiHop
                 && routes[j].systems == [source] + routes[j].waypoints + [destination]
                 && 1 <= |routes[j].waypoints| <= maxWaypoints
                 && IsSubsequence(routes[j].waypoints, all)
                 && forall w :: w in routes[j].waypoints ==> w.id != source.id && w.id != destination.id
  {
    var others := OtherSystems(all, source, destination);
    var hi := Min(maxWaypoints, |others|);
    var tail := RoutesUpTo(source, destination, others, hi);
    var routes := AllRoutes(source, destination, all, maxWaypoints);
    RoutesUpToShape(source, destination, others, hi);
    forall j | 1 <= j < |routes|
      ensures && routes[j].routeType == MultiHop
              && routes[j].systems == [source] + routes[j].waypoints + [destination]
              && 1 <= |routes[j].waypoints| <= maxWaypoints
              && IsSubsequence(routes[j].waypoints, all)
              && forall w :: w in routes[j].waypoints ==> w.id != source.id && w.id != destination.id
    {
      assert routes[j] == tail[j - 1];
      var wps := routes[j].waypoints;
      assert WellFormedMultiHop(tail[j - 1], source, destination, others, hi);
      SubsequenceTransitive(wps, others, all);
      SubsequenceMembers(wps, others);
      forall w | w in wps ensures w.id != source.id && w.id != destination.id {
        var k :| 0 <= k < |others| && others[k] == w;
      }
    }
  }

  lemma {:induction false} SubsequenceTransitive<T>(a: seq<T>, b: seq<T>, c: seq<T>)
    requires IsSubsequence(a, b) && IsSubsequence(b, c)
    ensures IsSubsequence(a, c)
    decreases |c|
  {
    if a != [] && c != [] {
      if b[0] == c[0] && IsSubsequence(b[1..], c[1..]) {
        if a[0] == b[0] && IsSubsequence(a[1..], b[1..]) {
          SubsequenceTransitive(a[1..], b[1..], c[1..]);
        } else {
          SubsequenceTransitive(a, b[1..], c[1..]);
        }
      } else {
        SubsequenceTransitive(a, b, c[1..]);
      }
    }
  }

  // ---------------------------------------------------------------------
  // calculateRouteEfficiency and calculateOptimalRoute

  /** A JavaScript number produced by `a / b || 0`: a quotient, or an
      infinity when a non-zero amount is divided by zero. `0 / 0` is NaN,
      which `|| 0` turns into 0. */
  datatype JsNumber = Finite(value: real) | PosInfinity | NegInfinity

  function QuotientOrZero(a: real, b: real): (q: JsNumber)
    ensures b != 0.0 ==> q.Finite? && q.value * b == a
    ensures b == 0.0 && a == 0.0 ==> q == Finite(0.0)
    ensures b == 0.0 && a > 0.0 ==> q == PosInfinity
    ensures b == 0.0 && a < 0.0 ==> q == NegInfinity
  {
    if b != 0.0 then Finite(a / b)
    else if a > 0.0 then PosInfinity
    else if a < 0.0 then NegInfinity
    else Finite(0.0)
  }

  /** `(distance * 0.1) / (fuelType.efficiency / 100)`: the base consumption
      of 0.1 per unit of distance, scaled up as efficiency drops below 100. */
  function FuelConsumption(distance: real, fuel: FuelType): (c: real)
    requires 0.0 < fuel.efficiency
    ensures c * (fuel.efficiency / 100.0) == distance * 0.1
    ensures 0.0 <= distance ==> 0.0 <= c
  {
    (distance * 0.1) / (fuel.efficiency / 100.0)
  }

  /** The consumption priced at the fuel's cost per unit. */
  function LegFuelCost(distance: real, fuel: FuelType): (f: real)
    requires 0.0 < fuel.efficiency
    ensures 0.0 <= distance && 0.0 <= fuel.cost ==> 0.0 <= f
  {
    FuelConsumption(distance, fuel) * fuel.cost
  }

  /** Fuel cost is linear in distance. */
  lemma LegFuelCostAdditive(d1: real, d2: real, fuel: FuelType)
    requires 0.0 < fuel.efficiency
    ensures LegFuelCost(d1 + d2, fuel) == LegFuelCost(d1, fuel) + LegFuelCost(d2, fuel)
  {
    var q := fuel.efficiency / 100.0;
    var c1, c2, c := FuelConsumption(d1, fuel), FuelConsumption(d2, fuel), FuelConsumption(d1 + d2, fuel);
    assert c * q == (c1 + c2) * q;
    assert (c - (c1 + c2)) * q == 0.0;
    assert LegFuelCost(d1 + d2, fuel) == (c1 + c2) * fuel.cost;
  }

  /** Sum of the leg fuel costs along `systems`. */
  function PathFuelCost(sqrt: real -> real, systems: seq<StarSystem>, fuel: FuelType): real
    requires 0.0 < fuel.efficiency
  {
    if |systems| <= 1 then 0.0
    else
      var n := |systems|;
      PathFuelCost(sqrt, systems[..n - 1], fuel)
        + LegFuelCost(SystemDistance(sqrt, systems[n - 2], systems[n - 1]), fuel)
  }

  /** The fuel cost of a route is the fuel cost of its total distance. */
  lemma {:induction false} PathFuelCostOfDistance(sqrt: real -> real, systems: seq<StarSystem>, fuel: FuelType)
    requires 0.0 < fuel.efficiency
    ensures PathFuelCost(sqrt, systems, fuel) == LegFuelCost(PathDistance(sqrt, systems), fuel)
  {
    if |systems| > 1 {
      var n := |systems|;
      PathFuelCostOfDistance(sqrt, systems[..n - 1], fuel);
      LegFuelCostAdditive(PathDistance(sqrt, systems[..n - 1]),
                          SystemDistance(sqrt, systems[n - 2], systems[n - 1]), fuel);
    } else {
      assert LegFuelCost(0.0, fuel) == 0.0;
    }
  }

  /** The figures `calculateRouteEfficiency` adds to a route. */
  datatype RouteEvaluation = RouteEvaluation(
    route: Route,
    totalDistance: real,
    totalFuelCost: real,
    totalTradeValue: real,
    profit: real,
    efficiency: JsNumber,
    fuelType: string,
    fuelEfficiency: real)

  /** The allocator's default capacity. */
  const DefaultCapacity: int := 100

  predicate WeightsAllowed(resources: seq<Resource>) {
    forall k :: 0 <= k < |resources| ==> WeightOk(resources[k])
  }

  /** `calculateRouteEfficiency(route, fuelType)`: walk the legs summing
      distance and fuel cost, then value the trade by the allocator over the
      first system's resources only. */
  method RouteEfficiency(sqrt: real -> real, route: Route, fuel: FuelType) returns (e: RouteEvaluation)
    requires 0.0 < fuel.efficiency
    requires |route.systems| >= 1
    requires WeightsAllowed(route.systems[0].resources)
    ensures e.route == route && e.fuelType == fuel.name && e.fuelEfficiency == fuel.efficiency
    ensures e.totalDistance == PathDistance(sqrt, route.systems)
    ensures e.totalFuelCost == PathFuelCost(sqrt, route.systems, fuel)
    ensures e.totalTradeValue == Allocate(route.systems[0].resources, fuel.efficiency, DefaultCapacity).totalValue
    ensures e.profit == e.totalTradeValue - e.totalFuelCost
    ensures e.efficiency == QuotientOrZero(e.profit, e.totalFuelCost)
  {
    var systems := route.systems;
    var totalDistance := 0.0;
    var totalFuelCost := 0.0;
    var i := 0;
    while i < |systems| - 1
      invariant 0 <= i <= |systems| - 1
      invariant totalDistance == PathDistance(sqrt, systems[..i + 1])
      invariant totalFuelCost == PathFuelCost(sqrt, systems[..i + 1], fuel)
    {
      var current := systems[i];
      var next := systems[i + 1];
      var distance := SystemDistance(sqrt, current, next);
      totalDistance := totalDistance + distance;
      var fuelConsumption := FuelConsumption(distance, fuel);
      totalFuelCost := totalFuelCost + fuelConsumption * fuel.cost;
      assert systems[..i + 2][..i + 1] == systems[..i + 1];
      i := i + 1;
    }
    assert systems[..i + 1] == systems;
    var optimization := KnapsackOptimizer(systems[0].resources, fuel.efficiency, DefaultCapacity);
    var totalTradeValue := optimization.totalValue;
    var profit := totalTradeValue - totalFuelCost;
    e := RouteEvaluation(route, totalDistance, totalFuelCost, totalTradeValue, profit,
                         QuotientOrZero(profit, totalFuelCost), fuel.name, fuel.efficiency);
  }

  /** A direct leg has the plain distance, and every route's fuel cost is
      proportional to its total distance; routes from the same source share
      their trade value. */
  lemma RouteEfficiencyFacts(sqrt: real -> real, r1: Route, r2: Route, fuel: FuelType)
    requires 0.0 < fuel.efficiency
    requires |r1.systems| >= 1 && |r2.systems| >= 1
    requires r1.systems[0].resources == r2.systems[0].resources
    ensures |r1.systems| == 2 ==>
              PathDistance(sqrt, r1.systems) == SystemDistance(sqrt, r1.systems[0], r1.systems[1])
    ensures PathFuelCost(sqrt, r1.systems, fuel) == LegFuelCost(PathDistance(sqrt, r1.systems), fuel)
    ensures WeightsAllowed(r1.systems[0].resources) ==>
              Allocate(r1.systems[0].resources, fuel.efficiency, DefaultCapacity).totalValue
              == Allocate(r2.systems[0].resources, fuel.efficiency, DefaultCapacity).totalValue
  {
    PathFuelCostOfDistance(sqrt, r1.systems, fuel);
    if |r1.systems| == 2 {
      assert r1.systems[..1] == [r1.systems[0]];
    }
  }

  /** `selectedResources.reduce((sum, r) => sum + r.selectedAmount * r.price, 0)`. */
  function SelectedTradeValue(sel: seq<Selected>): real
  {
    if sel == [] then 0.0
    else SelectedTradeValue(sel[..|sel| - 1]) + sel[|sel| - 1].selectedAmount * sel[|sel| - 1].item.resource.price
  }

  /** With availabilities and prices non-negative the priced selection is
      worth something non-negative. */
  lemma {:induction false} SelectedTradeValueNonNegative(sel: seq<Selected>)
    requires forall k :: 0 <= k < |sel| ==> 0.0 <= sel[k].selectedAmount && 0.0 <= sel[k].item.resource.price
    ensures 0.0 <= SelectedTradeValue(sel)
  {
    if sel != [] {
      SelectedTradeValueNonNegative(sel[..|sel| - 1]);
      var last := sel[|sel| - 1];
      assert 0.0 <= last.selectedAmount * last.item.resource.price;
    }
  }

  /** The allocator's selection at the default capacity, priced at
      `selectedAmount * price`. */
  function AllocatedTradeValue(available: seq<Resource>, eff: real): (v: real)
    requires WeightsAllowed(available)
    ensures v == SelectedTradeValue(Allocate(available, eff, DefaultCapacity).selectedResources)
    ensures available == [] ==> v == 0.0
    ensures (forall k :: 0 <= k < |available| ==> ValidResource(available[k])) ==> 0.0 <= v
  {
    var selection := Allocate(available, eff, DefaultCapacity).selectedResources;
    assert (forall k :: 0 <= k < |available| ==> ValidResource(available[k])) ==> 0.0 <= SelectedTradeValue(selection) by {
      if forall k :: 0 <= k < |available| ==> ValidResource(available[k]) {
        AllocateSelectsFromInput(available, eff, DefaultCapacity);
        SelectedTradeValueNonNegative(selection);
      }
    }
    SelectedTradeValue(selection)
  }

  /** The report `calculateOptimalRoute` builds. */
  datatype OptimalRoute = OptimalRoute(
    distance: real,
    fuelConsumption: real,
    fuelCost: real,
    fuelType: string,
    fuelEfficiency: real,
    selectedResources: seq<Selected>,
    totalTradeValue: real,
    profit: real,
    efficiency: JsNumber)

  /** `calculateOptimalRoute(source, destination, fuelType, availableResources)`:
      the straight leg's fuel, the allocator's selection at the default
      capacity, and the selection priced at `selectedAmount * price`. */
  function CalculateOptimalRoute(sqrt: real -> real, source: StarSystem, destination: StarSystem,
                                 fuel: FuelType, available: seq<Resource>): (r: OptimalRoute)
    requires 0.0 < fuel.efficiency
    requires WeightsAllowed(available)
    ensures r.distance == Distance(sqrt, source.coordinates, destination.coordinates)
    ensures r.fuelConsumption == FuelConsumption(r.distance, fuel)
    ensures r.fuelCost == LegFuelCost(r.distance, fuel)
    ensures r.selectedResources == Allocate(available, fuel.efficiency, DefaultCapacity).selectedResources
    ensures r.totalTradeValue == SelectedTradeValue(r.selectedResources)
    ensures r.profit == r.totalTradeValue - r.fuelCost
    ensures r.efficiency == QuotientOrZero(r.profit, r.fuelCost)
    ensures SqrtLaws(sqrt) && 0.0 <= fuel.cost ==> 0.0 <= r.fuelCost
    ensures (forall k :: 0 <= k < |available| ==> ValidResource(available[k])) ==> 0.0 <= r.totalTradeValue
  {
    var distance := Distance(sqrt, source.coordinates, destination.coordinates);
    var fuelConsumption := FuelConsumption(distance, fuel);
    var fuelCost := LegFuelCost(distance, fuel);
    var optimization := Allocate(available, fuel.efficiency, DefaultCapacity);
    var totalTradeValue := AllocatedTradeValue(available, fuel.efficiency);
    var profit := totalTradeValue - fuelCost;
    OptimalRoute(distance, fuelConsumption, fuelCost, fuel.name, fuel.efficiency,
                 optimization.selectedResources, totalTradeValue, profit, QuotientOrZero(profit, fuelCost))
  }
}
