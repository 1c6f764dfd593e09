/** The server-side route optimiser: direct, hub and multi-hop routes
    between two systems, each with its own fuel-cost rate, a threshold cargo
    rule, and the push/pop waypoint enumerator, whose output is ranked by
    profit with the first route flagged optimal. */
module ServerRoutes {
  import opened Util
  import opened Geometry
  import opened StarSystems
  import opened TradeRoutes
  import opened Ranking
  import opened Text

  // ---------------------------------------------------------------------
  // calculateOptimalCargo

  /** The source resources with `availability > 50`, in source order. */
  function Abundant(resources: seq<Resource>): (a: seq<Resource>)
    ensures IsSubsequence(a, resources)
    ensures forall k :: 0 <= k < |a| ==> a[k].availability > 50.0
    ensures forall r :: r in resources && r.availability > 50.0 ==> r in a
  {
    if resources == [] then []
    else
      var rest := Abundant(resources[1..]);
      if resources[0].availability > 50.0 then
        assert ([resources[0]] + rest)[1..] == rest;
        [resources[0]] + rest
      else rest
  }

  /** One cargo line: a tenth of the availability, rounded down, at the
      resource's price. */
  function CargoOf(r: Resource): (c: CargoItem)
    ensures c.resourceName == r.name && c.price == r.price
    ensures c.amount <= r.availability / 10.0 < c.amount + 1.0
  {
    CargoItem(r.name, (r.availability / 10.0).Floor as real, r.price)
  }

  /** `calculateOptimalCargo(source, ...)`: only the source's resources
      matter; the destination and waypoints are ignored. */
  function OptimalCargo(source: StarSystem): (cargo: seq<CargoItem>)
    ensures |cargo| == |Abundant(source.resources)|
    ensures forall k :: 0 <= k < |cargo| ==> cargo[k] == CargoOf(Abundant(source.resources)[k])
  {
    CargoLines(Abundant(source.resources))
  }

  /** One cargo line per resource, in order. */
  function CargoLines(a: seq<Resource>): (cargo: seq<CargoItem>)
    ensures |cargo| == |a|
    ensures forall k :: 0 <= k < |a| ==> cargo[k] == CargoOf(a[k])
  {
    seq(|a|, k requires 0 <= k < |a| => CargoOf(a[k]))
  }

  /** The cargo lines pushed for `resources`, one resource at a time. */
  function CargoFrom(resources: seq<Resource>): seq<CargoItem>
  {
    if resources == [] then []
    else (if resources[0].availability > 50.0 then [CargoOf(resources[0])] else []) + CargoFrom(resources[1..])
  }

  /** Pushing resource by resource gives one line per abundant resource. */
  lemma {:induction false} CargoFromLines(resources: seq<Resource>)
    ensures CargoFrom(resources) == CargoLines(Abundant(resources))
  {
    if resources != [] {
      CargoFromLines(resources[1..]);
      if resources[0].availability > 50.0 {
        CargoLinesCons(resources[0], Abundant(resources[1..]));
      }
    }
  }

  lemma CargoLinesCons(r: Resource, rest: seq<Resource>)
    ensures CargoLines([r] + rest) == [CargoOf(r)] + CargoLines(rest)
  {
    var lhs, rhs := CargoLines([r] + rest), [CargoOf(r)] + CargoLines(rest);
    forall k | 0 < k < |lhs| ensures lhs[k] == rhs[k] {
      assert ([r] + rest)[k] == rest[k - 1];
    }
  }

  /** One pass of the loop: resource i's line, if it is abundant, moves from
      the cargo still to be pushed onto the cargo already pushed. */
  lemma CargoFromStep(resources: seq<Resource>, i: nat, cargo: seq<CargoItem>)
    requires i < |resources|
    ensures cargo + CargoFrom(resources[i..])
            == (cargo + if resources[i].availability > 50.0 then [CargoOf(resources[i])] else [])
               + CargoFrom(resources[i + 1..])
  {
    assert resources[i..][1..] == resources[i + 1..];
    var head := if resources[i].availability > 50.0 then [CargoOf(resources[i])] else [];
    var rest := CargoFrom(resources[i + 1..]);
    assert CargoFrom(resources[i..]) == head + rest;
    assert cargo + (head + rest) == (cargo + head) + rest;
  }

  /** The for-of loop of `calculateOptimalCargo`: one pushed line per
      abundant resource, which is `OptimalCargo`. */
  method CalculateOptimalCargo(source: StarSystem) returns (cargo: seq<CargoItem>)
    ensures cargo == OptimalCargo(source)
  {
    cargo := PushCargo(source.resources);
    CargoFromOptimal(source);
  }

  /** The loop itself: `cargo.push(...)` for each abundant resource. */
  method PushCargo(resources: seq<Resource>) returns (cargo: seq<CargoItem>)
    ensures cargo == CargoFrom(resources)
  {
    cargo := [];
    var i := 0;
    assert resources[0..] == resources;
    while i < |resources|
      invariant 0 <= i <= |resources|
      invariant cargo + CargoFrom(resources[i..]) == CargoFrom(resources)
    {
      var resource := resources[i];
      CargoFromStep(resources, i, cargo);
      if resource.availability > 50.0 {
        cargo := cargo + [CargoOf(resource)];
      }
      i := i + 1;
    }
    assert resources[i..] == [] && CargoFrom([]) == [];
    assert cargo + [] == cargo;
  }

  lemma CargoFromOptimal(source: StarSystem)
    ensures CargoFrom(source.resources) == OptimalCargo(source)
  {
    CargoFromLines(source.resources);
  }

  /** A valid source yields valid cargo: every amount is at least 5 and every
      price is the resource's non-negative price, so the cargo is worth
      something non-negative. */
  lemma OptimalCargoValid(source: StarSystem)
    requires ValidSystem(source)
    ensures ValidCargo(OptimalCargo(source))
    ensures forall k :: 0 <= k < |OptimalCargo(source)| ==> 5.0 <= OptimalCargo(source)[k].amount
    ensures 0.0 <= TotalValue(OptimalCargo(source))
  {
    var a := Abundant(source.resources);
    var cargo := OptimalCargo(source);
    AbundantValid(source.resources);
    forall k | 0 <= k < |cargo|
      ensures cargo[k].resourceName != "" && 5.0 <= cargo[k].amount && 0.0 <= cargo[k].price
    {
      CargoOfAbundant(a[k]);
    }
  }

  /** The abundant resources of valid resources are valid. */
  lemma {:induction false} AbundantValid(resources: seq<Resource>)
    requires forall k :: 0 <= k < |resources| ==> ValidResource(resources[k])
    ensures forall k :: 0 <= k < |Abundant(resources)| ==> ValidResource(Abundant(resources)[k])
  {
    if resources != [] {
      AbundantValid(resources[1..]);
    }
  }

  /** A valid resource with availability over 50 gives at least 5 units, at
      a non-negative price, under a non-empty name. */
  lemma CargoOfAbundant(r: Resource)
    requires ValidResource(r) && r.availability > 50.0
    ensures CargoOf(r).resourceName != "" && 5.0 <= CargoOf(r).amount && 0.0 <= CargoOf(r).price
  {
    assert 5.0 < r.availability / 10.0;
  }

  // ---------------------------------------------------------------------
  // calculateMultiHopDistance

  /** `calculateMultiHopDistance(source, destination, waypoints)`. */
  method MultiHopDistance(sqrt: real -> real, source: StarSystem, destination: StarSystem, waypoints: seq<StarSystem>)
    returns (totalDistance: real)
    ensures totalDistance == PathDistance(sqrt, [source] + waypoints + [destination])
  {
    totalDistance := 0.0;
    var current := source;
    var i := 0;
    while i < |waypoints|
      invariant 0 <= i <= |waypoints|
      invariant current == ([source] + waypoints[..i])[i]
      invariant totalDistance == PathDistance(sqrt, [source] + waypoints[..i])
    {
      var waypoint := waypoints[i];
      WalkLeg(sqrt, source, waypoints, i);
      totalDistance := totalDistance + SystemDistance(sqrt, current, waypoint);
      current := waypoint;
      i := i + 1;
    }
    assert waypoints[..i] == waypoints;
    WalkLastLeg(sqrt, source, waypoints, destination);
    totalDistance := totalDistance + SystemDistance(sqrt, current, destination);
  }

  /** The walk through one more waypoint adds the leg to it. */
  lemma WalkLeg(sqrt: real -> real, source: StarSystem, waypoints: seq<StarSystem>, i: nat)
    requires i < |waypoints|
    ensures ([source] + waypoints[..i + 1])[i + 1] == waypoints[i]
    ensures PathDistance(sqrt, [source] + waypoints[..i + 1])
            == PathDistance(sqrt, [source] + waypoints[..i]) + SystemDistance(sqrt, ([source] + waypoints[..i])[i], waypoints[i])
  {
    var walked := [source] + waypoints[..i + 1];
    assert walked[..i + 1] == [source] + waypoints[..i];
  }

  /** The whole walk is the walk through the waypoints plus the leg to the
      destination. */
  lemma WalkLastLeg(sqrt: real -> real, source: StarSystem, waypoints: seq<StarSystem>, destination: StarSystem)
    ensures PathDistance(sqrt, [source] + waypoints + [destination])
            == PathDistance(sqrt, [source] + waypoints) + SystemDistance(sqrt, ([source] + waypoints)[|waypoints|], destination)
  {
    var walk := [source] + waypoints + [destination];
    assert walk[..|walk| - 1] == [source] + waypoints;
  }

  /** Without waypoints the walk is the direct distance; with waypoints it is
      the sum of the legs through them, never negative. */
  lemma MultiHopDistanceFacts(sqrt: real -> real, source: StarSystem, destination: StarSystem, waypoints: seq<StarSystem>)
    ensures waypoints == [] ==>
              PathDistance(sqrt, [source] + waypoints + [destination]) == SystemDistance(sqrt, source, destination)
    ensures SqrtLaws(sqrt) ==> 0.0 <= PathDistance(sqrt, [source] + waypoints + [destination])
  {
    if waypoints == [] {
      assert ([source] + waypoints + [destination])[..1] == [source];
    }
  }

  // ---------------------------------------------------------------------
  // calculateDirectRoute

  /** `calculateDirectRoute(source, destination)`. */
  function DirectRoute(sqrt: real -> real, source: StarSystem, destination: StarSystem): (r: TradeRoute)
    ensures r.sourceSystem == source.id && r.destinationSystem == destination.id
    ensures r.waypoints == [] && r.routeType == Direct && !r.isOptimal && r.status == Active
    ensures r.distance == SystemDistance(sqrt, source, destination)
    ensures r.fuelCost == r.distance * 0.1
    ensures r.tradeValue <= TradeValue(source) && r.tradeValue <= TradeValue(destination)
    ensures r.tradeValue == TradeValue(source) || r.tradeValue == TradeValue(destination)
    ensures r.profit == r.tradeValue - r.fuelCost
    ensures r.cargo == OptimalCargo(source)
  {
    var distance := SystemDistance(sqrt, source, destination);
    var fuelCost := distance * 0.1;
    var tradeValue := MinOf([TradeValue(source), TradeValue(destination)]);
    NewRoute(source.name + Arrow + destination.name, source.id, destination.id, [],
             distance, fuelCost, tradeValue, tradeValue - fuelCost, Direct, OptimalCargo(source))
  }

  // ---------------------------------------------------------------------
  // calculateHubRoutes

  /** `allSystems.filter(system => system.isTradeHub)`. */
  function TradeHubs(all: seq<StarSystem>): (hubs: seq<StarSystem>)
    ensures IsSubsequence(hubs, all)
    ensures forall k :: 0 <= k < |hubs| ==> hubs[k].isTradeHub
    ensures forall s :: s in all && s.isTradeHub ==> s in hubs
  {
    if all == [] then []
    else
      var rest := TradeHubs(all[1..]);
      if all[0].isTradeHub then
        assert ([all[0]] + rest)[1..] == rest;
        [all[0]] + rest
      else rest
  }

  /** A hub is used unless it is one of the endpoints. */
  predicate UsableHub(hub: StarSystem, source: StarSystem, destination: StarSystem) {
    hub.id != source.id && hub.id != destination.id
  }

  /** The route through one hub. */
  function HubRoute(sqrt: real -> real, source: StarSystem, hub: StarSystem, destination: StarSystem): (r: TradeRoute)
    ensures r.sourceSystem == source.id && r.destinationSystem == destination.id
    ensures r.waypoints == [hub.id] && r.routeType == Hub && !r.isOptimal
    ensures r.distance == SystemDistance(sqrt, source, hub) + SystemDistance(sqrt, hub, destination)
    ensures r.fuelCost == r.distance * 0.08
    ensures r.tradeValue <= TradeValue(source) && r.tradeValue <= TradeValue(hub)
            && r.tradeValue <= TradeValue(destination)
    ensures r.tradeValue in {TradeValue(source), TradeValue(hub), TradeValue(destination)}
    ensures r.profit == r.tradeValue - r.fuelCost
    ensures r.cargo == OptimalCargo(source)
  {
    var totalDistance := SystemDistance(sqrt, source, hub) + SystemDistance(sqrt, hub, destination);
    var fuelCost := totalDistance * 0.08;
    var values := [TradeValue(source), TradeValue(hub), TradeValue(destination)];
    assert values[0] == TradeValue(source) && values[1] == TradeValue(hub) && values[2] == TradeValue(destination);
    var tradeValue := MinOf(values);
    NewRoute(source.name + Arrow + hub.name + Arrow + destination.name, source.id, destination.id, [hub.id],
             totalDistance, fuelCost, tradeValue, tradeValue - fuelCost, Hub, OptimalCargo(source))
  }

  /** The routes the hub loop pushes after visiting `hubs`. */
  function HubRoutesOf(sqrt: real -> real, source: StarSystem, destination: StarSystem, hubs: seq<StarSystem>): seq<TradeRoute>
  {
    if hubs == [] then []
    else
      var n := |hubs| - 1;
      HubRoutesOf(sqrt, source, destination, hubs[..n])
        + (if UsableHub(hubs[n], source, destination) then [HubRoute(sqrt, source, hubs[n], destination)] else [])
  }

  /** Visiting one more hub pushes its route when the hub is usable. */
  lemma HubRoutesStep(sqrt: real -> real, source: StarSystem, destination: StarSystem, hubs: seq<StarSystem>, i: nat)
    requires i < |hubs|
    ensures HubRoutesOf(sqrt, source, destination, hubs[..i + 1])
            == HubRoutesOf(sqrt, source, destination, hubs[..i])
               + (if UsableHub(hubs[i], source, destination) then [HubRoute(sqrt, source, hubs[i], destination)] else [])
  {
    assert hubs[..i + 1][..i] == hubs[..i];
  }

  /** `calculateHubRoutes(source, destination, allSystems)`. */
  method HubRoutes(sqrt: real -> real, source: StarSystem, destination: StarSystem, all: seq<StarSystem>)
    returns (routes: seq<TradeRoute>)
    ensures routes == HubRoutesOf(sqrt, source, destination, TradeHubs(all))
  {
    var tradeHubs := TradeHubs(all);
    routes := [];
    var i := 0;
    while i < |tradeHubs|
      invariant 0 <= i <= |tradeHubs|
      invariant routes == HubRoutesOf(sqrt, source, destination, tradeHubs[..i])
    {
      var hub := tradeHubs[i];
      HubRoutesStep(sqrt, source, destination, tradeHubs, i);
      if UsableHub(hub, source, destination) {
        routes := routes + [HubRoute(sqrt, source, hub, destination)];
      }
      i := i + 1;
    }
    assert tradeHubs[..i] == tradeHubs;
  }

  /** Exactly one route per usable trade hub: every route goes through a
      trade hub other than the endpoints, and every such hub has its route. */
  lemma {:induction false} HubRoutesComplete(sqrt: real -> real, source: StarSystem, destination: StarSystem, hubs: seq<StarSystem>)
    ensures forall r :: r in HubRoutesOf(sqrt, source, destination, hubs) ==>
              exists h :: h in hubs && UsableHub(h, source, destination) && r == HubRoute(sqrt, source, h, destination)
    ensures forall h :: h in hubs && UsableHub(h, source, destination) ==>
              HubRoute(sqrt, source, h, destination) in HubRoutesOf(sqrt, source, destination, hubs)
  {
    if hubs != [] {
      var n := |hubs| - 1;
      HubRoutesComplete(sqrt, source, destination, hubs[..n]);
      assert hubs == hubs[..n] + [hubs[n]];
    }
  }

  // ---------------------------------------------------------------------
  // generateCombinations

  /** What `generate(current, remaining, length)` appends to the list. */
  function Gen<T>(current: seq<T>, remaining: seq<T>, length: int): seq<seq<T>>
    decreases |remaining|, 1
  {
    if length == 0 || remaining == [] then (if current != [] then [current] else [])
    else GenFrom(current, remaining, length, 0)
  }

  /** What the loop `for (i = from; i < remaining.length; i++)` appends. */
  function GenFrom<T>(current: seq<T>, remaining: seq<T>, length: int, from: nat): seq<seq<T>>
    requires from <= |remaining|
    decreases |remaining|, 0, |remaining| - from
  {
    if from == |remaining| then []
    else Gen(current + [remaining[from]], remaining[from + 1..], length - 1)
         + GenFrom(current, remaining, length, from + 1)
  }

  /** The closure's state: the shared accumulator `current` and the output
      list `combinations`. */
  class CombinationGenerator<T> {
    var current: seq<T>
    var combinations: seq<seq<T>>

    constructor ()
      ensures current == [] && combinations == []
    {
      current := [];
      combinations := [];
    }

    /** `generate(current, remaining, length)`: emit a copy of `current` when
        the length is used up or nothing remains, otherwise push each
        remaining element in turn, recurse on what follows it, and pop. */
    method Generate(remaining: seq<T>, length: int)
      modifies this
      ensures current == old(current)
      ensures combinations == old(combinations) + Gen(old(current), remaining, length)
      decreases |remaining|
    {
      if length == 0 || |remaining| == 0 {
        if |current| > 0 {
          combinations := combinations + [current];
        }
        return;
      }
      var i := 0;
      while i < |remaining|
        invariant 0 <= i <= |remaining|
        invariant current == old(current)
        invariant old(combinations) + GenFrom(current, remaining, length, 0)
                  == combinations + GenFrom(current, remaining, length, i)
      {
        ghost var before := combinations;
        current := current + [remaining[i]];
        Generate(remaining[i + 1..], length - 1);
        current := current[..|current| - 1];
        assert current == old(current);
        assert combinations + GenFrom(current, remaining, length, i + 1)
            == before + GenFrom(current, remaining, length, i);
        i := i + 1;
      }
    }
  }

  /** What `generateCombinations(systems, maxLength)` returns: the output of
      `generate([], systems, length)` for length 1, 2, ..., maxLength. */
  function AllCombinations<T>(systems: seq<T>, maxLength: int): seq<seq<T>>
    decreases if maxLength < 0 then 0 else maxLength
  {
    if maxLength < 1 then []
    else AllCombinations(systems, maxLength - 1) + Gen([], systems, maxLength)
  }

  /** `generateCombinations(systems, maxLength)`. */
  method GenerateCombinations<T>(systems: seq<T>, maxLength: int) returns (combinations: seq<seq<T>>)
    ensures combinations == AllCombinations(systems, maxLength)
  {
    var g := new CombinationGenerator<T>();
    var length := 1;
    while length <= maxLength
      invariant 1 <= length && (length == 1 || length <= maxLength + 1)
      invariant g.combinations == AllCombinations(systems, length - 1)
    {
      g.current := [];
      g.Generate(systems, length);
      length := length + 1;
    }
    combinations := g.combinations;
  }

  /** Every emitted list starts with `current`, continues with elements of
      `remaining` in order, adds at most `length` of them, and is non-empty. */
  lemma {:induction false} GenShape<T>(current: seq<T>, remaining: seq<T>, length: int)
    requires 0 <= length
    ensures forall l :: l in Gen(current, remaining, length) ==>
              && l != []
              && |current| <= |l| <= |current| + length
              && l[..|current|] == current
              && IsSubsequence(l[|current|..], remaining)
    decreases |remaining|, 1
  {
    if length == 0 || remaining == [] {
      forall l | l in Gen(current, remaining, length)
        ensures IsSubsequence(l[|current|..], remaining)
      {
        assert l == current;
        assert l[|current|..] == [];
      }
    } else {
      GenFromShape(current, remaining, length, 0);
    }
  }

  lemma {:induction false} GenFromShape<T>(current: seq<T>, remaining: seq<T>, length: int, from: nat)
    requires 1 <= length && from <= |remaining|
    ensures forall l :: l in GenFrom(current, remaining, length, from) ==>
              && l != []
              && |current| <= |l| <= |current| + length
              && l[..|current|] == current
              && IsSubsequence(l[|current|..], remaining)
    decreases |remaining|, 0, |remaining| - from
  {
    if from < |remaining| {
      var x := remaining[from];
      var after := remaining[from + 1..];
      GenShape(current + [x], after, length - 1);
      GenFromShape(current, remaining, length, from + 1);
      forall l | l in Gen(current + [x], after, length - 1)
        ensures && l != []
                && |current| <= |l| <= |current| + length
                && l[..|current|] == current
                && IsSubsequence(l[|current|..], remaining)
      {
        var tail := l[|current| + 1..];
        assert l[..|current| + 1] == current + [x];
        assert l[..|current|] == (current + [x])[..|current|];
        assert l[|current|..] == [x] + tail;
        var s := remaining[from..];
        assert s[0] == x && s[1..] == after;
        assert ([x] + tail)[1..] == tail;
        assert IsSubsequence(l[|current|..], s);
        SubsequenceOfSuffix(l[|current|..], remaining, from);
      }
    }
  }

  /** Every list `generateCombinations` returns is non-empty, has at most
      `maxLength` elements and keeps the order of `systems`; when `systems`
      has no repeats, neither has any of the lists. */
  lemma {:induction false} AllCombinationsShape<T>(systems: seq<T>, maxLength: int)
    ensures forall l :: l in AllCombinations(systems, maxLength) ==>
              && l != [] && |l| <= maxLength
              && IsSubsequence(l, systems)
              && (Distinct(systems) ==> Distinct(l))
    decreases if maxLength < 0 then 0 else maxLength
  {
    if maxLength >= 1 {
      AllCombinationsShape(systems, maxLength - 1);
      GenShape([], systems, maxLength);
      forall l | l in Gen([], systems, maxLength)
        ensures && l != [] && |l| <= maxLength
                && IsSubsequence(l, systems)
                && (Distinct(systems) ==> Distinct(l))
      {
        assert l[0..] == l;
        if Distinct(systems) {
          SubsequenceDistinct(l, systems);
        }
      }
    }
  }

  /** Whatever the length, once `remaining` is non-empty the last list
      emitted is `current` plus the last remaining element: the branch that
      pushes the last element finds nothing left and emits early. */
  lemma {:induction false} GenEndsWithLast<T>(current: seq<T>, remaining: seq<T>, length: int)
    requires remaining != [] && 1 <= length
    ensures Gen(current, remaining, length) != []
    ensures Gen(current, remaining, length)[|Gen(current, remaining, length)| - 1]
            == current + [remaining[|remaining| - 1]]
  {
    GenFromEndsWithLast(current, remaining, length, 0);
  }

  lemma {:induction false} GenFromEndsWithLast<T>(current: seq<T>, remaining: seq<T>, length: int, from: nat)
    requires from < |remaining| && 1 <= length
    ensures GenFrom(current, remaining, length, from) != []
    ensures GenFrom(current, remaining, length, from)[|GenFrom(current, remaining, length, from)| - 1]
            == current + [remaining[|remaining| - 1]]
    decreases |remaining| - from
  {
    if from == |remaining| - 1 {
      var x := remaining[from];
      assert remaining[from + 1..] == [];
      assert Gen(current + [x], [], length - 1) == [current + [x]];
    } else {
      GenFromEndsWithLast(current, remaining, length, from + 1);
    }
  }

  /** The enumerator repeats itself: for a non-empty input and a maximum
      length of at least 2, the singleton of the last system is emitted at
      the end of the pass for length 1 and again at the end of every later
      pass. The output is therefore not the set of combinations. */
  lemma AllCombinationsRepeatLast<T>(systems: seq<T>, maxLength: int)
    requires systems != [] && 2 <= maxLength
    ensures var all := AllCombinations(systems, maxLength);
            var p := |AllCombinations(systems, maxLength - 1)|;
            && 1 <= p < |all|
            && all[p - 1] == [systems[|systems| - 1]]
            && all[|all| - 1] == [systems[|systems| - 1]]
  {
    var prev := AllCombinations(systems, maxLength - 1);
    var last := Gen([], systems, maxLength);
    GenEndsWithLast([], systems, maxLength);
    var before := AllCombinations(systems, maxLength - 2);
    GenEndsWithLast([], systems, maxLength - 1);
    assert prev == before + Gen([], systems, maxLength - 1);
    assert prev[|prev| - 1] == [systems[|systems| - 1]];
    assert AllCombinations(systems, maxLength) == prev + last;
  }

  /** A concrete instance: one system and at most two waypoints gives the
      same one-stop list twice, where the distinct combinations number one. */
  lemma OneSystemTwice(a: int)
    ensures AllCombinations([a], 2) == [[a], [a]]
    ensures SumBinomials(1, 2) == 1
  {
    assert [a][1..] == [];
    assert Gen([], [a], 1) == [[a]] by {
      assert [] + [a] == [a];
      assert GenFrom([], [a], 1, 0) == Gen([a], [], 0) + GenFrom([], [a], 1, 1);
      assert GenFrom([], [a], 1, 1) == [];
      assert Gen([a], [], 0) == [[a]];
    }
    assert Gen([], [a], 2) == [[a]] by {
      assert [] + [a] == [a];
      assert GenFrom([], [a], 2, 0) == Gen([a], [], 1) + GenFrom([], [a], 2, 1);
      assert GenFrom([], [a], 2, 1) == [];
      assert Gen([a], [], 1) == [[a]];
    }
    assert AllCombinations([a], 0) == [];
  }

  // ---------------------------------------------------------------------
  // calculateMultiHopRoutes

  /** The trade values of the systems a route visits, source first. */
  function TradeValues(systems: seq<StarSystem>): (v: seq<real>)
    ensures |v| == |systems|
    ensures forall k :: 0 <= k < |systems| ==> v[k] == TradeValue(systems[k])
  {
    seq(|systems|, k requires 0 <= k < |systems| => TradeValue(systems[k]))
  }

  /** The multi-hop candidate through `waypoints`, before the profit test. */
  function MultiHopRoute(sqrt: real -> real, source: StarSystem, destination: StarSystem, waypoints: seq<StarSystem>): TradeRoute
  {
    var stops := [source] + waypoints + [destination];
    var totalDistance := PathDistance(sqrt, stops);
    var fuelCost := totalDistance * 0.12;
    var tradeValue := MinOf(TradeValues(stops));
    NewRoute(source.name + Arrow + Join(SystemNames(waypoints), Arrow) + Arrow + destination.name,
             source.id, destination.id, SystemIds(waypoints),
             totalDistance, fuelCost, tradeValue, tradeValue - fuelCost, MultiHop, OptimalCargo(source))
  }

  /** A multi-hop candidate runs from the source through the waypoints to
      the destination, pays 0.12 per unit of distance, and is worth the
      smallest trade value of the systems it visits. */
  lemma MultiHopRouteFacts(sqrt: real -> real, source: StarSystem, destination: StarSystem, waypoints: seq<StarSystem>)
    ensures var r := MultiHopRoute(sqrt, source, destination, waypoints);
            var stops := [source] + waypoints + [destination];
            && r.sourceSystem == source.id && r.destinationSystem == destination.id
            && r.waypoints == SystemIds(waypoints) && r.routeType == MultiHop && !r.isOptimal
            && r.distance == PathDistance(sqrt, stops)
            && r.fuelCost == r.distance * 0.12
            && (forall k :: 0 <= k < |stops| ==> r.tradeValue <= TradeValue(stops[k]))
            && r.tradeValue in TradeValues(stops)
            && r.profit == r.tradeValue - r.fuelCost
            && r.cargo == OptimalCargo(source)
  {
  }

  /** One candidate per waypoint list, before the profit test. */
  function Candidates(sqrt: real -> real, source: StarSystem, destination: StarSystem,
                      combos: seq<seq<StarSystem>>): (c: seq<TradeRoute>)
    ensures |c| == |combos|
    ensures forall j :: 0 <= j < |combos| ==> c[j] == MultiHopRoute(sqrt, source, destination, combos[j])
  {
    seq(|combos|, j requires 0 <= j < |combos| => MultiHopRoute(sqrt, source, destination, combos[j]))
  }

  /** The routes the multi-hop loop keeps: those with positive profit, in
      order. */
  function Profitable(routes: seq<TradeRoute>): (kept: seq<TradeRoute>)
    ensures |kept| <= |routes|
  {
    if routes == [] then []
    else
      var n := |routes| - 1;
      Profitable(routes[..n]) + (if routes[n].profit > 0.0 then [routes[n]] else [])
  }

  /** Visiting one more route keeps it exactly when its profit is positive. */
  lemma ProfitableStep(routes: seq<TradeRoute>, i: int)
    requires 0 <= i < |routes|
    ensures Profitable(routes[..i + 1]) == Profitable(routes[..i]) + (if routes[i].profit > 0.0 then [routes[i]] else [])
  {
    assert routes[..i + 1][..i] == routes[..i];
  }

  /** The kept routes are exactly the profitable ones: each kept route is
      one of the inputs with positive profit, and each input with positive
      profit is kept. */
  lemma {:induction false} ProfitableMembers(routes: seq<TradeRoute>)
    ensures forall r :: r in Profitable(routes) <==> r in routes && r.profit > 0.0
  {
    if routes != [] {
      var n := |routes| - 1;
      ProfitableMembers(routes[..n]);
      assert routes == routes[..n] + [routes[n]];
    }
  }

  /** The body of the multi-hop loop up to the profit test: walk the legs,
      price the fuel at 0.12 per unit of distance, take the smallest trade
      value on the route. */
  method BuildMultiHopRoute(sqrt: real -> real, source: StarSystem, destination: StarSystem, waypoints: seq<StarSystem>)
    returns (route: TradeRoute)
    ensures route == MultiHopRoute(sqrt, source, destination, waypoints)
  {
    var totalDistance := MultiHopDistance(sqrt, source, destination, waypoints);
    var fuelCost := totalDistance * 0.12;
    var tradeValue := MinOf(TradeValues([source] + waypoints + [destination]));
    var profit := tradeValue - fuelCost;
    var cargo := CalculateOptimalCargo(source);
    route := NewRoute(source.name + Arrow + Join(SystemNames(waypoints), Arrow) + Arrow + destination.name,
                      source.id, destination.id, SystemIds(waypoints),
                      totalDistance, fuelCost, tradeValue, profit, MultiHop, cargo);
  }

  /** The loop of `calculateMultiHopRoutes`: build the candidate through
      each waypoint list and keep it when its profit is positive. */
  method KeepProfitableRoutes(sqrt: real -> real, source: StarSystem, destination: StarSystem,
                              waypointCombinations: seq<seq<StarSystem>>)
    returns (routes: seq<TradeRoute>)
    ensures routes == Profitable(Candidates(sqrt, source, destination, waypointCombinations))
  {
    ghost var candidates := Candidates(sqrt, source, destination, waypointCombinations);
    routes := [];
    var i := 0;
    while i < |waypointCombinations|
      invariant 0 <= i <= |waypointCombinations|
      invariant routes == Profitable(candidates[..i])
    {
      var route := BuildMultiHopRoute(sqrt, source, destination, waypointCombinations[i]);
      assert route == candidates[i];
      ProfitableStep(candidates, i);
      if route.profit > 0.0 {
        routes := routes + [route];
      }
      i := i + 1;
    }
    assert candidates[..i] == candidates;
  }

  /** `calculateMultiHopRoutes(source, destination, allSystems, maxWaypoints)`:
      the profitable candidates through every waypoint combination of the
      other systems, in enumeration order. */
  method MultiHopRoutes(sqrt: real -> real, source: StarSystem, destination: StarSystem,
                        all: seq<StarSystem>, maxWaypoints: int)
    returns (routes: seq<TradeRoute>)
    ensures routes == Profitable(Candidates(sqrt, source, destination,
                                            AllCombinations(OtherSystems(all, source, destination), maxWaypoints)))
  {
    var otherSystems := OtherSystems(all, source, destination);
    var waypointCombinations := GenerateCombinations(otherSystems, maxWaypoints);
    routes := KeepProfitableRoutes(sqrt, source, destination, waypointCombinations);
  }

  // ---------------------------------------------------------------------
  // Combining, ranking and flagging (the optimise endpoint, lines 57-64)

  function Profit(r: TradeRoute): real { r.profit }

  /** `[directRoute, ...hubRoutes, ...multiHopRoutes].sort(by profit)` with
      the first element flagged optimal. */
  method RankRoutes(direct: TradeRoute, hubs: seq<TradeRoute>, multiHops: seq<TradeRoute>)
    returns (routes: seq<TradeRoute>)
    ensures |routes| == 1 + |hubs| + |multiHops|
    ensures routes[0] == SortDesc([direct] + hubs + multiHops, Profit)[0].(isOptimal := true)
    ensures routes[1..] == SortDesc([direct] + hubs + multiHops, Profit)[1..]
  {
    routes := SortDesc([direct] + hubs + multiHops, Profit);
    if |routes| > 0 {
      routes := routes[0 := routes[0].(isOptimal := true)];
    }
  }

  /** The ranked list holds the same routes, ordered by non-increasing
      profit; the first has the highest profit of all and is the only one
      flagged optimal when none was before. */
  lemma RankedRoutes(direct: TradeRoute, hubs: seq<TradeRoute>, multiHops: seq<TradeRoute>)
    requires !direct.isOptimal
    requires forall r :: r in hubs + multiHops ==> !r.isOptimal
    ensures var all := [direct] + hubs + multiHops;
            var sorted := SortDesc(all, Profit);
            && multiset(sorted) == multiset(all)
            && NonIncreasing(sorted, Profit)
            && (forall r :: r in all ==> sorted[0].profit >= r.profit)
            && (forall k :: 1 <= k < |sorted| ==> !sorted[k].isOptimal)
  {
    var all := [direct] + hubs + multiHops;
    var sorted := SortDesc(all, Profit);
    SortDescNonIncreasing(all, Profit);
    SortDescFirstIsMaximal(all, Profit);
    forall r | r in all ensures sorted[0].profit >= r.profit {
      var j :| 0 <= j < |all| && all[j] == r;
    }
    forall k | 1 <= k < |sorted| ensures !sorted[k].isOptimal {
      assert sorted[k] in multiset(all);
      if sorted[k] != direct {
        assert sorted[k] in hubs + multiHops;
      }
    }
  }
}
