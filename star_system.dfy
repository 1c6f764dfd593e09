/** The star-system document: its schema bounds as a validity predicate, and
    the two instance methods `calculateDistance` and `calculateTradeValue`. */
module StarSystems {
  import opened Util
  import opened Geometry

  /** A tradable good. The stored schema has no `weight`; the cargo
      allocator reads one when present, so it is optional here. */
  datatype Resource = Resource(name: string, availability: real, price: real, weight: Option<real>)

  datatype Consumption = Consumption(resourceName: string, amount: real)

  /** A fuel profile: name, cost per unit consumed, efficiency percentage. */
  datatype FuelType = FuelType(name: string, cost: real, efficiency: real)

  datatype FuelStation = FuelStation(available: bool, price: real, fuelTypes: seq<FuelType>)

  datatype StarSystem = StarSystem(
    id: string,
    name: string,
    coordinates: Coordinate,
    population: real,
    resources: seq<Resource>,
    consumption: seq<Consumption>,
    isTradeHub: bool,
    economicGrowth: real,
    fuelStation: FuelStation)

  /** Resource schema: required name, availability in [0, 100], price >= 0. */
  predicate ValidResource(r: Resource) {
    r.name != "" && 0.0 <= r.availability <= 100.0 && 0.0 <= r.price
  }

  predicate ValidConsumption(c: Consumption) {
    c.resourceName != "" && 0.0 <= c.amount
  }

  /** Fuel types of a station: cost >= 0 and efficiency in [0, 100]. */
  predicate ValidFuelType(f: FuelType) {
    f.name != "" && 0.0 <= f.cost && 0.0 <= f.efficiency <= 100.0
  }

  /** Every bound the star-system schema enforces. */
  predicate ValidSystem(s: StarSystem) {
    && s.name != ""
    && 0.0 <= s.population
    && (forall k :: 0 <= k < |s.resources| ==> ValidResource(s.resources[k]))
    && (forall k :: 0 <= k < |s.consumption| ==> ValidConsumption(s.consumption[k]))
    && -100.0 <= s.economicGrowth <= 100.0
    && (forall k :: 0 <= k < |s.fuelStation.fuelTypes| ==> ValidFuelType(s.fuelStation.fuelTypes[k]))
  }

  /** The schema defaults: not a hub, no economic growth, an open station
      at price 1.0 with no fuel types. */
  function NewSystem(id: string, name: string, coordinates: Coordinate, population: real,
                     resources: seq<Resource>, consumption: seq<Consumption>): (s: StarSystem)
    ensures !s.isTradeHub && s.economicGrowth == 0.0
    ensures s.fuelStation.available && s.fuelStation.price == 1.0 && s.fuelStation.fuelTypes == []
    ensures name != "" && 0.0 <= population
            && (forall k :: 0 <= k < |resources| ==> ValidResource(resources[k]))
            && (forall k :: 0 <= k < |consumption| ==> ValidConsumption(consumption[k]))
            ==> ValidSystem(s)
  {
    StarSystem(id, name, coordinates, population, resources, consumption, false, 0.0,
               FuelStation(true, 1.0, []))
  }

  /** `system.calculateDistance(other)`, written over the systems' own
      coordinate fields; it is the coordinate distance of Geometry, so it is
      non-negative and 0 between systems at the same place. */
  function SystemDistance(sqrt: real -> real, a: StarSystem, b: StarSystem): (d: real)
    ensures d == Distance(sqrt, a.coordinates, b.coordinates)
    ensures SqrtLaws(sqrt) ==> 0.0 <= d
    ensures SqrtLaws(sqrt) && a.coordinates == b.coordinates ==> d == 0.0
  {
    var dx := a.coordinates.x - b.coordinates.x;
    var dy := a.coordinates.y - b.coordinates.y;
    var dz := a.coordinates.z - b.coordinates.z;
    var squared := dx * dx + dy * dy + dz * dz;
    assert squared == SquaredDistance(a.coordinates, b.coordinates);
    sqrt(squared)
  }

  /** Distance between systems is symmetric, non-negative and 0 to itself. */
  lemma SystemDistanceLaws(sqrt: real -> real, a: StarSystem, b: StarSystem)
    requires SqrtLaws(sqrt)
    ensures SystemDistance(sqrt, a, b) == SystemDistance(sqrt, b, a)
    ensures 0.0 <= SystemDistance(sqrt, a, b)
    ensures SystemDistance(sqrt, a, a) == 0.0
  {
    DistanceSymmetric(sqrt, a.coordinates, b.coordinates);
  }

  /** Sum of availability * price over the resources. */
  function ResourceValue(resources: seq<Resource>): real
  {
    if resources == [] then 0.0
    else resources[0].availability * resources[0].price + ResourceValue(resources[1..])
  }

  lemma {:induction false} ResourceValueNonNegative(resources: seq<Resource>)
    requires forall k :: 0 <= k < |resources| ==> ValidResource(resources[k])
    ensures 0.0 <= ResourceValue(resources)
  {
    if resources != [] {
      ResourceValueNonNegative(resources[1..]);
      var r := resources[0];
      assert ValidResource(r);
      assert 0.0 <= r.availability * r.price;
    }
  }

  /** `system.calculateTradeValue()`: resource value scaled by population
      in millions. */
  function TradeValue(s: StarSystem): (v: real)
    ensures s.resources == [] || s.population == 0.0 ==> v == 0.0
    ensures ValidSystem(s) ==> 0.0 <= v
  {
    var resourceValue := ResourceValue(s.resources);
    assert ValidSystem(s) ==> 0.0 <= resourceValue by {
      if ValidSystem(s) { ResourceValueNonNegative(s.resources); }
    }
    resourceValue * (s.population / 1000000.0)
  }

  /** The length of a walk through `systems`: the sum of the distances of
      consecutive systems. */
  function PathDistance(sqrt: real -> real, systems: seq<StarSystem>): (d: real)
    ensures SqrtLaws(sqrt) ==> 0.0 <= d
  {
    if |systems| <= 1 then 0.0
    else
      var n := |systems|;
      assert SqrtLaws(sqrt) ==> 0.0 <= SystemDistance(sqrt, systems[n - 2], systems[n - 1]) by {
        if SqrtLaws(sqrt) { SystemDistanceLaws(sqrt, systems[n - 2], systems[n - 1]); }
      }
      PathDistance(sqrt, systems[..n - 1]) + SystemDistance(sqrt, systems[n - 2], systems[n - 1])
  }

  /** The systems' names, in order (`.map(s => s.name)`). */
  function SystemNames(systems: seq<StarSystem>): (names: seq<string>)
    ensures |names| == |systems|
    ensures forall k :: 0 <= k < |systems| ==> names[k] == systems[k].name
  {
    seq(|systems|, k requires 0 <= k < |systems| => systems[k].name)
  }

  /** The systems' ids, in order (`.map(s => s._id)`). */
  function SystemIds(systems: seq<StarSystem>): (ids: seq<string>)
    ensures |ids| == |systems|
    ensures forall k :: 0 <= k < |systems| ==> ids[k] == systems[k].id
  {
    seq(|systems|, k requires 0 <= k < |systems| => systems[k].id)
  }

  /** The systems other than the two endpoints, compared by id, in order. */
  function OtherSystems(all: seq<StarSystem>, source: StarSystem, destination: StarSystem): (o: seq<StarSystem>)
    ensures IsSubsequence(o, all)
    ensures forall k :: 0 <= k < |o| ==> o[k].id != source.id && o[k].id != destination.id
    ensures forall s :: s in all && s.id != source.id && s.id != destination.id ==> s in o
  {
    if all == [] then []
    else
      var rest := OtherSystems(all[1..], source, destination);
      if all[0].id != source.id && all[0].id != destination.id then
        assert ([all[0]] + rest)[1..] == rest;
        [all[0]] + rest
      else rest
  }
}
