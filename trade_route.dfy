/** The stored trade-route document: its enumerations, defaults and cargo
    bounds, and the instance methods `calculateTotalValue` and
    `calculateEfficiency`. */
module TradeRoutes {

  import opened Util

  datatype RouteType = Direct | Hub | MultiHop

  datatype RouteStatus = Active | Inactive | Maintenance

  /** The stored spelling of a route type. */
  function RouteTypeName(t: RouteType): string
  {
    match t
    case Direct => "direct"
    case Hub => "hub"
    case MultiHop => "multi-hop"
  }

  /** Schema validation of a route-type string: only the enum values pass. */
  function ParseRouteType(s: string): (t: Option<RouteType>)
    ensures t.Some? <==> s in {"direct", "hub", "multi-hop"}
    ensures t.Some? ==> RouteTypeName(t.value) == s
  {
    if s == "direct" then Some(Direct)
    else if s == "hub" then Some(Hub)
    else if s == "multi-hop" then Some(MultiHop)
    else None
  }

  lemma RouteTypeRoundTrip(t: RouteType)
    ensures ParseRouteType(RouteTypeName(t)) == Some(t)
  {
  }

  function StatusName(s: RouteStatus): string
  {
    match s
    case Active => "active"
    case Inactive => "inactive"
    case Maintenance => "maintenance"
  }

  function ParseStatus(s: string): (t: Option<RouteStatus>)
    ensures t.Some? <==> s in {"active", "inactive", "maintenance"}
    ensures t.Some? ==> StatusName(t.value) == s
  {
    if s == "active" then Some(Active)
    else if s == "inactive" then Some(Inactive)
    else if s == "maintenance" then Some(Maintenance)
    else None
  }

  datatype CargoItem = CargoItem(resourceName: string, amount: real, price: real)

  datatype TradeRoute = TradeRoute(
    name: string,
    sourceSystem: string,
    destinationSystem: string,
    waypoints: seq<string>,
    distance: real,
    fuelCost: real,
    tradeValue: real,
    profit: real,
    isOptimal: bool,
    routeType: RouteType,
    cargo: seq<CargoItem>,
    status: RouteStatus)

  /** A route document as stored when the caller leaves `isOptimal` and
      `status` unset: the schema defaults them to false and `active`. */
  function NewRoute(name: string, source: string, destination: string, waypoints: seq<string>,
                    distance: real, fuelCost: real, tradeValue: real, profit: real,
                    routeType: RouteType, cargo: seq<CargoItem>): (r: TradeRoute)
    ensures !r.isOptimal && r.status == Active
    ensures r.name == name && r.sourceSystem == source && r.destinationSystem == destination
    ensures r.waypoints == waypoints && r.routeType == routeType && r.cargo == cargo
    ensures r.distance == distance && r.fuelCost == fuelCost
    ensures r.tradeValue == tradeValue && r.profit == profit
  {
    TradeRoute(name, source, destination, waypoints, distance, fuelCost, tradeValue, profit,
               false, routeType, cargo, Active)
  }

  /** Cargo schema: amount >= 0 and price >= 0. */
  predicate ValidCargo(cargo: seq<CargoItem>) {
    forall k :: 0 <= k < |cargo| ==> cargo[k].resourceName != "" && 0.0 <= cargo[k].amount && 0.0 <= cargo[k].price
  }

  /** `route.calculateTotalValue()`: the sum of amount * price over the cargo. */
  function TotalValue(cargo: seq<CargoItem>): (v: real)
    ensures cargo == [] ==> v == 0.0
    ensures ValidCargo(cargo) ==> 0.0 <= v
  {
    if cargo == [] then 0.0
    else
      assert ValidCargo(cargo) ==> ValidCargo(cargo[1..]) && 0.0 <= cargo[0].amount * cargo[0].price;
      cargo[0].amount * cargo[0].price + TotalValue(cargo[1..])
  }

  /** `route.calculateEfficiency()`: trade value per unit of fuel cost, and
      exactly 0 when the fuel cost is 0. */
  function Efficiency(r: TradeRoute): (e: real)
    ensures r.fuelCost == 0.0 ==> e == 0.0
    ensures r.fuelCost != 0.0 ==> e * r.fuelCost == r.tradeValue
  {
    if r.fuelCost == 0.0 then 0.0 else r.tradeValue / r.fuelCost
  }
}
