# CYGNUS1 trade-route optimiser — a Dafny model

CYGNUS1 plans trade routes between star systems. It appears in the model as follows:

- **Optimisers.** The client and the server each enumerate candidate routes and give each a price:
  - distance along its legs;
  - fuel cost from a fuel profile;
  - trade value, which the client obtains from an exact 0/1 knapsack over the source system's resources and the server from a minimum of system trade values.

  Each optimiser ranks its routes by profit and flags the best one optimal.
- **Stored documents.** Star systems and trade routes are stored documents. They carry schema bounds and instance methods (`calculateDistance`, `calculateTradeValue`, `calculateTotalValue`, `calculateEfficiency`).
- **UI panels.** Three panels keep editable state:
  - the fuel-type list;
  - the star-system form, with its resource and consumption lists and its CSV import and export;
  - the dashboard's statistics and per-resource totals.

## How the model is built

- **Numbers.** JavaScript numbers are `real`. Table indices, ceiled weights and counts are `int`/`nat`.
- **Square root.** `Math.sqrt` is a parameter `sqrt: real -> real`. Only `Geometry.SqrtLaws` is required of it: the root of 0 is 0, and the root of a non-negative number is non-negative.
- **Files** (module in brackets):
  - `util.dfy` (`Util`): option type, subsequences, binomial coefficients and `Math.min`.
  - `text.dfy` (`Text`): JavaScript `split` on one character, `join` and `trim`.
  - `geometry.dfy` (`Geometry`): coordinates and distance.
  - `star_system.dfy` (`StarSystems`): the star-system document.
  - `trade_route.dfy` (`TradeRoutes`): the trade-route document.
  - `ranking.dfy` (`Ranking`): the stable descending sort that both optimisers use.
  - `knapsack.dfy` (`Knapsack`): the client's cargo allocator. It is a method over two `array2` tables, proved equal to a recursive table function. That function is proved to be the maximum over every subset.
  - `client_routes.dfy` (`ClientRoutes`): the client's combinations, route enumeration, route efficiency and single-route calculation.
  - `server_routes.dfy` (`ServerRoutes`): the server's direct, hub and multi-hop routes, the push/pop combination generator (a class with the shared accumulator as a field), and ranking.
  - `route_optimizer.dfy` (`RouteOptimizer`): the optimise handler of the route-optimiser panel.
  - `fuel_manager.dfy` (`FuelManagement`): the fuel-type panel, as a class.
  - `star_system_manager.dfy` (`StarSystemManagement`): the star-system form (a class), CSV import and CSV export.
  - `dashboard.dfy` (`Dashboard`): statistics and resource totals.
- **Loops.** Every loop of the source that updates variables is a `method` with a `while` loop. Each such method is proved equal to a specification function, and the properties are proved as lemmas about that function.

Where the code and its description differ, this model follows the code:

- **Client route efficiency.** `profit / totalFuelCost || 0` yields an infinity when the fuel cost is 0 and the profit is not. `ClientRoutes.QuotientOrZero` models this, so the result is not always a finite number.
- **Server combinations.** `generateCombinations` emits a shorter combination whenever the remaining systems run out before the length does. Its output therefore repeats lists and is not the set of combinations. See `ServerRoutes.AllCombinationsRepeatLast` and `ServerRoutes.OneSystemTwice`.
- **Fuel deletion.** The delete button passes `fuel.id || fuel.name`, and the filter compares ids only. Deleting a built-in (id-less) fuel profile therefore removes nothing.

## Model

| member | source | states |
|---|---|---|
| Util.MinOf | server/routes/tradeRoutes.js:84 | `Math.min` of a non-empty list is one of its elements and no larger than any of them |
| Util.SubsequenceMembers | client/src/utils/knapsackOptimizer.js:136-149 | an order-preserving selection is no longer than its source and holds only its elements |
| Util.SubsequenceDistinct | client/src/utils/knapsackOptimizer.js:136-149 | an order-preserving selection from a list without repeats has no repeats |
| Util.SubsequenceOfSuffix | client/src/utils/knapsackOptimizer.js:141-143 | a selection from `arr.slice(i)` is a selection from `arr` |
| Util.BinomialAboveN | client/src/utils/knapsackOptimizer.js:121 | C(n,k) is 0 when k exceeds n |
| Util.BinomialOne | client/src/utils/knapsackOptimizer.js:137 | C(n,1) = n, the number of singletons |
| Util.BinomialAll | client/src/utils/knapsackOptimizer.js:138 | C(n,n) = 1, the whole list |
| Text.Split | client/src/components/StarSystemManager.js:159-163 | `split` on one character gives at least one piece, and no piece contains the separator |
| Text.SplitNoSeparator | client/src/components/StarSystemManager.js:159-163 | a string without the separator splits into itself |
| Text.SplitAtSeparator | client/src/components/StarSystemManager.js:159-163 | splitting at the first separator gives the text before it followed by the pieces of the rest |
| Text.SplitJoin | client/src/components/StarSystemManager.js:191-196 | splitting a join of separator-free pieces gives the pieces back |
| Text.TrimStart | client/src/components/StarSystemManager.js:160 | `trimStart` removes exactly a leading run of JS white space: the result is a suffix that does not start with white space, and all removed characters are white space |
| Text.TrimEnd | client/src/components/StarSystemManager.js:160 | `trimEnd` removes exactly a trailing run of JS white space: the result is a prefix that does not end with white space, and all removed characters are white space |
| Text.Trim | client/src/components/StarSystemManager.js:160 | `trim` returns a slice of the input with only white space before and after it, and neither end of the result is white space |
| Text.TrimmedSlice | client/src/components/StarSystemManager.js:160 | trimming white space from a suffix's end leaves a slice with white space only around it |
| Geometry.SquaredDistance | client/src/utils/knapsackOptimizer.js:97-101 | dx²+dy²+dz² is non-negative and 0 between equal points |
| Geometry.Distance | client/src/utils/knapsackOptimizer.js:97-102 | `calculateDistance` is non-negative and 0 from a point to itself |
| Geometry.DistanceSymmetric | client/src/utils/knapsackOptimizer.js:97-102 | distance does not depend on the order of the two points |
| StarSystems.NewSystem | server/models/StarSystem.js:63-99 | a new document is not a hub, has growth 0 and an open station at price 1.0 with no fuel types, and is valid when the required fields meet their bounds |
| StarSystems.SystemDistance | server/models/StarSystem.js:105-110 | `system.calculateDistance(other)`, computed from the coordinate fields, is the coordinate distance of `Geometry.Distance`; it is non-negative, and 0 between systems at the same coordinates, whenever the square root obeys its laws |
| StarSystems.SystemDistanceLaws | server/models/StarSystem.js:105-110 | system distance is symmetric, non-negative and 0 from a system to itself |
| StarSystems.ResourceValueNonNegative | server/models/StarSystem.js:9-19 | resources within the schema bounds have a non-negative summed availability × price |
| StarSystems.TradeValue | server/models/StarSystem.js:113-117 | `calculateTradeValue` is 0 with no resources or no population, and non-negative for a valid system |
| StarSystems.PathDistance | server/routes/tradeRoutes.js:200-211 | a walk through systems has non-negative length |
| StarSystems.OtherSystems | client/src/utils/knapsackOptimizer.js:116-118 | the filter keeps, in order, exactly the systems whose id is neither endpoint's |
| TradeRoutes.ParseRouteType | server/models/TradeRoute.js:43-47 | a route type is accepted iff it is `direct`, `hub` or `multi-hop`, and the accepted value spells back to the input |
| TradeRoutes.RouteTypeRoundTrip | server/models/TradeRoute.js:43-47 | every route type's stored spelling is accepted as that type |
| TradeRoutes.ParseStatus | server/models/TradeRoute.js:64-68 | a status is accepted iff it is `active`, `inactive` or `maintenance`, and the accepted value spells back to the input |
| TradeRoutes.NewRoute | server/models/TradeRoute.js:39-68 | a route stored without them has `isOptimal` false and status `active`, and keeps every given field: name, endpoints, waypoints, figures, type and cargo |
| TradeRoutes.TotalValue | server/models/TradeRoute.js:74-76 | `calculateTotalValue` is 0 for no cargo and non-negative for cargo within the schema minimums |
| TradeRoutes.Efficiency | server/models/TradeRoute.js:79-82 | `calculateEfficiency` is exactly 0 when the fuel cost is 0, and otherwise times the fuel cost gives the trade value |
| Ranking.Insert | client/src/utils/knapsackOptimizer.js:17 | inserting adds exactly one element to the multiset |
| Ranking.SortDesc | client/src/utils/knapsackOptimizer.js:17 | the sort is a permutation of its input |
| Ranking.InsertNonIncreasing | client/src/utils/knapsackOptimizer.js:17 | inserting into a descending list keeps it descending |
| Ranking.InsertBounded | client/src/utils/knapsackOptimizer.js:17 | inserting an element under a bound every key respects keeps every key under it |
| Ranking.SortDescNonIncreasing | client/src/components/RouteOptimizer.js:75 | the sorted list's keys never increase |
| Ranking.InsertWithKey | client/src/utils/knapsackOptimizer.js:17 | an insertion places the new element first among the elements with its key |
| Ranking.SortDescStable | server/routes/tradeRoutes.js:59 | the sort is stable: elements with equal keys keep their input order |
| Ranking.SortDescFirstIsMaximal | server/routes/tradeRoutes.js:59-63 | the first sorted element has the largest key of the input |
| Knapsack.RawWeight | client/src/utils/knapsackOptimizer.js:12 | `weight \|\| 1` is never 0, and positive for an allowed weight |
| Knapsack.Ceil | client/src/utils/knapsackOptimizer.js:22 | `Math.ceil(x)` is the least integer not below x |
| Knapsack.ByDensity | client/src/utils/knapsackOptimizer.js:10-17 | the scored copy is a permutation of the scored resources (one entry per resource), sorted by non-increasing efficiency score |
| Knapsack.ItemWeight | client/src/utils/knapsackOptimizer.js:22 | a table weight is at least 1 |
| Knapsack.Items | client/src/utils/knapsackOptimizer.js:21-23 | one table item per scored resource, with positive weights |
| Knapsack.ItemsAt | client/src/utils/knapsackOptimizer.js:21-23 | item k has the ceiled weight and the efficiency-scaled value of resource k |
| Knapsack.BestCases | client/src/utils/knapsackOptimizer.js:25-37 | a cell is the take value when the strict test passes and the value above it otherwise, and is at least both |
| Knapsack.Chosen | client/src/utils/knapsackOptimizer.js:44-54 | the backtracked indices are distinct and decrease, all below the item count |
| Knapsack.WeightOf | client/src/utils/knapsackOptimizer.js:59 | a selection's weight is non-negative |
| Knapsack.OfPrefix | client/src/utils/knapsackOptimizer.js:20-38 | a selection's weight and value depend only on the selected items |
| Knapsack.WeightOfAppend | client/src/utils/knapsackOptimizer.js:52 | pushing an item adds its weight |
| Knapsack.BestMonotone | client/src/utils/knapsackOptimizer.js:20-38 | `dp[i][w]` is nondecreasing in `w` |
| Knapsack.ChosenSound | client/src/utils/knapsackOptimizer.js:41-59 | the backtracked selection fits the capacity and is worth exactly `dp[n][cap]` |
| Knapsack.BestIsMaximum | client/src/utils/knapsackOptimizer.js:20-38 | no subset that fits the capacity is worth more than `dp[n][cap]` |
| Knapsack.ChosenItemsWorthTaking | client/src/utils/knapsackOptimizer.js:26-30 | every selected item fits the capacity alone and has positive value (strict `>`) |
| Knapsack.TakenItemWorthTaking | client/src/utils/knapsackOptimizer.js:26-30 | the take test passes only for an item that fits and has a positive value |
| Knapsack.NothingWorthTaking | client/src/utils/knapsackOptimizer.js:28 | with no positive value, nothing is selected |
| Knapsack.MinReal | client/src/utils/knapsackOptimizer.js:50 | `Math.min` of two numbers is one of them and no larger than either |
| Knapsack.Pick | client/src/utils/knapsackOptimizer.js:48-51 | `selectedAmount` is the smaller of availability and ⌊maxCapacity/weight⌋ |
| Knapsack.PickNotNegative | client/src/utils/knapsackOptimizer.js:50 | the amount taken is not negative when the availability is not |
| Knapsack.PicksOf | client/src/utils/knapsackOptimizer.js:44-54 | one pushed entry per backtracked index, in push order |
| Knapsack.Allocate | client/src/utils/knapsackOptimizer.js:2-62 | empty input gives an empty selection, total value 0 and weight 0, and the result echoes the efficiency |
| Knapsack.PicksTotals | client/src/utils/knapsackOptimizer.js:44-59 | the pushed entries' weights and values sum to the selection's table weight and value |
| Knapsack.AllocateOptimal | client/src/utils/knapsackOptimizer.js:20-59 | `totalWeight` is the selection's weight and within capacity, `totalValue` is its value, and no fitting subset is worth more |
| Knapsack.AllocateSelectsFromInput | client/src/utils/knapsackOptimizer.js:46-51 | every selected entry is an input resource with a non-negative amount when its availability is |
| Knapsack.AllocateEntries | client/src/utils/knapsackOptimizer.js:26-36 | every selected entry fits the capacity alone and is worth something, so efficiency 0 selects nothing |
| Knapsack.FillTables | client/src/utils/knapsackOptimizer.js:6-38 | every cell of `dp` and `selected` holds the recursive table value and the strict take decision |
| Knapsack.ChosenStep | client/src/utils/knapsackOptimizer.js:44-54 | one backtracking step continues with or without item k−1 as its cell says |
| Knapsack.WalkStart | client/src/utils/knapsackOptimizer.js:41-44 | the walk back starts at the last row with the full capacity and nothing pushed |
| Knapsack.WalkTake | client/src/utils/knapsackOptimizer.js:45-53 | a set cell pushes the pick of item k−1, adds it to the selection and takes off its weight |
| Knapsack.WalkSkip | client/src/utils/knapsackOptimizer.js:44-54 | a clear cell moves to the row above and changes nothing else |
| Knapsack.WalkEnd | client/src/utils/knapsackOptimizer.js:44-54 | when the rows run out, the pushed picks are those of the whole selection |
| Knapsack.Backtrack | client/src/utils/knapsackOptimizer.js:40-54 | the walk back pushes exactly the backtracked selection and ends at capacity minus its weight |
| Knapsack.KnapsackOptimizer | client/src/utils/knapsackOptimizer.js:2-62 | the method's result is the allocation `Allocate` describes, hence optimal by `AllocateOptimal` |
| ClientRoutes.Combinations | client/src/utils/knapsackOptimizer.js:136-149 | every k-combination has length k |
| ClientRoutes.HeadedCombinations | client/src/utils/knapsackOptimizer.js:141-147 | every combination the head loop collects has length k |
| ClientRoutes.Prefixed | client/src/utils/knapsackOptimizer.js:144-146 | each tail gets the head in front, one output per tail |
| ClientRoutes.CombinationsCount | client/src/utils/knapsackOptimizer.js:136-149 | there are exactly C(\|arr\|, k) combinations |
| ClientRoutes.HeadedCount | client/src/utils/knapsackOptimizer.js:141-147 | the head loop from position i collects C(\|arr\|−i, k) lists |
| ClientRoutes.CombinationsOrdered | client/src/utils/knapsackOptimizer.js:136-149 | every combination keeps the relative order of `arr` |
| ClientRoutes.HeadedOrdered | client/src/utils/knapsackOptimizer.js:141-147 | every list the head loop collects keeps the order of `arr` |
| ClientRoutes.SubsequenceReflexive | client/src/utils/knapsackOptimizer.js:138 | the whole list is one of its own order-preserving selections |
| ClientRoutes.CombinationsDistinct | client/src/utils/knapsackOptimizer.js:136-149 | from a list without repeats, no combination repeats an element |
| ClientRoutes.GetCombinations | client/src/utils/knapsackOptimizer.js:136-149 | the recursive loop returns exactly the combinations |
| ClientRoutes.HeadedStep | client/src/utils/knapsackOptimizer.js:141-147 | one pass of the head loop appends the tails headed by `arr[i]` before those of later heads |
| ClientRoutes.PushPrefixed | client/src/utils/knapsackOptimizer.js:144-146 | the forEach appends each tail prefixed by the head |
| ClientRoutes.MultiHopRoutesOf | client/src/utils/knapsackOptimizer.js:123-129 | one multi-hop route per combination, in order |
| ClientRoutes.GenerateAllRoutes | client/src/utils/knapsackOptimizer.js:105-133 | the method's list is the direct route followed by the multi-hop routes for 1..min(maxWaypoints, m) waypoints |
| ClientRoutes.RoutesUpToStep | client/src/utils/knapsackOptimizer.js:121-130 | one pass of the outer loop appends the routes with i waypoints |
| ClientRoutes.PushMultiHop | client/src/utils/knapsackOptimizer.js:123-129 | the forEach appends one multi-hop route per combination, in order |
| ClientRoutes.RoutesUpToCount | client/src/utils/knapsackOptimizer.js:121-130 | the waypoint routes number C(m,1)+…+C(m,hi) |
| ClientRoutes.AllRoutesCount | client/src/utils/knapsackOptimizer.js:105-133 | `generateAllRoutes` returns 1 + Σ C(m,i) routes for i up to min(maxWaypoints, m) |
| ClientRoutes.RoutesUpToShape | client/src/utils/knapsackOptimizer.js:121-130 | each waypoint route is multi-hop through 1..hi other systems in order |
| ClientRoutes.AllRoutesShape | client/src/utils/knapsackOptimizer.js:105-133 | the direct route comes first; every other route is `[source, ...waypoints, destination]` with 1..maxWaypoints waypoints in list order, none sharing an endpoint's id |
| ClientRoutes.SubsequenceTransitive | client/src/utils/knapsackOptimizer.js:116-122 | a selection of a selection is a selection of the original list |
| ClientRoutes.QuotientOrZero | client/src/utils/knapsackOptimizer.js:173 | `a / b \|\| 0` is the quotient when b ≠ 0, 0 for 0/0, and ±Infinity for a non-zero amount over 0 |
| ClientRoutes.FuelConsumption | client/src/utils/knapsackOptimizer.js:163 | consumption times efficiency/100 is 0.1 per unit of distance, non-negative for a non-negative distance |
| ClientRoutes.LegFuelCost | client/src/utils/knapsackOptimizer.js:164 | a leg's fuel cost is non-negative for a non-negative distance and cost |
| ClientRoutes.LegFuelCostAdditive | client/src/utils/knapsackOptimizer.js:163-164 | fuel cost is additive in distance |
| ClientRoutes.PathFuelCostOfDistance | client/src/utils/knapsackOptimizer.js:157-165 | the summed leg fuel costs equal the fuel cost of the total distance |
| ClientRoutes.RouteEfficiency | client/src/utils/knapsackOptimizer.js:152-185 | distance and fuel cost are the sums over the legs, trade value is the allocator total over the first system's resources, profit is their difference and efficiency is `profit / fuelCost \|\| 0` |
| ClientRoutes.RouteEfficiencyFacts | client/src/utils/knapsackOptimizer.js:152-185 | a direct route has the plain distance, fuel cost is proportional to total distance, and routes from one source share a trade value |
| ClientRoutes.SelectedTradeValueNonNegative | client/src/utils/knapsackOptimizer.js:77-79 | non-negative amounts and prices give a non-negative trade value |
| ClientRoutes.AllocatedTradeValue | client/src/utils/knapsackOptimizer.js:74-79 | the trade value is the sum of `selectedAmount * price` over the allocator's selection; no resources give 0, and valid resources give a non-negative value |
| ClientRoutes.CalculateOptimalRoute | client/src/utils/knapsackOptimizer.js:65-94 | the straight-leg distance, consumption and fuel cost; the allocator's selection; the trade value as the sum of `selectedAmount * price` over that selection; profit as value minus fuel cost; efficiency as `profit / fuelCost \|\| 0`; non-negative fuel cost and trade value under the schema bounds |
| ServerRoutes.Abundant | server/routes/tradeRoutes.js:186-187 | the kept resources are, in order, exactly the source's with availability > 50 |
| ServerRoutes.CargoOf | server/routes/tradeRoutes.js:188-192 | a cargo line has the resource's name and price and ⌊availability/10⌋ |
| ServerRoutes.OptimalCargo | server/routes/tradeRoutes.js:182-197 | one cargo line per abundant source resource, in source order |
| ServerRoutes.OptimalCargoValid | server/routes/tradeRoutes.js:182-197 | a valid source gives schema-valid cargo with every amount at least 5 and a non-negative total value |
| ServerRoutes.CargoFromLines | server/routes/tradeRoutes.js:186-194 | pushing resource by resource yields one cargo line per abundant resource, in order |
| ServerRoutes.CargoFromOptimal | server/routes/tradeRoutes.js:182-197 | the lines the loop pushes for the source's resources are `OptimalCargo` |
| ServerRoutes.CargoFromStep | server/routes/tradeRoutes.js:186-193 | one pass pushes resource i's line iff it is abundant and leaves the rest to push |
| ServerRoutes.CalculateOptimalCargo | server/routes/tradeRoutes.js:182-197 | the cargo the function returns is exactly `OptimalCargo`: one line per abundant resource, in order |
| ServerRoutes.PushCargo | server/routes/tradeRoutes.js:186-194 | the for-of loop pushes exactly the lines `CargoFrom` lists for the resources |
| ServerRoutes.AbundantValid | server/routes/tradeRoutes.js:186-187 | the abundant resources of valid resources are valid |
| ServerRoutes.CargoOfAbundant | server/routes/tradeRoutes.js:187-192 | an abundant valid resource gives at least 5 units at a non-negative price under a non-empty name |
| ServerRoutes.MultiHopDistance | server/routes/tradeRoutes.js:200-211 | the loop's total is the walk length through source, waypoints and destination |
| ServerRoutes.WalkLeg | server/routes/tradeRoutes.js:204-207 | one more waypoint adds the leg from the current system to it |
| ServerRoutes.WalkLastLeg | server/routes/tradeRoutes.js:209 | the final leg to the destination completes the walk |
| ServerRoutes.MultiHopDistanceFacts | server/routes/tradeRoutes.js:200-211 | with no waypoints the walk is the direct distance, and it is never negative |
| ServerRoutes.DirectRoute | server/routes/tradeRoutes.js:81-99 | a direct route with no waypoints, fuel cost distance·0.1, trade value the smaller endpoint trade value, profit the difference and the source's cargo |
| ServerRoutes.TradeHubs | server/routes/tradeRoutes.js:103 | the filter keeps, in order, exactly the trade hubs |
| ServerRoutes.HubRoute | server/routes/tradeRoutes.js:112-135 | a hub route's waypoint is the hub, its distance is the two legs, its fuel cost is distance·0.08 and its trade value is the least of the three systems' |
| ServerRoutes.HubRoutes | server/routes/tradeRoutes.js:102-139 | the loop pushes one hub route per trade hub that is not an endpoint, in order |
| ServerRoutes.HubRoutesStep | server/routes/tradeRoutes.js:106-135 | visiting one more hub pushes its route exactly when it is not an endpoint |
| ServerRoutes.HubRoutesComplete | server/routes/tradeRoutes.js:106-110 | every hub route goes through a usable hub, and every usable hub has its route |
| ServerRoutes.CombinationGenerator.constructor | server/routes/tradeRoutes.js:215 | the accumulator and output start empty |
| ServerRoutes.CombinationGenerator.Generate | server/routes/tradeRoutes.js:217-230 | the shared accumulator is restored after push/pop, and the output gains what `Gen` describes |
| ServerRoutes.GenerateCombinations | server/routes/tradeRoutes.js:214-237 | the output is the generate passes for lengths 1..maxLength in order |
| ServerRoutes.GenShape | server/routes/tradeRoutes.js:217-230 | every emitted list is non-empty, extends `current` by at most `length` remaining elements, and keeps their order |
| ServerRoutes.GenFromShape | server/routes/tradeRoutes.js:225-229 | the same for the lists the loop emits from position `from` |
| ServerRoutes.AllCombinationsShape | server/routes/tradeRoutes.js:214-237 | every list is non-empty, at most `maxLength` long and order-preserving, and without repeats when the input has none |
| ServerRoutes.GenEndsWithLast | server/routes/tradeRoutes.js:218-222 | each pass ends by emitting `current` plus the last remaining system, because that branch runs out early |
| ServerRoutes.GenFromEndsWithLast | server/routes/tradeRoutes.js:218-229 | the loop's last emission is `current` plus the last remaining element |
| ServerRoutes.AllCombinationsRepeatLast | server/routes/tradeRoutes.js:218-234 | with maxLength ≥ 2, the last system alone is emitted at the end of two passes, so lists repeat |
| ServerRoutes.OneSystemTwice | server/routes/tradeRoutes.js:214-237 | one system and maxLength 2 give `[[a],[a]]`, where C(1,1)+C(1,2) = 1 |
| ServerRoutes.TradeValues | server/routes/tradeRoutes.js:155-159 | the trade value of each visited system, in order |
| ServerRoutes.MultiHopRouteFacts | server/routes/tradeRoutes.js:152-174 | a candidate runs source→waypoints→destination, pays distance·0.12 and is worth the least trade value of its systems |
| ServerRoutes.Candidates | server/routes/tradeRoutes.js:152-160 | one candidate per waypoint combination, in order |
| ServerRoutes.Profitable | server/routes/tradeRoutes.js:162-175 | the profit filter keeps no more routes than it is given |
| ServerRoutes.ProfitableStep | server/routes/tradeRoutes.js:162 | visiting one more route keeps it iff its profit is positive |
| ServerRoutes.ProfitableMembers | server/routes/tradeRoutes.js:162-175 | the kept routes are exactly the candidates with profit > 0 |
| ServerRoutes.BuildMultiHopRoute | server/routes/tradeRoutes.js:153-173 | the loop body builds the candidate `MultiHopRouteFacts` describes |
| ServerRoutes.KeepProfitableRoutes | server/routes/tradeRoutes.js:152-176 | the loop keeps, in order, the profitable candidates |
| ServerRoutes.MultiHopRoutes | server/routes/tradeRoutes.js:142-179 | the profitable candidates over every emitted combination of the non-endpoint systems |
| ServerRoutes.RankRoutes | server/routes/tradeRoutes.js:57-64 | the combined list is sorted by profit, with only element 0 re-flagged optimal |
| ServerRoutes.RankedRoutes | server/routes/tradeRoutes.js:57-64 | the ranking is a permutation by non-increasing profit; its first route has the highest profit, and no later one is optimal |
| RouteOptimizer.FindById | client/src/components/RouteOptimizer.js:49-50 | a found system is in the catalogue with that id; nothing is found iff no system has it |
| StarSystems.SystemNames | client/src/components/RouteOptimizer.js:65 | one name per system, in order, as the route titles of both optimisers join them |
| StarSystems.SystemIds | client/src/components/RouteOptimizer.js:68 | one id per system, in order, as the waypoint lists of both optimisers store them |
| RouteOptimizer.Described | client/src/components/RouteOptimizer.js:61-72 | one listed route per enumerated route |
| RouteOptimizer.DescribedStep | client/src/components/RouteOptimizer.js:61-72 | mapping one more route appends its description |
| RouteOptimizer.DescribeFacts | client/src/components/RouteOptimizer.js:62-71 | a description carries the route, its priced figures, its arrow-joined title, endpoint and waypoint ids and type, and is not optimal |
| RouteOptimizer.DescribedFacts | client/src/components/RouteOptimizer.js:61-72 | each listed route describes the enumerated route at its position |
| RouteOptimizer.Ranked | client/src/components/RouteOptimizer.js:75-78 | ranking keeps the length |
| RouteOptimizer.Unflagged | client/src/components/RouteOptimizer.js:70 | each route with its optimal flag cleared |
| RouteOptimizer.RankedFacts | client/src/components/RouteOptimizer.js:75-78 | the ranking keeps the routes, orders profits non-increasingly, puts a most profitable first, and flags exactly element 0 |
| RouteOptimizer.RankedKeepsRoutes | client/src/components/RouteOptimizer.js:75-78 | clearing the flag gives back the sorted input, a permutation of it, and only element 0 is flagged |
| RouteOptimizer.RankedOrdered | client/src/components/RouteOptimizer.js:75 | profits never increase along the ranking |
| RouteOptimizer.RankedFirstIsMaximal | client/src/components/RouteOptimizer.js:75-77 | the route flagged optimal is at least as profitable as every input route |
| RouteOptimizer.RankAndFlag | client/src/components/RouteOptimizer.js:75-78 | the in-place sort and flag produce the ranking |
| RouteOptimizer.Optimization | client/src/components/RouteOptimizer.js:31-96 | rejects for a missing endpoint, equal endpoints, no fuel or an unknown id (each iff its condition, in that order), and otherwise selects the first route, which is optimal |
| RouteOptimizer.AllRoutesStartAtSource | client/src/utils/knapsackOptimizer.js:105-133 | there is at least one route, and every route starts at the source |
| RouteOptimizer.SourceWeightsAllowed | client/src/components/RouteOptimizer.js:49 | a system found in the catalogue has allowed weights |
| RouteOptimizer.HandleOptimize | client/src/components/RouteOptimizer.js:31-96 | the handler's outcome is `Optimization` |
| RouteOptimizer.DescribeAll | client/src/components/RouteOptimizer.js:61-72 | the mapping loop produces `Described` |
| RouteOptimizer.DescribeRoute | client/src/components/RouteOptimizer.js:62-71 | the callback prices the route and overlays its title, ids and type, not optimal |
| RouteOptimizer.EvaluationOf | client/src/utils/knapsackOptimizer.js:152-185 | a pricing with the figures `calculateRouteEfficiency` promises is `Evaluation` |
| RouteOptimizer.OptimizedRoutes | client/src/components/RouteOptimizer.js:49-81 | with valid, distinct, found endpoints and a fuel, the run succeeds over 1 + Σ C(m,i) routes, lists them ranked and selects the first |
| RouteOptimizer.RankedDescriptions | client/src/components/RouteOptimizer.js:61-81 | the listed routes are the descriptions up to the flag, one per route, by non-increasing profit, with exactly the first optimal |
| FuelManagement.DefaultFuels | client/src/components/FuelManager.js:7-13 | five built-in profiles without ids, efficiencies in (0, 100] |
| FuelManagement.KeyOf | client/src/components/FuelManager.js:150 | the delete key is the id when it is a non-zero stamp, and the name otherwise |
| FuelManagement.Removed | client/src/components/FuelManager.js:61 | the filter never lengthens the list |
| FuelManagement.Replaced | client/src/components/FuelManager.js:49 | the map keeps the length |
| FuelManagement.RemovedMembers | client/src/components/FuelManager.js:61 | the filter keeps exactly the entries whose id is not the key |
| FuelManagement.RemovedByNameKeepsAll | client/src/components/FuelManager.js:150 | a name key removes nothing |
| FuelManagement.DeleteBuiltInKeepsAll | client/src/components/FuelManager.js:59-69 | deleting a built-in profile leaves the list unchanged |
| FuelManagement.RemovedKeepsIdless | client/src/components/FuelManager.js:61 | entries without an id survive every deletion |
| FuelManagement.ReplacedAt | client/src/components/FuelManager.js:49 | each entry is replaced by the draft under the edited id when its id matches, otherwise kept; ids never change |
| FuelManagement.RemovedKeepsBuiltIn | client/src/components/FuelManager.js:59-69 | a list with a built-in profile keeps one after deletion, so it never becomes empty |
| FuelManagement.ReplacedKeepsBuiltIn | client/src/components/FuelManager.js:47-57 | an update keeps a built-in profile |
| FuelManagement.Band | client/src/components/FuelManager.js:71-81 | green iff ≥ 90, yellow iff in [70, 90), red iff < 70 |
| FuelManagement.EfficiencyColor | client/src/components/FuelManager.js:71-75 | each text colour is returned iff the efficiency is in its band |
| FuelManagement.EfficiencyBg | client/src/components/FuelManager.js:77-81 | each background class is returned iff the efficiency is in its band |
| FuelManagement.FuelManager.constructor | client/src/components/FuelManager.js:7-16 | the default list, an empty draft, no entry being edited |
| FuelManagement.FuelManager.SelectFuel | client/src/components/FuelManager.js:24-28 | the selection becomes the fuel; nothing else changes |
| FuelManagement.FuelManager.AddFuel | client/src/components/FuelManager.js:30-39 | an accepted draft is appended under the clock reading and the draft cleared; otherwise nothing changes |
| FuelManagement.FuelManager.EditFuel | client/src/components/FuelManager.js:41-45 | the entry is loaded into the draft and editing starts |
| FuelManagement.FuelManager.UpdateFuel | client/src/components/FuelManager.js:47-57 | an accepted draft replaces every entry with the edited id and closes the form; otherwise nothing changes |
| FuelManagement.FuelManager.CancelEdit | client/src/components/FuelManager.js:205-210 | the edited entry and the draft are cleared |
| FuelManagement.FuelManager.Submit | client/src/components/FuelManager.js:198-199 | confirm updates while editing and adds otherwise; an accepted draft is cleared and leaves no entry under edit (an update also closes the form), and a rejected draft leaves the list, the draft and the edit state unchanged |
| FuelManagement.FuelManager.DeleteFuel | client/src/components/FuelManager.js:59-69 | with more than one entry, entries with the key's id are dropped and a deleted selection becomes the old first entry; the list never empties |
| StarSystemManagement.DropPosition | client/src/components/StarSystemManager.js:131 | the filter never lengthens the list |
| StarSystemManagement.DropPositionSplice | client/src/components/StarSystemManager.js:131 | dropping a position splices out that element and keeps the rest |
| StarSystemManagement.WithoutIndexSplice | client/src/components/StarSystemManager.js:128-150 | removal by index drops exactly that element and keeps the order; an index outside the list removes nothing |
| StarSystemManagement.SystemForm.constructor | client/src/components/StarSystemManager.js:103-116 | empty lists and empty drafts |
| StarSystemManagement.SystemForm.AddResource | client/src/components/StarSystemManager.js:118-126 | an accepted resource draft is appended and cleared; otherwise nothing changes |
| StarSystemManagement.SystemForm.RemoveResource | client/src/components/StarSystemManager.js:128-133 | the resource at the index is removed; nothing else changes |
| StarSystemManagement.SystemForm.AddConsumption | client/src/components/StarSystemManager.js:135-143 | an accepted consumption draft is appended and cleared; otherwise nothing changes |
| StarSystemManagement.SystemForm.RemoveConsumption | client/src/components/StarSystemManager.js:145-150 | the consumption at the index is removed; nothing else changes |
| StarSystemManagement.CellAt | client/src/components/StarSystemManager.js:168-173 | a cell is present iff its index is within the line |
| StarSystemManagement.RowRecordKeys | client/src/components/StarSystemManager.js:164-175 | the record has one key per header |
| StarSystemManagement.RowRecordLastWins | client/src/components/StarSystemManager.js:165-175 | a repeated header keeps the value its last position writes |
| StarSystemManagement.CoordinatesHeader | client/src/components/StarSystemManager.js:166-171 | a `coordinates` header reads positions i, i+1 and i+2, each 0 when missing or not a number |
| StarSystemManagement.Cells | client/src/components/StarSystemManager.js:163 | one trimmed cell per comma-separated piece |
| StarSystemManagement.ParseRow | client/src/components/StarSystemManager.js:163-176 | a line's trimmed cells, filled header by header, give the row's record |
| StarSystemManagement.FillRecord | client/src/components/StarSystemManager.js:165-175 | the header loop builds the record `RowRecord` describes from the cells |
| StarSystemManagement.ParseField | client/src/components/StarSystemManager.js:166-174 | the coordinates header reads three cells, any other header one |
| StarSystemManagement.RowRecordStep | client/src/components/StarSystemManager.js:165-175 | visiting one more header writes its value over the record so far |
| StarSystemManagement.KeepNamed | client/src/components/StarSystemManager.js:177 | the filter never lengthens the list |
| StarSystemManagement.KeepNamedMembers | client/src/components/StarSystemManager.js:177 | the filter keeps, in order, exactly the records with a truthy name |
| StarSystemManagement.RowsOf | client/src/components/StarSystemManager.js:162 | one record per line |
| StarSystemManagement.RowsOfAt | client/src/components/StarSystemManager.js:162-176 | record k is the parse of line k |
| StarSystemManagement.ImportRecordsMembers | client/src/components/StarSystemManager.js:158-177 | the import keeps, in file order, exactly the named records of the lines after the header, at most one per line |
| StarSystemManagement.RowsOfTail | client/src/components/StarSystemManager.js:158-177 | the record of every line after the header is among the parsed rows |
| StarSystemManagement.ExportFields | client/src/components/StarSystemManager.js:194 | seven columns per system |
| StarSystemManagement.ExportLines | client/src/components/StarSystemManager.js:191-195 | the header line then one line per system, in order |
| StarSystemManagement.ExportRows | client/src/components/StarSystemManager.js:193-195 | line k is the template line of system k, one per system |
| StarSystemManagement.JoinAvoids | client/src/components/StarSystemManager.js:194-196 | a join contains a character only if a part or the separator does |
| StarSystemManagement.ExportRowColumns | client/src/components/StarSystemManager.js:192-194 | a system's line splits back into its seven fields |
| StarSystemManagement.ExportHeaderColumns | client/src/components/StarSystemManager.js:192 | the header splits back into the seven column names |
| StarSystemManagement.ExportHeaderSingleLine | client/src/components/StarSystemManager.js:192 | the header has no newline |
| StarSystemManagement.ExportRowSingleLine | client/src/components/StarSystemManager.js:194 | a system's line has no newline when its texts have none |
| StarSystemManagement.ExportLinesAvoidNewline | client/src/components/StarSystemManager.js:191-195 | no exported line contains a newline |
| StarSystemManagement.ExportCsvLines | client/src/components/StarSystemManager.js:191-196 | splitting the export on newlines gives the header and one line per system |
| Dashboard.ActiveCountIsPositions | client/src/components/Dashboard.js:40 | the active count is the number of positions whose status is `active`, at most the route count |
| Dashboard.TotalsNonNegative | client/src/components/Dashboard.js:37-38 | non-negative amounts give non-negative totals |
| Dashboard.CalculateStats | client/src/components/Dashboard.js:34-49 | the counts are the list lengths, the totals sum the fields with missing as 0, the average times the route count is the total profit (0 with no routes), and active routes are counted |
| Dashboard.AvailabilityAppend | client/src/components/Dashboard.js:76-82 | one more resource adds its availability to its own name's sum |
| Dashboard.TotalsAreSums | client/src/components/Dashboard.js:72-84 | the map has one key per resource name, holding that name's summed availability |
| Dashboard.AvailabilityAbsent | client/src/components/Dashboard.js:72-84 | a name no resource carries sums to 0 |
| Dashboard.TotalsStep | client/src/components/Dashboard.js:76-82 | one more resource updates the totals by that resource |
| Dashboard.TotalsAppendStep | client/src/components/Dashboard.js:76-82 | within one system's loop, one more resource updates the totals so far by that resource |
| Dashboard.AddSystemResources | client/src/components/Dashboard.js:75-83 | the per-system loop, with its truthy/else branches, continues the totals |
| Dashboard.ResourceTotals | client/src/components/Dashboard.js:72-84 | the loop over the systems builds the totals of all their resources |

## Left out

- Rendering, JSX, toasts, the fuel dropdown's `isOpen` switch, modals and the `onFuelTypesChange` effect are not modelled: they only draw or notify.
- HTTP and database work is not modelled. This covers `handleSubmit`, `handleEdit`, `handleDelete`, `apiService`, the Express handlers, their request checks (server/routes/tradeRoutes.js:24-55), `insertMany` and the server's `find`/`findById` lookups.
- The server's null filter at server/routes/tradeRoutes.js:58 is not modelled, since no route builder returns `null`.
- `parseFloat`, `isNaN` and JavaScript number-to-string conversion are parameters (`NumberSyntax`, `show`), not implementations of IEEE-754 parsing and formatting.
- NaN and Infinity are not modelled beyond the `|| 0` quotient and the `parseFloat(...) || 0` reading. Other arithmetic is exact real arithmetic.
- Math.sqrt is a parameter with two laws; no square root is computed.
- `Date.now()` is the parameter `now` of `AddFuel`/`Submit`.
- The file read, the Blob, `URL.createObjectURL` and the download link of the CSV import and export are not modelled.
- `generateEconomicData` and the `Math.round` averages and colours in `generateResourceData` (client/src/components/Dashboard.js:52-68, 86-93) are display-only and not modelled.
- `handleInputChange` is not modelled. Of `resetForm`, only the lists and drafts are modelled (the form constructor).
- The `try`/`catch` around the optimise handler is not modelled: the modelled code throws nothing.
- Knapsack.WeightOk: the allocator is proved for weights that are absent or non-negative. The stored schema has no weight field at all.
- ClientRoutes.RouteEfficiency and RouteOptimizer.Optimization require a fuel efficiency above 0, which the fuel form enforces. With efficiency 0 the source divides by zero.
- Ranking.SortDesc: `Array.prototype.sort` is modelled as a function on sequences, and the in-place reordering of the array is not.
- ServerRoutes.RankRoutes and RouteOptimizer.RankAndFlag set the optimal flag on a copy of the first element. Aliasing between the sorted array and other references is not modelled.
- Dashboard.Totals, Dashboard.AddSystemResources and StarSystemManagement.RowRecord model JavaScript plain objects as maps with no inherited keys. Names that `Object.prototype` already provides are therefore not modelled as the source handles them. A resource named `constructor` or `toString` finds a truthy function at client/src/components/Dashboard.js:77, so the `+=` at line 78 builds a string. A `__proto__` name or header creates no own key (client/src/components/StarSystemManager.js:173). The model keeps a numeric sum or a plain entry for every name.
