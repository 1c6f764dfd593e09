/** The client's cargo allocator `knapsackOptimizer`: an exact 0/1 knapsack
    over the resources of one system. Each resource weighs
    `ceil(weight || 1)` and is worth `availability * price * efficiency/100`.
    The method fills the `(n+1) x (cap+1)` tables `dp` and `selected` and
    backtracks from the full capacity. `Best` is the recursive value the
    tables hold; it is proved to be the maximum over every subset. */
module Knapsack {
  import opened Util
  import opened StarSystems
  import opened Ranking

  /** The allocator needs weights that are absent or non-negative. */
  predicate WeightOk(r: Resource) {
    r.weight.None? || 0.0 <= r.weight.value
  }

  /** `resource.weight || 1`: an absent or zero weight counts as 1. */
  function RawWeight(r: Resource): (w: real)
    ensures w != 0.0
    ensures WeightOk(r) ==> 0.0 < w
  {
    match r.weight
    case None => 1.0
    case Some(v) => if v == 0.0 then 1.0 else v
  }

  /** `Math.ceil(x)`. */
  function Ceil(x: real): (c: int)
    ensures x <= c as real < x + 1.0
  {
    -((-x).Floor)
  }

  /** A resource with the two numbers computed for it at lines 10-14. */
  datatype Scored = Scored(resource: Resource, efficiencyScore: real, profitPerUnit: real)

  function Score(r: Resource): Scored
  {
    Scored(r, (r.availability * r.price) / RawWeight(r), r.availability * r.price)
  }

  function Density(s: Scored): real { s.efficiencyScore }

  predicate WeightsOk(items: seq<Scored>) {
    forall k :: 0 <= k < |items| ==> WeightOk(items[k].resource)
  }

  /** The `map` at lines 10-14: each resource with its two numbers. */
  function Scores(resources: seq<Resource>): (scored: seq<Scored>)
    ensures |scored| == |resources|
  {
    seq(|resources|, k requires 0 <= k < |resources| => Score(resources[k]))
  }

  /** The scored copy of the resources, sorted by descending score: a
      permutation of the scored input, so every entry scores one of the
      input resources. */
  function ByDensity(resources: seq<Resource>): (items: seq<Scored>)
    ensures |items| == |resources|
    ensures multiset(items) == multiset(Scores(resources))
    ensures NonIncreasing(items, Density)
    ensures forall k :: 0 <= k < |items| ==> items[k].resource in resources
    ensures (forall k :: 0 <= k < |resources| ==> WeightOk(resources[k])) ==> WeightsOk(items)
  {
    var scored := Scores(resources);
    var items := SortDesc(scored, Density);
    SortDescNonIncreasing(scored, Density);
    forall k | 0 <= k < |items| ensures items[k].resource in resources {
      assert items[k] in multiset(scored);
      var j :| 0 <= j < |scored| && scored[j] == items[k];
    }
    items
  }

  /** The table weight of a resource: `Math.ceil(resource.weight || 1)`. */
  function ItemWeight(s: Scored): (w: int)
    ensures WeightOk(s.resource) ==> 1 <= w
  {
    Ceil(RawWeight(s.resource))
  }

  /** The table value of a resource: `profitPerUnit * (fuelEfficiency / 100)`. */
  function ItemValue(s: Scored, eff: real): real
  {
    s.profitPerUnit * (eff / 100.0)
  }

  /** What the table sees of one resource. */
  datatype Item = Item(weight: int, value: real)

  function Items(sorted: seq<Scored>, eff: real): (items: seq<Item>)
    ensures |items| == |sorted|
    ensures WeightsOk(sorted) ==> PositiveWeights(items)
  {
    seq(|sorted|, k requires 0 <= k < |sorted| => Item(ItemWeight(sorted[k]), ItemValue(sorted[k], eff)))
  }

  lemma ItemsAt(sorted: seq<Scored>, eff: real, k: int)
    requires 0 <= k < |sorted|
    ensures Items(sorted, eff)[k] == Item(ItemWeight(sorted[k]), ItemValue(sorted[k], eff))
  {
  }

  predicate PositiveWeights(items: seq<Item>) {
    forall k :: 0 <= k < |items| ==> 1 <= items[k].weight
  }

  /** `dp[|items|][cap]`: the value the table holds for the first |items|
      resources and capacity `cap`. */
  function Best(items: seq<Item>, cap: int): real
  {
    if items == [] then 0.0
    else
      var n := |items| - 1;
      var skip := Best(items[..n], cap);
      var take := Best(items[..n], cap - items[n].weight) + items[n].value;
      if items[n].weight <= cap && take > skip then take else skip
  }

  /** `dp[i - 1][w - weight] + value` for the last item. */
  function TakeValue(items: seq<Item>, cap: int): real
    requires items != []
  {
    var n := |items| - 1;
    Best(items[..n], cap - items[n].weight) + items[n].value
  }

  /** `selected[|items|][cap]`: the last item fits and taking it is strictly
      better than leaving it. */
  predicate Takes(items: seq<Item>, cap: int)
    requires items != []
  {
    var n := |items| - 1;
    items[n].weight <= cap && TakeValue(items, cap) > Best(items[..n], cap)
  }

  /** The table value is the better of leaving and (when it fits) taking
      the last item. */
  lemma BestCases(items: seq<Item>, cap: int)
    requires items != []
    ensures Best(items, cap) == if Takes(items, cap) then TakeValue(items, cap)
                                else Best(items[..|items| - 1], cap)
    ensures Best(items[..|items| - 1], cap) <= Best(items, cap)
    ensures items[|items| - 1].weight <= cap ==> TakeValue(items, cap) <= Best(items, cap)
  {
  }

  /** The indices the backtracking loop visits with `selected[i][w]` true,
      in the order it pushes them (from the last item down). */
  function Chosen(items: seq<Item>, cap: int): (c: seq<int>)
    ensures IsSelection(c, |items|)
  {
    if items == [] then []
    else
      var n := |items| - 1;
      if Takes(items, cap) then [n] + Chosen(items[..n], cap - items[n].weight)
      else Chosen(items[..n], cap)
  }

  /** A set of items, as strictly decreasing indices below n. */
  predicate IsSelection(idx: seq<int>, n: int) {
    && (forall k :: 0 <= k < |idx| ==> 0 <= idx[k] < n)
    && (forall i, j :: 0 <= i < j < |idx| ==> idx[i] > idx[j])
  }

  predicate InRange(idx: seq<int>, n: int) {
    forall k :: 0 <= k < |idx| ==> 0 <= idx[k] < n
  }

  function WeightOf(items: seq<Item>, idx: seq<int>): (w: int)
    requires InRange(idx, |items|)
    ensures PositiveWeights(items) ==> 0 <= w
  {
    if idx == [] then 0 else items[idx[0]].weight + WeightOf(items, idx[1..])
  }

  function ValueOf(items: seq<Item>, idx: seq<int>): real
    requires InRange(idx, |items|)
  {
    if idx == [] then 0.0 else items[idx[0]].value + ValueOf(items, idx[1..])
  }

  /** Weight and value of a selection only look at the selected items. */
  lemma {:induction false} OfPrefix(items: seq<Item>, idx: seq<int>, m: int)
    requires 0 <= m <= |items|
    requires InRange(idx, m)
    ensures WeightOf(items, idx) == WeightOf(items[..m], idx)
    ensures ValueOf(items, idx) == ValueOf(items[..m], idx)
  {
    if idx != [] {
      OfPrefix(items, idx[1..], m);
    }
  }

  lemma {:induction false} WeightOfAppend(items: seq<Item>, idx: seq<int>, j: int)
    requires InRange(idx, |items|)
    requires 0 <= j < |items|
    ensures WeightOf(items, idx + [j]) == WeightOf(items, idx) + items[j].weight
  {
    if idx == [] {
      assert [] + [j] == [j];
    } else {
      assert (idx + [j])[1..] == idx[1..] + [j];
      WeightOfAppend(items, idx[1..], j);
    }
  }

  /** More capacity never lowers the table value. */
  lemma {:induction false} BestMonotone(items: seq<Item>, c1: int, c2: int)
    requires c1 <= c2
    ensures Best(items, c1) <= Best(items, c2)
  {
    if items != [] {
      var n := |items| - 1;
      var w := items[n].weight;
      BestMonotone(items[..n], c1, c2);
      BestMonotone(items[..n], c1 - w, c2 - w);
      BestCases(items, c1);
      BestCases(items, c2);
    }
  }

  /** The backtracked selection fits the capacity and is worth exactly the
      table value. */
  lemma {:induction false} ChosenSound(items: seq<Item>, cap: int)
    requires PositiveWeights(items) && 0 <= cap
    ensures WeightOf(items, Chosen(items, cap)) <= cap
    ensures ValueOf(items, Chosen(items, cap)) == Best(items, cap)
  {
    if items != [] {
      var n := |items| - 1;
      var pre := items[..n];
      var c := Chosen(items, cap);
      BestCases(items, cap);
      if Takes(items, cap) {
        var rest := Chosen(pre, cap - items[n].weight);
        assert c == [n] + rest;
        ChosenSound(pre, cap - items[n].weight);
        OfPrefix(items, rest, n);
        assert c[1..] == rest;
      } else {
        ChosenSound(pre, cap);
        OfPrefix(items, c, n);
      }
    }
  }

  /** Optimality: no subset of the items that fits the capacity is worth more
      than the table value. */
  lemma {:induction false} BestIsMaximum(items: seq<Item>, cap: int, idx: seq<int>)
    requires PositiveWeights(items)
    requires IsSelection(idx, |items|)
    requires WeightOf(items, idx) <= cap
    ensures ValueOf(items, idx) <= Best(items, cap)
  {
    if items != [] {
      var n := |items| - 1;
      var pre := items[..n];
      BestCases(items, cap);
      if idx != [] && idx[0] == n {
        var rest := idx[1..];
        assert IsSelection(rest, n);
        OfPrefix(items, rest, n);
        BestIsMaximum(pre, cap - items[n].weight, rest);
      } else {
        assert IsSelection(idx, n);
        OfPrefix(items, idx, n);
        BestIsMaximum(pre, cap, idx);
      }
    }
  }

  /** Every backtracked item fits the capacity on its own and has a strictly
      positive value (the take test is a strict `>`). */
  lemma {:induction false} ChosenItemsWorthTaking(items: seq<Item>, cap: int)
    requires PositiveWeights(items)
    ensures forall j :: 0 <= j < |Chosen(items, cap)| ==>
              items[Chosen(items, cap)[j]].weight <= cap && 0.0 < items[Chosen(items, cap)[j]].value
  {
    if items != [] {
      var n := |items| - 1;
      var pre := items[..n];
      var w := items[n].weight;
      var c := Chosen(items, cap);
      if Takes(items, cap) {
        TakenItemWorthTaking(items, cap);
        var rest := Chosen(pre, cap - w);
        ChosenItemsWorthTaking(pre, cap - w);
        assert c == [n] + rest;
        forall j | 1 <= j < |c|
          ensures items[c[j]].weight <= cap && 0.0 < items[c[j]].value
        {
          var i := j - 1;
          assert pre[rest[i]].weight <= cap - w && 0.0 < pre[rest[i]].value;
          assert c[j] == rest[i] && pre[rest[i]] == items[c[j]];
        }
      } else {
        ChosenItemsWorthTaking(pre, cap);
        assert c == Chosen(pre, cap);
        forall j | 0 <= j < |c|
          ensures items[c[j]].weight <= cap && 0.0 < items[c[j]].value
        {
          assert pre[c[j]].weight <= cap && 0.0 < pre[c[j]].value;
          assert pre[c[j]] == items[c[j]];
        }
      }
    }
  }

  /** The take test passes only for an item that fits and has a positive
      value: taking it must beat leaving it, which is at least the table
      value at the smaller capacity. */
  lemma TakenItemWorthTaking(items: seq<Item>, cap: int)
    requires PositiveWeights(items) && items != [] && Takes(items, cap)
    ensures items[|items| - 1].weight <= cap && 0.0 < items[|items| - 1].value
  {
    var n := |items| - 1;
    BestMonotone(items[..n], cap - items[n].weight, cap);
  }

  /** When no item has a positive value the take test never passes, so the
      backtracking selects nothing. */
  lemma {:induction false} NothingWorthTaking(items: seq<Item>, cap: int)
    requires PositiveWeights(items)
    requires forall k :: 0 <= k < |items| ==> items[k].value <= 0.0
    ensures Chosen(items, cap) == []
  {
    if items != [] {
      var n := |items| - 1;
      var pre := items[..n];
      assert pre[..] == pre && forall k :: 0 <= k < n ==> pre[k] == items[k];
      BestMonotone(pre, cap - items[n].weight, cap);
      NothingWorthTaking(pre, cap);
    }
  }

  /** One entry of `selectedResources`: the scored resource and
      `selectedAmount`. */
  datatype Selected = Selected(item: Scored, selectedAmount: real)

  datatype KnapsackResult = KnapsackResult(
    selectedResources: seq<Selected>,
    totalValue: real,
    totalWeight: int,
    efficiency: real)

  function MinReal(a: real, b: real): (m: real)
    ensures m <= a && m <= b && (m == a || m == b)
  {
    if a <= b then a else b
  }

  /** `selectedAmount = Math.min(availability, Math.floor(maxCapacity / weight))`
      (both operands are non-negative, so `/` on `int` is the floor). */
  function Pick(s: Scored, maxCapacity: int): (p: Selected)
    requires 0 <= maxCapacity && 1 <= ItemWeight(s)
    ensures p.item == s
    ensures p.selectedAmount <= s.resource.availability
    ensures p.selectedAmount <= (maxCapacity / ItemWeight(s)) as real
    ensures p.selectedAmount == s.resource.availability || p.selectedAmount == (maxCapacity / ItemWeight(s)) as real
  {
    Selected(s, MinReal(s.resource.availability, (maxCapacity / ItemWeight(s)) as real))
  }

  /** The entries pushed for the backtracked indices, in push order. */
  function PicksOf(sorted: seq<Scored>, idx: seq<int>, maxCapacity: int): (ps: seq<Selected>)
    requires 0 <= maxCapacity && WeightsOk(sorted) && InRange(idx, |sorted|)
    ensures |ps| == |idx|
    ensures forall j :: 0 <= j < |idx| ==> ps[j] == Pick(sorted[idx[j]], maxCapacity)
  {
    seq(|idx|, j requires 0 <= j < |idx| => Pick(sorted[idx[j]], maxCapacity))
  }

  /** The allocator's result as a function of its inputs: the backtracked
      selection over the density-sorted resources and the table value. */
  function Allocate(resources: seq<Resource>, eff: real, maxCapacity: int): (r: KnapsackResult)
    requires 0 <= maxCapacity
    requires forall k :: 0 <= k < |resources| ==> WeightOk(resources[k])
    ensures resources == [] ==> r.selectedResources == [] && r.totalValue == 0.0 && r.totalWeight == 0
    ensures r.efficiency == eff
  {
    var sorted := ByDensity(resources);
    var items := Items(sorted, eff);
    var chosen := Chosen(items, maxCapacity);
    KnapsackResult(PicksOf(sorted, chosen, maxCapacity), Best(items, maxCapacity),
                   WeightOf(items, chosen), eff)
  }

  /** Sum of the table weights of the selected entries. */
  function SelectedWeight(sel: seq<Selected>): int
  {
    if sel == [] then 0 else ItemWeight(sel[0].item) + SelectedWeight(sel[1..])
  }

  /** Sum of the table values of the selected entries. */
  function SelectedValue(sel: seq<Selected>, eff: real): real
  {
    if sel == [] then 0.0 else ItemValue(sel[0].item, eff) + SelectedValue(sel[1..], eff)
  }

  lemma {:induction false} PicksTotals(sorted: seq<Scored>, idx: seq<int>, eff: real, maxCapacity: int)
    requires 0 <= maxCapacity && WeightsOk(sorted) && InRange(idx, |sorted|)
    ensures SelectedWeight(PicksOf(sorted, idx, maxCapacity)) == WeightOf(Items(sorted, eff), idx)
    ensures SelectedValue(PicksOf(sorted, idx, maxCapacity), eff) == ValueOf(Items(sorted, eff), idx)
  {
    if idx != [] {
      PicksTotals(sorted, idx[1..], eff, maxCapacity);
      assert PicksOf(sorted, idx, maxCapacity)[1..] == PicksOf(sorted, idx[1..], maxCapacity);
    }
  }

  /** The allocator's guarantees: the selection's weights sum to
      `totalWeight`, which is within the capacity, and its values sum to
      `totalValue`, which no fitting subset of the resources exceeds. */
  lemma AllocateOptimal(resources: seq<Resource>, eff: real, maxCapacity: int)
    requires 0 <= maxCapacity
    requires forall k :: 0 <= k < |resources| ==> WeightOk(resources[k])
    ensures var r := Allocate(resources, eff, maxCapacity);
            var items := Items(ByDensity(resources), eff);
            && 0 <= r.totalWeight <= maxCapacity
            && SelectedWeight(r.selectedResources) == r.totalWeight
            && SelectedValue(r.selectedResources, eff) == r.totalValue
            && forall idx :: IsSelection(idx, |resources|) && WeightOf(items, idx) <= maxCapacity
                 ==> ValueOf(items, idx) <= r.totalValue
  {
    var sorted := ByDensity(resources);
    var items := Items(sorted, eff);
    var chosen := Chosen(items, maxCapacity);
    ChosenSound(items, maxCapacity);
    PicksTotals(sorted, chosen, eff, maxCapacity);
    forall idx | IsSelection(idx, |resources|) && WeightOf(items, idx) <= maxCapacity
      ensures ValueOf(items, idx) <= Best(items, maxCapacity)
    {
      BestIsMaximum(items, maxCapacity, idx);
    }
  }

  /** Every selected entry is one of the input resources, and its amount is
      not negative when the resource's availability is not. */
  lemma AllocateSelectsFromInput(resources: seq<Resource>, eff: real, maxCapacity: int)
    requires 0 <= maxCapacity
    requires forall k :: 0 <= k < |resources| ==> WeightOk(resources[k])
    ensures var sel := Allocate(resources, eff, maxCapacity).selectedResources;
            forall k :: 0 <= k < |sel| ==>
              && sel[k].item.resource in resources
              && (0.0 <= sel[k].item.resource.availability ==> 0.0 <= sel[k].selectedAmount)
  {
    var sorted := ByDensity(resources);
    var chosen := Chosen(Items(sorted, eff), maxCapacity);
    var sel := PicksOf(sorted, chosen, maxCapacity);
    forall k | 0 <= k < |sel|
      ensures && sel[k].item.resource in resources
              && (0.0 <= sel[k].item.resource.availability ==> 0.0 <= sel[k].selectedAmount)
    {
      var s := sorted[chosen[k]];
      assert s.resource in resources;
      assert sel[k] == Pick(s, maxCapacity);
      PickNotNegative(s, maxCapacity);
    }
  }

  /** The amount taken is not negative when the availability is not. */
  lemma PickNotNegative(s: Scored, maxCapacity: int)
    requires 0 <= maxCapacity && 1 <= ItemWeight(s)
    ensures 0.0 <= s.resource.availability ==> 0.0 <= Pick(s, maxCapacity).selectedAmount
  {
    assert 0 <= maxCapacity / ItemWeight(s);
  }

  /** Every selected entry fits the capacity by itself and is worth
      something; so with efficiency 0, where nothing is worth anything,
      nothing is selected. */
  lemma AllocateEntries(resources: seq<Resource>, eff: real, maxCapacity: int)
    requires 0 <= maxCapacity
    requires forall k :: 0 <= k < |resources| ==> WeightOk(resources[k])
    ensures var r := Allocate(resources, eff, maxCapacity);
            forall p :: p in r.selectedResources ==>
              ItemWeight(p.item) <= maxCapacity && 0.0 < ItemValue(p.item, eff)
    ensures eff == 0.0 ==> Allocate(resources, eff, maxCapacity).selectedResources == []
  {
    var sorted := ByDensity(resources);
    var items := Items(sorted, eff);
    var chosen := Chosen(items, maxCapacity);
    ChosenItemsWorthTaking(items, maxCapacity);
    var ps := PicksOf(sorted, chosen, maxCapacity);
    forall p | p in ps
      ensures ItemWeight(p.item) <= maxCapacity && 0.0 < ItemValue(p.item, eff)
    {
      var j :| 0 <= j < |ps| && ps[j] == p;
      var k := chosen[j];
      assert items[k].weight <= maxCapacity && 0.0 < items[k].value;
      ItemsAt(sorted, eff, k);
      assert p.item == sorted[k];
    }
    if eff == 0.0 {
      assert forall k :: 0 <= k < |items| ==> items[k].value <= 0.0;
      NothingWorthTaking(items, maxCapacity);
    }
  }

  /** Row `a` of `dp` and `selected` below column `w` hold the table value
      and take decision for the first `a` items. */
  ghost predicate RowFilled(dp: array2<real>, selected: array2<bool>, items: seq<Item>, a: int, w: int)
    reads dp, selected
    requires 0 <= a < dp.Length0 == selected.Length0 && a <= |items|
    requires w <= dp.Length1 == selected.Length1
  {
    forall c :: 0 <= c < w ==>
      dp[a, c] == Best(items[..a], c) && (1 <= a ==> selected[a, c] == Takes(items[..a], c))
  }

  /** The whole of row `a` is filled. */
  ghost predicate Filled(dp: array2<real>, selected: array2<bool>, items: seq<Item>, a: int)
    reads dp, selected
    requires 0 <= a < dp.Length0 == selected.Length0 && a <= |items|
    requires dp.Length1 == selected.Length1
  {
    RowFilled(dp, selected, items, a, dp.Length1)
  }

  /** The filling loops at lines 20-38: every cell of both tables holds the
      value and decision of the recursive definition. */
  method FillTables(items: seq<Item>, maxCapacity: int)
    returns (dp: array2<real>, selected: array2<bool>)
    requires 0 <= maxCapacity && PositiveWeights(items)
    ensures fresh(dp) && fresh(selected)
    ensures dp.Length0 == selected.Length0 == |items| + 1
    ensures dp.Length1 == selected.Length1 == maxCapacity + 1
    ensures forall a :: 0 <= a <= |items| ==> Filled(dp, selected, items, a)
  {
    var n := |items|;
    dp := new real[n + 1, maxCapacity + 1]((i, w) => 0.0);
    selected := new bool[n + 1, maxCapacity + 1]((i, w) => false);
    var i := 1;
    while i <= n
      invariant 1 <= i <= n + 1
      invariant forall a, c :: 0 <= a < i && 0 <= c <= maxCapacity ==> dp[a, c] == Best(items[..a], c)
      invariant forall a, c :: 1 <= a < i && 0 <= c <= maxCapacity ==> selected[a, c] == Takes(items[..a], c)
      invariant forall a, c :: i <= a <= n && 0 <= c <= maxCapacity ==> !selected[a, c]
    {
      var weight := items[i - 1].weight;
      var value := items[i - 1].value;
      ghost var prefix := items[..i];
      assert prefix[..i - 1] == items[..i - 1];
      var w := 0;
      while w <= maxCapacity
        invariant 0 <= w <= maxCapacity + 1
        invariant forall a, c :: 0 <= a < i && 0 <= c <= maxCapacity ==> dp[a, c] == Best(items[..a], c)
        invariant forall a, c :: 1 <= a < i && 0 <= c <= maxCapacity ==> selected[a, c] == Takes(items[..a], c)
        invariant forall c :: 0 <= c < w ==> dp[i, c] == Best(prefix, c) && selected[i, c] == Takes(prefix, c)
        invariant forall a, c :: i <= a <= n && 0 <= c <= maxCapacity && (a > i || c >= w) ==> !selected[a, c]
      {
        BestCases(prefix, w);
        if weight <= w {
          var takeValue := dp[i - 1, w - weight] + value;
          if takeValue > dp[i - 1, w] {
            dp[i, w] := takeValue;
            selected[i, w] := true;
          } else {
            dp[i, w] := dp[i - 1, w];
          }
        } else {
          dp[i, w] := dp[i - 1, w];
        }
        w := w + 1;
      }
      i := i + 1;
    }
    forall a | 0 <= a <= n ensures Filled(dp, selected, items, a) {
    }
  }

  /** The state of the walk back at row `k` with capacity `w` left: the
      indices pushed so far followed by the rest of the walk from here make
      up the whole selection, `w` is what their weight left, and the pushed
      picks are theirs. */
  ghost predicate Walked(sorted: seq<Scored>, items: seq<Item>, maxCapacity: int,
                         picked: seq<int>, k: int, w: int, picks: seq<Selected>)
  {
    && 0 <= maxCapacity && WeightsOk(sorted) && |items| == |sorted|
    && 0 <= k <= |items| && 0 <= w <= maxCapacity
    && InRange(picked, |items|)
    && Chosen(items, maxCapacity) == picked + Chosen(items[..k], w)
    && w == maxCapacity - WeightOf(items, picked)
    && picks == PicksOf(sorted, picked, maxCapacity)
  }

  /** Before the walk: nothing pushed, the full capacity left. */
  lemma WalkStart(sorted: seq<Scored>, items: seq<Item>, maxCapacity: int)
    requires 0 <= maxCapacity && WeightsOk(sorted) && |items| == |sorted|
    ensures Walked(sorted, items, maxCapacity, [], |items|, maxCapacity, [])
  {
    assert items[..|items|] == items;
  }

  /** After the walk: what was pushed is the whole selection. */
  lemma WalkEnd(sorted: seq<Scored>, items: seq<Item>, maxCapacity: int,
                picked: seq<int>, w: int, picks: seq<Selected>)
    requires Walked(sorted, items, maxCapacity, picked, 0, w, picks)
    ensures picked == Chosen(items, maxCapacity)
    ensures picks == PicksOf(sorted, Chosen(items, maxCapacity), maxCapacity)
    ensures w == maxCapacity - WeightOf(items, Chosen(items, maxCapacity))
  {
    assert items[..0] == [];
  }

  /** Taking item `k - 1`: it joins the selection, its weight leaves the
      capacity, and its pick is pushed. */
  lemma WalkTake(sorted: seq<Scored>, items: seq<Item>, maxCapacity: int,
                 picked: seq<int>, k: int, w: int, picks: seq<Selected>)
    requires Walked(sorted, items, maxCapacity, picked, k, w, picks)
    requires 1 <= k && items[k - 1].weight == ItemWeight(sorted[k - 1])
    requires Takes(items[..k], w)
    ensures Walked(sorted, items, maxCapacity, picked + [k - 1], k - 1, w - items[k - 1].weight,
                   picks + [Pick(sorted[k - 1], maxCapacity)])
  {
    var w' := w - items[k - 1].weight;
    ChosenStep(items, k, w);
    assert picked + ([k - 1] + Chosen(items[..k - 1], w')) == (picked + [k - 1]) + Chosen(items[..k - 1], w');
    WeightOfAppend(items, picked, k - 1);
  }

  /** Leaving item `k - 1`: only the row changes. */
  lemma WalkSkip(sorted: seq<Scored>, items: seq<Item>, maxCapacity: int,
                 picked: seq<int>, k: int, w: int, picks: seq<Selected>)
    requires Walked(sorted, items, maxCapacity, picked, k, w, picks)
    requires 1 <= k && !Takes(items[..k], w)
    ensures Walked(sorted, items, maxCapacity, picked, k - 1, w, picks)
  {
    ChosenStep(items, k, w);
  }

  /** One step of the walk back: at row `k` the selection continues with
      item `k - 1` when its cell is set, and without it otherwise. */
  lemma ChosenStep(items: seq<Item>, k: int, w: int)
    requires 1 <= k <= |items|
    ensures Chosen(items[..k], w)
         == if Takes(items[..k], w) then [k - 1] + Chosen(items[..k - 1], w - items[k - 1].weight)
            else Chosen(items[..k - 1], w)
  {
    assert items[..k][..k - 1] == items[..k - 1];
  }

  /** The walk back at lines 44-54: from the last row and the full capacity
      down to row 1, push every resource whose `selected` cell is set and
      give up its weight. */
  method Backtrack(sorted: seq<Scored>, items: seq<Item>, selected: array2<bool>, maxCapacity: int)
    returns (selectedResources: seq<Selected>, w: int)
    requires 0 <= maxCapacity && WeightsOk(sorted)
    requires |items| == |sorted|
    requires forall k :: 0 <= k < |items| ==> items[k].weight == ItemWeight(sorted[k])
    requires selected.Length0 == |items| + 1 && selected.Length1 == maxCapacity + 1
    requires forall a, c :: 1 <= a <= |items| && 0 <= c <= maxCapacity ==> selected[a, c] == Takes(items[..a], c)
    ensures selectedResources == PicksOf(sorted, Chosen(items, maxCapacity), maxCapacity)
    ensures w == maxCapacity - WeightOf(items, Chosen(items, maxCapacity))
  {
    selectedResources := [];
    ghost var picked: seq<int> := [];
    w := maxCapacity;
    var k := |items|;
    WalkStart(sorted, items, maxCapacity);
    while k > 0
      invariant 0 <= k <= |items| && 0 <= w <= maxCapacity
      invariant Walked(sorted, items, maxCapacity, picked, k, w, selectedResources)
    {
      if selected[k, w] {
        var resource := sorted[k - 1];
        var weight := ItemWeight(resource);
        WalkTake(sorted, items, maxCapacity, picked, k, w, selectedResources);
        selectedResources := selectedResources + [Pick(resource, maxCapacity)];
        picked := picked + [k - 1];
        w := w - weight;
      } else {
        WalkSkip(sorted, items, maxCapacity, picked, k, w, selectedResources);
      }
      k := k - 1;
    }
    WalkEnd(sorted, items, maxCapacity, picked, w, selectedResources);
  }

  /** `knapsackOptimizer(resources, fuelEfficiency, maxCapacity)`: fill the
      tables over the density-sorted resources, then walk back from the full
      capacity. */
  method KnapsackOptimizer(resources: seq<Resource>, fuelEfficiency: real, maxCapacity: int)
    returns (result: KnapsackResult)
    requires 0 <= maxCapacity
    requires forall k :: 0 <= k < |resources| ==> WeightOk(resources[k])
    ensures result == Allocate(resources, fuelEfficiency, maxCapacity)
  {
    var n := |resources|;
    var sorted := ByDensity(resources);
    var items := Items(sorted, fuelEfficiency);
    var dp, selected := FillTables(items, maxCapacity);
    assert items[..n] == items;
    assert Filled(dp, selected, items, n);
    forall a, c | 1 <= a <= n && 0 <= c <= maxCapacity
      ensures selected[a, c] == Takes(items[..a], c)
    {
      assert Filled(dp, selected, items, a);
    }
    forall k | 0 <= k < n ensures items[k].weight == ItemWeight(sorted[k]) {
      ItemsAt(sorted, fuelEfficiency, k);
    }
    var selectedResources, w := Backtrack(sorted, items, selected, maxCapacity);
    result := KnapsackResult(selectedResources, dp[n, maxCapacity], maxCapacity - w, fuelEfficiency);
  }
}
