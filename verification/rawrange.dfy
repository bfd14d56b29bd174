/** The raw-resource aggregator of `calculateCraftingRequirements`: per raw item, the
    [min, max] still to gather once the inventory drawn during expansion is subtracted. */
module RawRanges {
  import opened Arith
  import opened Catalog
  import opened Expansion
  import opened Steps

  datatype Range = Range(min: int, max: int)

  function Plus(a: Range, b: Range): Range {
    Range(a.min + b.min, a.max + b.max)
  }

  /** `rawRange[id]`, or a fresh `{min: 0, max: 0}`. */
  function GetRange(m: map<ItemId, Range>, x: ItemId): Range {
    if x in m then m[x] else Range(0, 0)
  }

  function Widen(m: map<ItemId, Range>, x: ItemId, extra: Range): map<ItemId, Range> {
    m[x := Plus(GetRange(m, x), extra)]
  }

  // Reference sums, independent of the order the aggregator walks in.

  /** What the ingredient lines `ings` need of `x`. */
  function LinesNeed(ings: seq<IngredientNeed>, x: ItemId): Range {
    if |ings| == 0 then Range(0, 0)
    else Plus(if ings[0].id == x then Range(ings[0].neededMin, ings[0].neededMax) else Range(0, 0),
              LinesNeed(ings[1..], x))
  }

  /** What all the steps together need of `x`. */
  function StepsNeed(steps: seq<Step>, x: ItemId): Range {
    if |steps| == 0 then Range(0, 0) else Plus(LinesNeed(steps[0].ingredients, x), StepsNeed(steps[1..], x))
  }

  predicate InLines(ings: seq<IngredientNeed>, x: ItemId) {
    exists i :: 0 <= i < |ings| && ings[i].id == x
  }

  predicate InSteps(steps: seq<Step>, x: ItemId) {
    exists i :: 0 <= i < |steps| && InLines(steps[i].ingredients, x)
  }

  lemma InLinesCons(ings: seq<IngredientNeed>, x: ItemId)
    requires |ings| > 0
    ensures InLines(ings, x) <==> ings[0].id == x || InLines(ings[1..], x)
  {
    if InLines(ings, x) && ings[0].id != x {
      var i :| 0 <= i < |ings| && ings[i].id == x;
      assert ings[1..][i - 1].id == x;
    }
    if InLines(ings[1..], x) {
      var i :| 0 <= i < |ings[1..]| && ings[1..][i].id == x;
      assert ings[i + 1].id == x;
    }
  }

  lemma InStepsCons(steps: seq<Step>, x: ItemId)
    requires |steps| > 0
    ensures InSteps(steps, x) <==> InLines(steps[0].ingredients, x) || InSteps(steps[1..], x)
  {
    if InSteps(steps, x) && !InLines(steps[0].ingredients, x) {
      var i :| 0 <= i < |steps| && InLines(steps[i].ingredients, x);
      assert InLines(steps[1..][i - 1].ingredients, x);
    }
    if InSteps(steps[1..], x) {
      var i :| 0 <= i < |steps[1..]| && InLines(steps[1..][i].ingredients, x);
      assert InLines(steps[i + 1].ingredients, x);
    }
  }

  /** The inner `forEach` over one step's ingredients: raw ingredients are accumulated. */
  function AddLines(cat: Catalog, ings: seq<IngredientNeed>, acc: map<ItemId, Range>): map<ItemId, Range> {
    if |ings| == 0 then acc
    else
      var acc1 := if IsRaw(cat, ings[0].id) then Widen(acc, ings[0].id, Range(ings[0].neededMin, ings[0].neededMax)) else acc;
      AddLines(cat, ings[1..], acc1)
  }

  /** The outer `forEach` over the steps. */
  function AddSteps(cat: Catalog, steps: seq<Step>, acc: map<ItemId, Range>): map<ItemId, Range> {
    if |steps| == 0 then acc
    else AddSteps(cat, steps[1..], AddLines(cat, steps[0].ingredients, acc))
  }

  /** The `forEach` over the craft list: raw items requested directly. */
  function AddDirect(cat: Catalog, list: CraftList, acc: map<ItemId, Range>): map<ItemId, Range> {
    if |list| == 0 then acc
    else
      var acc1 := if IsRaw(cat, list[0].0) then Widen(acc, list[0].0, Range(list[0].1, list[0].1)) else acc;
      AddDirect(cat, list[1..], acc1)
  }

  /** Walking the ingredient lines creates an entry exactly for the raw items they name. */
  lemma {:induction false} AddLinesKeys(cat: Catalog, ings: seq<IngredientNeed>, acc: map<ItemId, Range>, x: ItemId)
    ensures x in AddLines(cat, ings, acc) <==> x in acc || (IsRaw(cat, x) && InLines(ings, x))
  {
    if |ings| > 0 {
      var acc1 := if IsRaw(cat, ings[0].id) then Widen(acc, ings[0].id, Range(ings[0].neededMin, ings[0].neededMax)) else acc;
      AddLinesKeys(cat, ings[1..], acc1, x);
      InLinesCons(ings, x);
    }
  }

  /** Walking the ingredient lines adds, for a raw `x`, exactly their summed need. */
  lemma {:induction false} AddLinesSums(cat: Catalog, ings: seq<IngredientNeed>, acc: map<ItemId, Range>, x: ItemId)
    requires IsRaw(cat, x)
    ensures GetRange(AddLines(cat, ings, acc), x).min == GetRange(acc, x).min + LinesNeed(ings, x).min
    ensures GetRange(AddLines(cat, ings, acc), x).max == GetRange(acc, x).max + LinesNeed(ings, x).max
  {
    if |ings| > 0 {
      var acc1 := if IsRaw(cat, ings[0].id) then Widen(acc, ings[0].id, Range(ings[0].neededMin, ings[0].neededMax)) else acc;
      AddLinesSums(cat, ings[1..], acc1, x);
    }
  }

  lemma {:induction false} AddStepsKeys(cat: Catalog, steps: seq<Step>, acc: map<ItemId, Range>, x: ItemId)
    ensures x in AddSteps(cat, steps, acc) <==> x in acc || (IsRaw(cat, x) && InSteps(steps, x))
  {
    if |steps| > 0 {
      AddLinesKeys(cat, steps[0].ingredients, acc, x);
      AddStepsKeys(cat, steps[1..], AddLines(cat, steps[0].ingredients, acc), x);
      InStepsCons(steps, x);
    }
  }

  lemma {:induction false} AddStepsSums(cat: Catalog, steps: seq<Step>, acc: map<ItemId, Range>, x: ItemId)
    requires IsRaw(cat, x)
    ensures GetRange(AddSteps(cat, steps, acc), x).min == GetRange(acc, x).min + StepsNeed(steps, x).min
    ensures GetRange(AddSteps(cat, steps, acc), x).max == GetRange(acc, x).max + StepsNeed(steps, x).max
  {
    if |steps| > 0 {
      AddLinesSums(cat, steps[0].ingredients, acc, x);
      AddStepsSums(cat, steps[1..], AddLines(cat, steps[0].ingredients, acc), x);
    }
  }

  lemma {:induction false} AddDirectKeys(cat: Catalog, list: CraftList, acc: map<ItemId, Range>, x: ItemId)
    ensures x in AddDirect(cat, list, acc) <==> x in acc || (IsRaw(cat, x) && InList(list, x))
  {
    if |list| > 0 {
      var acc1 := if IsRaw(cat, list[0].0) then Widen(acc, list[0].0, Range(list[0].1, list[0].1)) else acc;
      AddDirectKeys(cat, list[1..], acc1, x);
      InListCons(list, x);
    }
  }

  lemma {:induction false} AddDirectSums(cat: Catalog, list: CraftList, acc: map<ItemId, Range>, x: ItemId)
    requires IsRaw(cat, x)
    ensures GetRange(AddDirect(cat, list, acc), x).min == GetRange(acc, x).min + ListQty(list, x)
    ensures GetRange(AddDirect(cat, list, acc), x).max == GetRange(acc, x).max + ListQty(list, x)
  {
    if |list| > 0 {
      var acc1 := if IsRaw(cat, list[0].0) then Widen(acc, list[0].0, Range(list[0].1, list[0].1)) else acc;
      AddDirectSums(cat, list[1..], acc1, x);
    }
  }

  /** Inventory usage subtracted from both bounds, floored at 0. */
  function SubtractUsage(ranges: map<ItemId, Range>, usage: Quantities): map<ItemId, Range> {
    map x | x in ranges :: Range(Max(0, ranges[x].min - Get(usage, x)), Max(0, ranges[x].max - Get(usage, x)))
  }

  lemma SubtractUsageAt(ranges: map<ItemId, Range>, usage: Quantities, x: ItemId)
    requires x in ranges
    ensures x in SubtractUsage(ranges, usage)
    ensures SubtractUsage(ranges, usage)[x].min == Max(0, GetRange(ranges, x).min - Get(usage, x))
    ensures SubtractUsage(ranges, usage)[x].max == Max(0, GetRange(ranges, x).max - Get(usage, x))
  {
  }

  /** `rawRange`: the three passes of the aggregator. */
  function RawRange(cat: Catalog, steps: seq<Step>, list: CraftList, usage: Quantities): map<ItemId, Range> {
    SubtractUsage(AddDirect(cat, list, AddSteps(cat, steps, map[])), usage)
  }

  /** The aggregator holds exactly the raw items that some step consumes or the craft
      list requests. */
  lemma RawRangeKeys(cat: Catalog, steps: seq<Step>, list: CraftList, usage: Quantities, x: ItemId)
    ensures x in RawRange(cat, steps, list, usage) <==> IsRaw(cat, x) && (InSteps(steps, x) || InList(list, x))
  {
    AddStepsKeys(cat, steps, map[], x);
    AddDirectKeys(cat, list, AddSteps(cat, steps, map[]), x);
  }

  /** Only recipe-less catalog items get a raw range. */
  lemma RawRangeRaw(cat: Catalog, steps: seq<Step>, list: CraftList, usage: Quantities, x: ItemId)
    requires x in RawRange(cat, steps, list, usage)
    ensures IsRaw(cat, x)
  {
    RawRangeKeys(cat, steps, list, usage, x);
  }

  /** Each raw item's range is its summed need over the steps plus its direct request,
      minus what the inventory covered, floored at 0 -- whatever order the steps are in. */
  lemma RawRangeSums(cat: Catalog, steps: seq<Step>, list: CraftList, usage: Quantities, x: ItemId)
    requires x in RawRange(cat, steps, list, usage)
    ensures RawRange(cat, steps, list, usage)[x].min == Max(0, StepsNeed(steps, x).min + ListQty(list, x) - Get(usage, x))
    ensures RawRange(cat, steps, list, usage)[x].max == Max(0, StepsNeed(steps, x).max + ListQty(list, x) - Get(usage, x))
  {
    RawRangeRaw(cat, steps, list, usage, x);
    var d := AddDirect(cat, list, AddSteps(cat, steps, map[]));
    assert x in d;
    PassesSum(cat, steps, list, x);
    SubtractUsageAt(d, usage, x);
    var lo := GetRange(d, x).min;
    var hi := GetRange(d, x).max;
    assert lo == StepsNeed(steps, x).min + ListQty(list, x);
    assert hi == StepsNeed(steps, x).max + ListQty(list, x);
    assert RawRange(cat, steps, list, usage)[x] == SubtractUsage(d, usage)[x];
  }

  lemma PassesSum(cat: Catalog, steps: seq<Step>, list: CraftList, x: ItemId)
    requires IsRaw(cat, x)
    ensures GetRange(AddDirect(cat, list, AddSteps(cat, steps, map[])), x).min == StepsNeed(steps, x).min + ListQty(list, x)
    ensures GetRange(AddDirect(cat, list, AddSteps(cat, steps, map[])), x).max == StepsNeed(steps, x).max + ListQty(list, x)
  {
    AddStepsSums(cat, steps, map[], x);
    AddDirectSums(cat, list, AddSteps(cat, steps, map[]), x);
  }

  /** One end of a range: `max` when `upper`, `min` otherwise. */
  function End(r: Range, upper: bool): int {
    if upper then r.max else r.min
  }

  lemma {:induction false} LinesNeedAbsent(ings: seq<IngredientNeed>, x: ItemId, upper: bool)
    requires forall i :: 0 <= i < |ings| ==> ings[i].id != x
    ensures End(LinesNeed(ings, x), upper) == 0
  {
    if |ings| > 0 {
      LinesNeedAbsent(ings[1..], x, upper);
    }
  }

  /** An item no step names is needed by none of them. */
  lemma {:induction false} StepsNeedAbsent(steps: seq<Step>, x: ItemId, upper: bool)
    requires !InSteps(steps, x)
    ensures End(StepsNeed(steps, x), upper) == 0
  {
    if |steps| > 0 {
      assert !InSteps(steps[1..], x) by {
        InStepsCons(steps, x);
      }
      LinesNeedAbsent(steps[0].ingredients, x, upper);
      StepsNeedAbsent(steps[1..], x, upper);
    }
  }

  ghost predicate AllBoundsOrdered(steps: seq<Step>) {
    forall i :: 0 <= i < |steps| ==> BoundsOrdered(steps[i])
  }

  lemma {:induction false} LinesNeedOrdered(ings: seq<IngredientNeed>, x: ItemId)
    requires forall i :: 0 <= i < |ings| ==> ings[i].neededMin <= ings[i].neededMax
    ensures 0 <= LinesNeed(ings, x).min <= LinesNeed(ings, x).max
  {
    if |ings| > 0 {
      LinesNeedOrdered(ings[1..], x);
    }
  }

  lemma {:induction false} StepsNeedOrdered(steps: seq<Step>, x: ItemId)
    requires AllBoundsOrdered(steps)
    ensures 0 <= StepsNeed(steps, x).min <= StepsNeed(steps, x).max
  {
    if |steps| > 0 {
      LinesNeedOrdered(steps[0].ingredients, x);
      StepsNeedOrdered(steps[1..], x);
    }
  }

  /** Over steps whose bounds are ordered, every raw range satisfies `0 <= min <= max`. */
  lemma RawRangeOrdered(cat: Catalog, steps: seq<Step>, list: CraftList, usage: Quantities, x: ItemId)
    requires AllBoundsOrdered(steps)
    requires x in RawRange(cat, steps, list, usage)
    ensures 0 <= RawRange(cat, steps, list, usage)[x].min <= RawRange(cat, steps, list, usage)[x].max
  {
    var need := StepsNeed(steps, x);
    var q, u := ListQty(list, x), Get(usage, x);
    StepsNeedOrdered(steps, x);
    RawRangeSums(cat, steps, list, usage, x);
    FloorOrdered(RawRange(cat, steps, list, usage)[x], need, q, u);
  }

  lemma FloorOrdered(r: Range, need: Range, q: int, u: int)
    requires r.min == Max(0, need.min + q - u) && r.max == Max(0, need.max + q - u)
    requires need.min <= need.max
    ensures 0 <= r.min <= r.max
  {
  }

  /** A recipe-less item requested directly and consumed by no step passes straight
      through: its range is the request less what the inventory covered. */
  lemma NoRecipePassthrough(cat: Catalog, steps: seq<Step>, list: CraftList, usage: Quantities, x: ItemId)
    requires IsRaw(cat, x) && InList(list, x) && !InSteps(steps, x)
    ensures x in RawRange(cat, steps, list, usage)
    ensures RawRange(cat, steps, list, usage)[x].min == Max(0, ListQty(list, x) - Get(usage, x))
    ensures RawRange(cat, steps, list, usage)[x].max == Max(0, ListQty(list, x) - Get(usage, x))
  {
    RawRangeKeys(cat, steps, list, usage, x);
    StepsNeedAbsent(steps, x, false);
    StepsNeedAbsent(steps, x, true);
    RawRangeSums(cat, steps, list, usage, x);
    NoNeedShift(RawRange(cat, steps, list, usage)[x], StepsNeed(steps, x), ListQty(list, x), Get(usage, x));
  }

  lemma NoNeedShift(r: Range, need: Range, q: int, u: int)
    requires r.min == Max(0, need.min + q - u) && r.max == Max(0, need.max + q - u)
    requires need.min == 0 && need.max == 0
    ensures r.min == Max(0, q - u) && r.max == Max(0, q - u)
  {
    assert need.min + q - u == q - u;
  }
}
