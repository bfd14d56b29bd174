/** `calculateCraftingRequirements`: expansion, step building, the depth sort and the
    raw-range aggregation composed into one result. */
module Calculation {
  import opened Wrappers
  import opened Catalog
  import opened Expansion
  import opened Steps
  import opened Depth
  import opened RawRanges

  /** The returned `{ rawRange, craftingSteps, inventoryUsage }`. */
  datatype Plan = Plan(rawRange: map<ItemId, Range>, steps: seq<Step>, usage: Quantities)

  function Calculate(cat: Catalog, sel: Selections, list: CraftList, inv: Quantities): (p: Plan)
    // inventory conservation: nothing is drawn beyond what the inventory holds
    ensures forall x :: Get(p.usage, x) <= Get(inv, x)
    // every step keeps its bounds ordered, appears once, and the steps ascend by depth
    ensures forall i :: 0 <= i < |p.steps| ==> BoundsOrdered(p.steps[i])
    ensures forall i :: 0 <= i < |p.steps| ==> Craftable(cat, sel, p.steps[i].id)
    ensures UniqueIds(p.steps)
    ensures SortedByDepth(cat, sel, p.steps)
    // the raw ranges only name recipe-less catalog items, each with 0 <= min <= max
    ensures forall x :: x in p.rawRange ==> IsRaw(cat, x)
    ensures forall x :: x in p.rawRange ==> 0 <= p.rawRange[x].min <= p.rawRange[x].max
  {
    var st := Demand(cat, sel, list, inv);
    var built := BuildSteps(cat, sel, st.demand, st.order);
    var steps := SortByDepth(cat, sel, built);
    var rr := RawRange(cat, steps, list, st.usage);
    BuildStepsUnique(cat, sel, st.demand, st.order);
    assert UniqueIds(steps) && SortedByDepth(cat, sel, steps) by {
      SortByDepthSorted(cat, sel, built);
    }
    assert forall i :: 0 <= i < |steps| ==> BoundsOrdered(steps[i]) && Craftable(cat, sel, steps[i].id) by {
      forall i | 0 <= i < |steps| ensures BoundsOrdered(steps[i]) && Craftable(cat, sel, steps[i].id) {
        InMultiset(steps, built, steps[i]);
      }
    }
    assert forall x :: x in rr ==> IsRaw(cat, x) && 0 <= rr[x].min <= rr[x].max by {
      forall x | x in rr ensures IsRaw(cat, x) && 0 <= rr[x].min <= rr[x].max {
        RawRangeKeys(cat, steps, list, st.usage, x);
        RawRangeOrdered(cat, steps, list, st.usage, x);
      }
    }
    Plan(rr, steps, st.usage)
  }

  /** The sorted steps are exactly the steps of the craftable aggregated ids, each built
      from its aggregated quantity and selected recipe. */
  lemma CalculateSteps(cat: Catalog, sel: Selections, list: CraftList, inv: Quantities, x: ItemId)
    ensures var st := Demand(cat, sel, list, inv);
      x in st.demand ==> (Craftable(cat, sel, x) <==> exists s :: s in Calculate(cat, sel, list, inv).steps && s.id == x)
    ensures var st := Demand(cat, sel, list, inv);
      forall s :: s in Calculate(cat, sel, list, inv).steps ==>
        s.id in st.demand && BuildStep(cat, sel, s.id, st.demand[s.id]) == Some(s)
  {
    var st := Demand(cat, sel, list, inv);
    var built := BuildSteps(cat, sel, st.demand, st.order);
    var steps := Calculate(cat, sel, list, inv).steps;
    assert steps == SortByDepth(cat, sel, built);
    if x in st.demand {
      BuildStepsCover(cat, sel, st.demand, st.order, x);
    }
    forall s | s in steps ensures s in built {
      InMultiset(steps, built, s);
    }
    forall s | s in built ensures s in steps {
      InMultiset(built, steps, s);
    }
  }
}
