/** The step builder of `calculateCraftingRequirements`: aggregated demand turned into
    crafting steps with min/max craft counts and per-ingredient bounds. */
module Steps {
  import opened Wrappers
  import opened Arith
  import opened Catalog
  import opened Outputs
  import opened Expansion
  import opened Keys

  /** One ingredient line of a step: what this step alone consumes of `id`. */
  datatype IngredientNeed = IngredientNeed(id: ItemId, neededMin: nat, neededMax: nat)

  /** A crafting step; `outMin`/`outMax` are the recipe's yield clamped to at least 1. */
  datatype Step = Step(
    id: ItemId,
    recipeIndex: int,
    quantityToGet: nat,
    craftsMin: nat,
    craftsMax: nat,
    producedMin: nat,
    producedMax: nat,
    outMin: nat,
    outMax: nat,
    ingredients: seq<IngredientNeed>)

  /** The orderings a step promises its reader. */
  predicate BoundsOrdered(s: Step) {
    && s.craftsMin <= s.craftsMax
    && s.producedMin <= s.producedMax
    && s.quantityToGet <= s.producedMax
    && forall i :: 0 <= i < |s.ingredients| ==> s.ingredients[i].neededMin <= s.ingredients[i].neededMax
  }

  /** How a step's counts follow from its quantity and yields: the fewest crafts when
      every craft yields the most, the most crafts when every craft yields the least,
      and one ingredient line per consumed item, in order, scaled by both counts. */
  predicate CountsFor(s: Step, consumed: seq<Ingredient>) {
    && 1 <= s.outMin <= s.outMax
    && s.craftsMin * s.outMax >= s.quantityToGet
    && (s.craftsMin == 0 || (s.craftsMin - 1) * s.outMax < s.quantityToGet)
    && s.craftsMax * s.outMin >= s.quantityToGet
    && (s.craftsMax == 0 || (s.craftsMax - 1) * s.outMin < s.quantityToGet)
    && s.producedMin == s.craftsMin * s.outMin
    && s.producedMax == s.craftsMax * s.outMax
    && |s.ingredients| == |consumed|
    && forall i :: 0 <= i < |consumed| ==>
         s.ingredients[i] == IngredientNeed(consumed[i].id, consumed[i].quantity * s.craftsMin,
                                            consumed[i].quantity * s.craftsMax)
  }

  /** The step that crafts `q` of `id` with `recipe`, chosen at `index`. */
  function StepFor(id: ItemId, index: int, q: nat, recipe: Recipe): (s: Step)
    ensures BoundsOrdered(s) && CountsFor(s, recipe.consumed)
    ensures s.id == id && s.recipeIndex == index && s.quantityToGet == q
    ensures s.outMin == Max(1, RecipeOutputs(recipe).minOut)
    ensures s.outMax == Max(1, RecipeOutputs(recipe).maxOut)
  {
    var y := RecipeOutputs(recipe);
    Craft(id, index, q, Max(1, y.minOut), Max(1, y.maxOut), recipe.consumed)
  }

  /** The step for yields already clamped to at least 1. */
  function Craft(id: ItemId, index: int, q: nat, outMin: nat, outMax: nat, consumed: seq<Ingredient>): (s: Step)
    requires 1 <= outMin <= outMax
    ensures BoundsOrdered(s) && CountsFor(s, consumed)
    ensures s.id == id && s.recipeIndex == index && s.quantityToGet == q
    ensures s.outMin == outMin && s.outMax == outMax
  {
    var craftsMin := CeilDiv(q, outMax);
    var craftsMax := CeilDiv(q, outMin);
    CraftBounds(q, outMin, outMax);
    Step(id, index, q, craftsMin, craftsMax, craftsMin * outMin, craftsMax * outMax,
         outMin, outMax, IngredientLines(consumed, craftsMin, craftsMax))
  }

  /** Crafting at the max yield takes no more crafts, and produces no more at the min
      yield, than crafting at the min yield produces at the max yield. */
  lemma CraftBounds(q: nat, outMin: nat, outMax: nat)
    requires 1 <= outMin <= outMax
    ensures CeilDiv(q, outMax) <= CeilDiv(q, outMin)
    ensures CeilDiv(q, outMax) * outMin <= CeilDiv(q, outMin) * outMax
    ensures q <= CeilDiv(q, outMin) * outMax
  {
    var craftsMin := CeilDiv(q, outMax);
    var craftsMax := CeilDiv(q, outMin);
    CeilDivAntitone(q, outMin, outMax);
    MulMono(outMin, outMax, craftsMin);
    MulMono(craftsMin, craftsMax, outMax);
    MulMono(outMin, outMax, craftsMax);
  }

  /** The step for one aggregated entry: present exactly when the item is craftable,
      and built from the selected recipe at the selected (or defaulted) index. */
  function BuildStep(cat: Catalog, sel: Selections, id: ItemId, q: nat): (r: Option<Step>)
    ensures r.Some? <==> Craftable(cat, sel, id)
    ensures r.Some? ==>
      var recipes := cat[id].recipes;
      && r.value.recipeIndex == (if id in sel && sel[id] < |recipes| then sel[id] else 0)
      && 0 <= r.value.recipeIndex < |recipes|
      && r.value == StepFor(id, r.value.recipeIndex, q, recipes[r.value.recipeIndex])
      && recipes[r.value.recipeIndex] == SelectedRecipe(cat[id], sel, id).value
  {
    if id !in cat then None
    else
      var recipes := cat[id].recipes;
      var index := SelectedIndex(sel, id, |recipes|);
      if 0 <= index < |recipes| then Some(StepFor(id, index, q, recipes[index])) else None
  }

  /** `consumed_items.map(...)`: each ingredient scaled by both craft counts. */
  function IngredientLines(consumed: seq<Ingredient>, craftsMin: nat, craftsMax: nat): (r: seq<IngredientNeed>)
    requires craftsMin <= craftsMax
    ensures |r| == |consumed|
    ensures forall i :: 0 <= i < |consumed| ==>
      r[i] == IngredientNeed(consumed[i].id, consumed[i].quantity * craftsMin, consumed[i].quantity * craftsMax)
    ensures forall i :: 0 <= i < |r| ==> r[i].neededMin <= r[i].neededMax
  {
    seq(|consumed|, i requires 0 <= i < |consumed| =>
      MulMono(craftsMin, craftsMax, consumed[i].quantity);
      IngredientNeed(consumed[i].id, consumed[i].quantity * craftsMin, consumed[i].quantity * craftsMax))
  }

  predicate UniqueIds(steps: seq<Step>) {
    forall i, j :: 0 <= i < j < |steps| ==> steps[i].id != steps[j].id
  }

  /** `Object.entries(toCraftAggregated).map(...).filter(Boolean)`: the steps of the
      craftable ids of `order`, in that order, each built from its aggregated quantity. */
  function BuildSteps(cat: Catalog, sel: Selections, demand: Quantities, order: seq<ItemId>): (steps: seq<Step>)
    requires forall x :: x in order ==> x in demand
    ensures forall s :: s in steps ==> s.id in order && BuildStep(cat, sel, s.id, demand[s.id]) == Some(s)
  {
    if |order| == 0 then []
    else
      var rest := BuildSteps(cat, sel, demand, order[1..]);
      match BuildStep(cat, sel, order[0], demand[order[0]])
      case None => rest
      case Some(s) => [s] + rest
  }

  /** Each id of `order` has a step exactly when it is craftable. */
  lemma {:induction false} BuildStepsCover(cat: Catalog, sel: Selections, demand: Quantities, order: seq<ItemId>, x: ItemId)
    requires forall x :: x in order ==> x in demand
    requires x in order
    ensures Craftable(cat, sel, x) <==> exists s :: s in BuildSteps(cat, sel, demand, order) && s.id == x
  {
    var steps := BuildSteps(cat, sel, demand, order);
    if Craftable(cat, sel, x) {
      var rest := BuildSteps(cat, sel, demand, order[1..]);
      if x == order[0] {
        var s := BuildStep(cat, sel, x, demand[x]).value;
        assert steps == [s] + rest;
        assert s in steps && s.id == x;
      } else {
        assert x in order[1..];
        BuildStepsCover(cat, sel, demand, order[1..], x);
        var s :| s in rest && s.id == x;
        assert s in steps;
      }
    }
  }

  /** Distinct aggregated ids give distinct step ids. */
  lemma {:induction false} BuildStepsUnique(cat: Catalog, sel: Selections, demand: Quantities, order: seq<ItemId>)
    requires forall x :: x in order ==> x in demand
    requires Distinct(order)
    ensures UniqueIds(BuildSteps(cat, sel, demand, order))
  {
    if |order| > 0 {
      var tail := order[1..];
      var rest := BuildSteps(cat, sel, demand, tail);
      assert Distinct(tail) by {
        forall i, j | 0 <= i < j < |tail| ensures tail[i] != tail[j] {
          assert tail[i] == order[i + 1] && tail[j] == order[j + 1];
        }
      }
      BuildStepsUnique(cat, sel, demand, tail);
      match BuildStep(cat, sel, order[0], demand[order[0]])
      case None =>
      case Some(s) =>
        var steps := [s] + rest;
        forall j | 0 <= j < |rest| ensures rest[j].id != s.id {
          assert rest[j] in rest;
          var k :| 0 <= k < |tail| && tail[k] == rest[j].id;
          assert order[k + 1] == tail[k];
        }
        forall i, j | 0 <= i < j < |steps| ensures steps[i].id != steps[j].id {
          ConsAt(s, rest, j);
          ConsAt(s, rest, i);
        }
    }
  }

  lemma ConsAt<T>(a: T, r: seq<T>, j: nat)
    requires j < |r| + 1
    ensures ([a] + r)[j] == if j == 0 then a else r[j - 1]
  {
  }

  /** Selecting recipe `k` of an item and recalculating gives a step built from recipe
      `k` alone: its ingredient lines name exactly that recipe's consumed items, in order. */
  lemma SwitchRecipe(cat: Catalog, sel: Selections, id: ItemId, q: nat, k: int)
    requires id in cat && 0 <= k < |cat[id].recipes|
    ensures var r := BuildStep(cat, sel[id := k], id, q);
      var consumed := cat[id].recipes[k].consumed;
      && r.Some? && r.value.recipeIndex == k
      && |r.value.ingredients| == |consumed|
      && forall i :: 0 <= i < |consumed| ==> r.value.ingredients[i].id == consumed[i].id
  {
  }
}
