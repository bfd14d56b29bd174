/** The static game data the engine reads: items, their alternative recipes,
    and the user's recipe selections. */
module Catalog {
  import opened Wrappers

  type ItemId = string

  /** One entry of a recipe's `consumed_items`: `quantity` units of `id` per craft. */
  datatype Ingredient = Ingredient(id: ItemId, quantity: nat)

  /** A recipe. `outputQuantity` is the `output_quantity` field, with 0 standing for
      an absent or falsy field; `possibilities` lists the keys of the `possibilities`
      object that parse as integers, in key order, and is empty when that object is
      absent or empty. */
  datatype Recipe = Recipe(consumed: seq<Ingredient>, outputQuantity: int, possibilities: seq<int>)

  /** An item; an item with no recipe is a raw material. */
  datatype Item = Item(name: string, recipes: seq<Recipe>)

  type Catalog = map<ItemId, Item>

  /** Item id to chosen recipe index. */
  type Selections = map<ItemId, int>

  /** Item id to a count: the inventory, inventory usage and aggregated demand. */
  type Quantities = map<ItemId, nat>

  /** `m[id] || 0`. */
  function Get(m: Quantities, id: ItemId): nat {
    if id in m then m[id] else 0
  }

  predicate IsRaw(cat: Catalog, id: ItemId) {
    id in cat && |cat[id].recipes| == 0
  }

  /** `selectedRecipes[id] || 0`, replaced by 0 when it is at least `count`. */
  function SelectedIndex(sel: Selections, id: ItemId, count: nat): int {
    var i := if id in sel then sel[id] else 0;
    if i >= count then 0 else i
  }

  /** The recipe the engine uses for an item: the selected one, the first one when the
      selection is absent or past the end, and none when the selection is negative
      or the item has no recipe. */
  function SelectedRecipe(item: Item, sel: Selections, id: ItemId): (r: Option<Recipe>)
    ensures r.Some? <==> |item.recipes| > 0 && (id !in sel || sel[id] >= 0)
    ensures r.Some? && id in sel && sel[id] < |item.recipes| ==> r.value == item.recipes[sel[id]]
    ensures r.Some? && (id !in sel || sel[id] >= |item.recipes|) ==> r.value == item.recipes[0]
  {
    var i := SelectedIndex(sel, id, |item.recipes|);
    if 0 <= i < |item.recipes| then Some(item.recipes[i]) else None
  }

  /** The item is in the catalog and has a usable recipe: it gets a crafting step. */
  predicate Craftable(cat: Catalog, sel: Selections, id: ItemId) {
    id in cat && SelectedRecipe(cat[id], sel, id).Some?
  }

  /** The item records remaining demand when it is expanded: it is raw, or craftable. */
  predicate TakesDemand(cat: Catalog, sel: Selections, id: ItemId) {
    IsRaw(cat, id) || Craftable(cat, sel, id)
  }

  /** Adding a catalog item to the visited set shrinks the set of unvisited catalog items. */
  lemma ShrinkUnvisited(keys: set<ItemId>, visited: set<ItemId>, id: ItemId)
    requires id in keys && id !in visited
    ensures |keys - (visited + {id})| < |keys - visited|
  {
    assert keys - visited == (keys - (visited + {id})) + {id};
  }
}

/** `getRecipeOutputs`: the per-craft yield of a recipe as a [minOut, maxOut] pair. */
module Outputs {
  import opened Arith
  import opened Catalog

  datatype Yield = Yield(minOut: int, maxOut: int)

  function SeqMin(s: seq<int>): (m: int)
    requires |s| > 0
    ensures m in s
    ensures forall i :: 0 <= i < |s| ==> m <= s[i]
  {
    if |s| == 1 then s[0] else Min(s[0], SeqMin(s[1..]))
  }

  function SeqMax(s: seq<int>): (m: int)
    requires |s| > 0
    ensures m in s
    ensures forall i :: 0 <= i < |s| ==> s[i] <= m
  {
    if |s| == 1 then s[0] else Max(s[0], SeqMax(s[1..]))
  }

  /** A variable-yield recipe spans the listed amounts, with the low end floored at 0
      and the high end at 1; a fixed recipe yields `output_quantity`, defaulting to 1. */
  function RecipeOutputs(r: Recipe): (y: Yield)
    ensures |r.possibilities| > 0 ==>
      && (forall i :: 0 <= i < |r.possibilities| ==>
            y.minOut <= Max(0, r.possibilities[i]) && Max(1, r.possibilities[i]) <= y.maxOut)
      && (exists i :: 0 <= i < |r.possibilities| && y.minOut == Max(0, r.possibilities[i]))
      && (exists i :: 0 <= i < |r.possibilities| && y.maxOut == Max(1, r.possibilities[i]))
    ensures |r.possibilities| == 0 ==>
      y.minOut == y.maxOut == (if r.outputQuantity == 0 then 1 else r.outputQuantity)
    ensures y.minOut <= y.maxOut
  {
    if |r.possibilities| > 0 then
      Yield(Max(0, SeqMin(r.possibilities)), Max(1, SeqMax(r.possibilities)))
    else
      var q := if r.outputQuantity == 0 then 1 else r.outputQuantity;
      Yield(q, q)
  }
}
