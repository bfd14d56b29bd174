/** The nested `expand` of `calculateCraftingRequirements`: demand propagated down the
    recipe graph, drawing greedily on a private copy of the inventory. */
module Expansion {
  import opened Wrappers
  import opened Arith
  import opened Catalog
  import opened Outputs
  import opened Keys

  /** The craft list in the order its entries are enumerated. A count is whatever was
      stored: `addToCraftList` and an import can leave zero or a negative number. */
  type CraftList = seq<(ItemId, int)>

  /** An object's keys are unique: a well-formed craft list names each id once. */
  predicate DistinctKeys(list: CraftList) {
    forall i, j :: 0 <= i < j < |list| ==> list[i].0 != list[j].0
  }

  /** The ids of the craft list, in enumeration order. */
  function ListKeys(list: CraftList): (keys: seq<ItemId>)
    ensures |keys| == |list| && forall i {:trigger keys[i]} :: 0 <= i < |list| ==> keys[i] == list[i].0
  {
    seq(|list|, i requires 0 <= i < |list| => list[i].0)
  }

  /** How much of `x` the craft list requests directly. */
  function ListQty(list: CraftList, x: ItemId): int {
    if |list| == 0 then 0 else (if list[0].0 == x then list[0].1 else 0) + ListQty(list[1..], x)
  }

  predicate InList(list: CraftList, x: ItemId) {
    exists i :: 0 <= i < |list| && list[i].0 == x
  }

  lemma InListCons(list: CraftList, x: ItemId)
    requires |list| > 0
    ensures InList(list, x) <==> list[0].0 == x || InList(list[1..], x)
  {
    if InList(list, x) && list[0].0 != x {
      var i :| 0 <= i < |list| && list[i].0 == x;
      assert list[1..][i - 1].0 == x;
    }
    if InList(list[1..], x) {
      var i :| 0 <= i < |list[1..]| && list[1..][i].0 == x;
      assert list[i + 1].0 == x;
    }
  }

  /** What one calculation threads through the recursion: the temporary inventory,
      `inventoryUsage`, `toCraftAggregated`, and the order in which ids first entered
      `toCraftAggregated` (the order the step builder walks it in). */
  datatype State = State(temp: Quantities, usage: Quantities, demand: Quantities, order: seq<ItemId>)

  /** `order` lists each key of `demand` exactly once, in the order `Object.entries`
      enumerates them. */
  ghost predicate Tracked(st: State) {
    && Distinct(st.order)
    && (forall x :: x in st.order <==> x in st.demand)
    && KeyOrdered(st.order)
  }

  predicate SameAt(a: Quantities, b: Quantities, x: ItemId) {
    (x in a <==> x in b) && (x in a ==> a[x] == b[x])
  }

  /** Nothing recorded about `x` differs between `st` and `r`. */
  predicate Untouched(st: State, r: State, x: ItemId) {
    SameAt(st.temp, r.temp, x) && SameAt(st.usage, r.usage, x) && SameAt(st.demand, r.demand, x)
  }

  function AddTo(m: Quantities, id: ItemId, n: nat): Quantities {
    m[id := Get(m, id) + n]
  }

  /** `toCraftAggregated[id] = (toCraftAggregated[id] || 0) + n`: a new key takes its
      place in enumeration order. */
  function Record(st: State, id: ItemId, n: nat): State {
    st.(demand := AddTo(st.demand, id, n),
        order := if id in st.demand then st.order else InsertKey(st.order, id))
  }

  /** Greedy draw on the temporary inventory: `use = min(target, have)` moves from the
      temporary inventory to `inventoryUsage` when it is positive. */
  function Draw(st: State, id: ItemId, target: nat): State {
    var have := Get(st.temp, id);
    var use := Min(target, have);
    if use > 0 then st.(usage := AddTo(st.usage, id, use), temp := st.temp[id := have - use]) else st
  }

  /** `expand(id, target, visited)`. */
  function Expand(cat: Catalog, sel: Selections, id: ItemId, target: nat, visited: set<ItemId>, st: State): (r: State)
    decreases |cat.Keys - visited|, 0
    ensures id in visited || id !in cat ==> r == st
  {
    if id in visited || id !in cat then st
    else
      var st1 := Draw(st, id, target);
      var rest := target - Min(target, Get(st.temp, id));
      if rest == 0 then st1
      else if |cat[id].recipes| == 0 then Record(st1, id, rest)
      else
        match SelectedRecipe(cat[id], sel, id)
        case None => st1
        case Some(recipe) =>
          var crafts := CeilDiv(rest, Max(1, RecipeOutputs(recipe).maxOut));
          ShrinkUnvisited(cat.Keys, visited, id);
          ExpandAll(cat, sel, recipe.consumed, crafts, visited + {id}, Record(st1, id, rest))
  }

  /** The loop over `consumed_items`: each ingredient is expanded for `crafts` crafts,
      with its own copy of the ancestor path. */
  function ExpandAll(cat: Catalog, sel: Selections, ings: seq<Ingredient>, crafts: nat, path: set<ItemId>, st: State): (r: State)
    decreases |cat.Keys - path|, 1, |ings|
    ensures |ings| == 0 ==> r == st
  {
    if |ings| == 0 then st
    else ExpandAll(cat, sel, ings[1..], crafts, path, Expand(cat, sel, ings[0].id, crafts * ings[0].quantity, path, st))
  }

  /** The top-level loop: every craft-list entry expanded in order from an empty path,
      all sharing one temporary inventory. An entry whose count is zero or negative
      changes nothing: `use = min(qty, have)` is not positive, so nothing is drawn, and
      `targetQtyMin <= 0` returns at once. */
  function ExpandList(cat: Catalog, sel: Selections, list: CraftList, st: State): State
  {
    if |list| == 0 then st
    else ExpandList(cat, sel, list[1..], ExpandEntry(cat, sel, list[0], st))
  }

  function ExpandEntry(cat: Catalog, sel: Selections, entry: (ItemId, int), st: State): State {
    if entry.1 <= 0 then st else Expand(cat, sel, entry.0, entry.1, {}, st)
  }

  /** With nothing left after the draw, or no usable recipe, an expansion is just the
      draw, followed for a raw item by recording the remainder. */
  lemma ExpandShallow(cat: Catalog, sel: Selections, id: ItemId, target: nat, visited: set<ItemId>, st: State)
    requires id !in visited && id in cat
    requires target <= Get(st.temp, id) || !Craftable(cat, sel, id)
    ensures Expand(cat, sel, id, target, visited, st)
      == if target > Get(st.temp, id) && IsRaw(cat, id)
         then Record(Draw(st, id, target), id, target - Get(st.temp, id))
         else Draw(st, id, target)
  {
  }

  /** A crafted item with demand left after the draw records it and expands each
      ingredient for `ceil(rest / max(1, maxOut))` crafts. */
  lemma ExpandCraftedUnfold(cat: Catalog, sel: Selections, id: ItemId, target: nat, visited: set<ItemId>, st: State)
    requires id !in visited && Craftable(cat, sel, id)
    requires target > Get(st.temp, id)
    ensures var recipe := SelectedRecipe(cat[id], sel, id).value;
      var rest := target - Get(st.temp, id);
      Expand(cat, sel, id, target, visited, st)
        == ExpandAll(cat, sel, recipe.consumed, CeilDiv(rest, Max(1, RecipeOutputs(recipe).maxOut)),
                     visited + {id}, Record(Draw(st, id, target), id, rest))
  {
    var recipe := SelectedRecipe(cat[id], sel, id).value;
    var rest := target - Get(st.temp, id);
    assert target - Min(target, Get(st.temp, id)) == rest && rest != 0;
    assert id in cat && |cat[id].recipes| > 0;
    assert SelectedRecipe(cat[id], sel, id) == Some(recipe);
    ShrinkUnvisited(cat.Keys, visited, id);
  }

  /** Inventory conservation between two states: the temporary inventory only shrinks,
      keeps its keys, and whatever left it was added to the usage. */
  ghost predicate Conserves(st: State, r: State) {
    && r.temp.Keys == st.temp.Keys
    && (forall x :: Get(r.temp, x) + Get(r.usage, x) == Get(st.temp, x) + Get(st.usage, x))
    && (forall x :: Get(r.temp, x) <= Get(st.temp, x))
  }

  /** Demand only grows, and only ever names catalog items. */
  ghost predicate DemandGrows(cat: Catalog, st: State, r: State) {
    && (forall x :: Get(st.demand, x) <= Get(r.demand, x))
    && (forall x :: x in r.demand ==> x in st.demand || x in cat)
  }

  lemma DrawConserves(st: State, id: ItemId, target: nat)
    ensures Conserves(st, Draw(st, id, target))
    ensures Draw(st, id, target).demand == st.demand && Draw(st, id, target).order == st.order
  {
  }

  lemma RecordGrows(cat: Catalog, st: State, id: ItemId, n: nat)
    requires id in cat
    ensures Conserves(st, Record(st, id, n))
    ensures DemandGrows(cat, st, Record(st, id, n))
  {
  }

  lemma ChainConserves(cat: Catalog, a: State, b: State, c: State)
    requires Conserves(a, b) && Conserves(b, c)
    requires DemandGrows(cat, a, b) && DemandGrows(cat, b, c)
    ensures Conserves(a, c) && DemandGrows(cat, a, c)
  {
  }

  lemma {:induction false} ExpandConserves(cat: Catalog, sel: Selections, id: ItemId, target: nat, visited: set<ItemId>, st: State)
    decreases |cat.Keys - visited|, 1
    ensures Conserves(st, Expand(cat, sel, id, target, visited, st))
    ensures DemandGrows(cat, st, Expand(cat, sel, id, target, visited, st))
  {
    var r := Expand(cat, sel, id, target, visited, st);
    if id in visited || id !in cat {
    } else if target <= Get(st.temp, id) || !Craftable(cat, sel, id) {
      ExpandShallow(cat, sel, id, target, visited, st);
      var st1 := Draw(st, id, target);
      DrawConserves(st, id, target);
      assert DemandGrows(cat, st, st1);
      if target > Get(st.temp, id) && IsRaw(cat, id) {
        RecordGrows(cat, st1, id, target - Get(st.temp, id));
        ChainConserves(cat, st, st1, r);
      }
    } else {
      ExpandCraftedConserves(cat, sel, id, target, visited, st);
    }
  }

  lemma {:induction false} ExpandCraftedConserves(cat: Catalog, sel: Selections, id: ItemId, target: nat, visited: set<ItemId>, st: State)
    requires id !in visited && Craftable(cat, sel, id)
    requires target > Get(st.temp, id)
    decreases |cat.Keys - visited|, 0
    ensures Conserves(st, Expand(cat, sel, id, target, visited, st))
    ensures DemandGrows(cat, st, Expand(cat, sel, id, target, visited, st))
  {
    var r := Expand(cat, sel, id, target, visited, st);
    var recipe := SelectedRecipe(cat[id], sel, id).value;
    var rest := target - Get(st.temp, id);
    var crafts := CeilDiv(rest, Max(1, RecipeOutputs(recipe).maxOut));
    var st1 := Draw(st, id, target);
    var st2 := Record(st1, id, rest);
    ShrinkUnvisited(cat.Keys, visited, id);
    ExpandCraftedUnfold(cat, sel, id, target, visited, st);
    DrawConserves(st, id, target);
    assert DemandGrows(cat, st, st1);
    RecordGrows(cat, st1, id, rest);
    ChainConserves(cat, st, st1, st2);
    ExpandAllConserves(cat, sel, recipe.consumed, crafts, visited + {id}, st2);
    ChainConserves(cat, st, st2, r);
  }

  lemma {:induction false} ExpandAllConserves(cat: Catalog, sel: Selections, ings: seq<Ingredient>, crafts: nat, path: set<ItemId>, st: State)
    decreases |cat.Keys - path|, 2, |ings|
    ensures Conserves(st, ExpandAll(cat, sel, ings, crafts, path, st))
    ensures DemandGrows(cat, st, ExpandAll(cat, sel, ings, crafts, path, st))
  {
    if |ings| > 0 {
      var st1 := Expand(cat, sel, ings[0].id, crafts * ings[0].quantity, path, st);
      ExpandConserves(cat, sel, ings[0].id, crafts * ings[0].quantity, path, st);
      ExpandAllConserves(cat, sel, ings[1..], crafts, path, st1);
      ChainConserves(cat, st, st1, ExpandAll(cat, sel, ings, crafts, path, st));
    }
  }

  lemma RecordTracked(st: State, id: ItemId, n: nat)
    requires Tracked(st)
    ensures Tracked(Record(st, id, n))
  {
    if id !in st.demand {
      InsertKeyOrdered(st.order, id);
      InsertKeyDistinct(st.order, id);
      assert forall x :: x in InsertKey(st.order, id) <==> x in multiset(InsertKey(st.order, id));
    }
  }

  lemma {:induction false} ExpandTracked(cat: Catalog, sel: Selections, id: ItemId, target: nat, visited: set<ItemId>, st: State)
    requires Tracked(st)
    decreases |cat.Keys - visited|, 0
    ensures Tracked(Expand(cat, sel, id, target, visited, st))
  {
    var st1 := Draw(st, id, target);
    if id in visited || id !in cat {
    } else if target <= Get(st.temp, id) || !Craftable(cat, sel, id) {
      ExpandShallow(cat, sel, id, target, visited, st);
      DrawConserves(st, id, target);
      if target > Get(st.temp, id) && IsRaw(cat, id) {
        RecordTracked(st1, id, target - Get(st.temp, id));
      }
    } else {
      var recipe := SelectedRecipe(cat[id], sel, id).value;
      var rest := target - Get(st.temp, id);
      var crafts := CeilDiv(rest, Max(1, RecipeOutputs(recipe).maxOut));
      ShrinkUnvisited(cat.Keys, visited, id);
      ExpandCraftedUnfold(cat, sel, id, target, visited, st);
      DrawConserves(st, id, target);
      RecordTracked(st1, id, rest);
      ExpandAllTracked(cat, sel, recipe.consumed, crafts, visited + {id}, Record(st1, id, rest));
    }
  }

  lemma {:induction false} ExpandAllTracked(cat: Catalog, sel: Selections, ings: seq<Ingredient>, crafts: nat, path: set<ItemId>, st: State)
    requires Tracked(st)
    decreases |cat.Keys - path|, 1, |ings|
    ensures Tracked(ExpandAll(cat, sel, ings, crafts, path, st))
  {
    if |ings| > 0 {
      var st1 := Expand(cat, sel, ings[0].id, crafts * ings[0].quantity, path, st);
      ExpandTracked(cat, sel, ings[0].id, crafts * ings[0].quantity, path, st);
      ExpandAllTracked(cat, sel, ings[1..], crafts, path, st1);
    }
  }

  /** Sibling subtrees see only their ancestors: an id on the path handed to an
      expansion is left untouched by it, so a cycle back to an ancestor changes nothing. */
  lemma DrawRecordSpare(st: State, id: ItemId, target: nat, n: nat, x: ItemId)
    requires x != id
    ensures Untouched(st, Draw(st, id, target), x)
    ensures Untouched(st, Record(Draw(st, id, target), id, n), x)
  {
  }

  lemma {:induction false} ExpandSparesPath(cat: Catalog, sel: Selections, id: ItemId, target: nat, visited: set<ItemId>, st: State)
    decreases |cat.Keys - visited|, 0
    ensures forall x :: x in visited ==> Untouched(st, Expand(cat, sel, id, target, visited, st), x)
  {
    var r := Expand(cat, sel, id, target, visited, st);
    if id in visited || id !in cat {
    } else {
      var rest := target - Min(target, Get(st.temp, id));
      if target <= Get(st.temp, id) || !Craftable(cat, sel, id) {
        ExpandShallow(cat, sel, id, target, visited, st);
      } else {
        var recipe := SelectedRecipe(cat[id], sel, id).value;
        var crafts := CeilDiv(rest, Max(1, RecipeOutputs(recipe).maxOut));
        ShrinkUnvisited(cat.Keys, visited, id);
        ExpandCraftedUnfold(cat, sel, id, target, visited, st);
        ExpandAllSparesPath(cat, sel, recipe.consumed, crafts, visited + {id}, Record(Draw(st, id, target), id, rest));
      }
      forall x | x in visited
        ensures Untouched(st, r, x)
      {
        DrawRecordSpare(st, id, target, rest, x);
      }
    }
  }

  lemma {:induction false} ExpandAllSparesPath(cat: Catalog, sel: Selections, ings: seq<Ingredient>, crafts: nat, path: set<ItemId>, st: State)
    decreases |cat.Keys - path|, 1, |ings|
    ensures forall x :: x in path ==> Untouched(st, ExpandAll(cat, sel, ings, crafts, path, st), x)
  {
    if |ings| > 0 {
      var st1 := Expand(cat, sel, ings[0].id, crafts * ings[0].quantity, path, st);
      ExpandSparesPath(cat, sel, ings[0].id, crafts * ings[0].quantity, path, st);
      ExpandAllSparesPath(cat, sel, ings[1..], crafts, path, st1);
    }
  }

  /** After a crafted item records its remainder, the expansion of its ingredients
      leaves it untouched. */
  lemma ExpandCraftedSparesSelf(cat: Catalog, sel: Selections, id: ItemId, target: nat, visited: set<ItemId>, st: State)
    requires id !in visited && Craftable(cat, sel, id)
    requires target > Get(st.temp, id)
    ensures var rest := target - Min(target, Get(st.temp, id));
      Untouched(Record(Draw(st, id, target), id, rest), Expand(cat, sel, id, target, visited, st), id)
  {
    var rest := target - Min(target, Get(st.temp, id));
    var recipe := SelectedRecipe(cat[id], sel, id).value;
    var crafts := CeilDiv(rest, Max(1, RecipeOutputs(recipe).maxOut));
    assert rest == target - Get(st.temp, id);
    var st2 := Record(Draw(st, id, target), id, rest);
    ExpandCraftedUnfold(cat, sel, id, target, visited, st);
    var r := ExpandAll(cat, sel, recipe.consumed, crafts, visited + {id}, st2);
    assert Expand(cat, sel, id, target, visited, st) == r;
    ExpandAllSparesPath(cat, sel, recipe.consumed, crafts, visited + {id}, st2);
    assert id in visited + {id};
  }

  /** What an expansion records about the item itself: the greedy draw as usage, and
      the remainder as demand when the item is raw or has a usable recipe. */
  lemma ExpandHead(cat: Catalog, sel: Selections, id: ItemId, target: nat, visited: set<ItemId>, st: State)
    requires id !in visited && id in cat
    ensures var r := Expand(cat, sel, id, target, visited, st);
      && Get(r.usage, id) == Get(st.usage, id) + Min(target, Get(st.temp, id))
      && Get(r.temp, id) == Get(st.temp, id) - Min(target, Get(st.temp, id))
      && Get(r.demand, id) == Get(st.demand, id)
           + (if TakesDemand(cat, sel, id) then target - Min(target, Get(st.temp, id)) else 0)
  {
    if target <= Get(st.temp, id) || !Craftable(cat, sel, id) {
      ExpandShallow(cat, sel, id, target, visited, st);
    } else {
      ExpandCraftedSparesSelf(cat, sel, id, target, visited, st);
    }
  }

  /** Every ingredient off the path that takes demand is asked for `crafts * quantity`:
      each unit is covered either from the inventory or as recorded demand. */
  lemma {:induction false} ExpandAllRequests(cat: Catalog, sel: Selections, ings: seq<Ingredient>, crafts: nat, path: set<ItemId>, st: State, k: nat)
    requires k < |ings| && ings[k].id !in path && TakesDemand(cat, sel, ings[k].id)
    decreases |ings|
    ensures var r := ExpandAll(cat, sel, ings, crafts, path, st);
      Get(r.usage, ings[k].id) + Get(r.demand, ings[k].id)
        >= Get(st.usage, ings[k].id) + Get(st.demand, ings[k].id) + crafts * ings[k].quantity
  {
    var x := ings[k].id;
    var st1 := Expand(cat, sel, ings[0].id, crafts * ings[0].quantity, path, st);
    var r := ExpandAll(cat, sel, ings[1..], crafts, path, st1);
    ExpandConserves(cat, sel, ings[0].id, crafts * ings[0].quantity, path, st);
    ExpandAllConserves(cat, sel, ings[1..], crafts, path, st1);
    if k == 0 {
      ExpandHead(cat, sel, x, crafts * ings[0].quantity, path, st);
    } else {
      ExpandAllRequests(cat, sel, ings[1..], crafts, path, st1, k - 1);
    }
  }

  /** For a crafted item with demand left after the inventory draw, every ingredient
      off the current path that takes demand is asked for
      `ceil(rest / max(1, maxOut)) * quantity`, covered from inventory or as demand. */
  lemma ExpandRequestsIngredients(cat: Catalog, sel: Selections, id: ItemId, target: nat, visited: set<ItemId>, st: State, k: nat)
    requires id !in visited && Craftable(cat, sel, id)
    requires target > Get(st.temp, id)
    requires var recipe := SelectedRecipe(cat[id], sel, id).value;
      && k < |recipe.consumed|
      && recipe.consumed[k].id !in visited + {id}
      && TakesDemand(cat, sel, recipe.consumed[k].id)
    ensures var recipe := SelectedRecipe(cat[id], sel, id).value;
      var ing := recipe.consumed[k];
      var r := Expand(cat, sel, id, target, visited, st);
      Get(r.usage, ing.id) + Get(r.demand, ing.id)
        >= Get(st.usage, ing.id) + Get(st.demand, ing.id)
           + CeilDiv(target - Get(st.temp, id), Max(1, RecipeOutputs(recipe).maxOut)) * ing.quantity
  {
    var recipe := SelectedRecipe(cat[id], sel, id).value;
    var ing := recipe.consumed[k];
    var rest := target - Get(st.temp, id);
    var crafts := CeilDiv(rest, Max(1, RecipeOutputs(recipe).maxOut));
    var st2 := Record(Draw(st, id, target), id, rest);
    var r := Expand(cat, sel, id, target, visited, st);
    ExpandCraftedUnfold(cat, sel, id, target, visited, st);
    assert r == ExpandAll(cat, sel, recipe.consumed, crafts, visited + {id}, st2);
    DrawRecordSpare(st, id, target, rest, ing.id);
    assert Get(st2.usage, ing.id) == Get(st.usage, ing.id);
    assert Get(st2.demand, ing.id) == Get(st.demand, ing.id);
    ExpandAllRequests(cat, sel, recipe.consumed, crafts, visited + {id}, st2, k);
  }

  lemma {:induction false} ExpandListConserves(cat: Catalog, sel: Selections, list: CraftList, st: State)
    ensures Conserves(st, ExpandList(cat, sel, list, st))
    ensures DemandGrows(cat, st, ExpandList(cat, sel, list, st))
  {
    if |list| > 0 {
      var st1 := ExpandEntry(cat, sel, list[0], st);
      if list[0].1 > 0 {
        ExpandConserves(cat, sel, list[0].0, list[0].1, {}, st);
      }
      ExpandListConserves(cat, sel, list[1..], st1);
      ChainConserves(cat, st, st1, ExpandList(cat, sel, list, st));
    }
  }

  lemma {:induction false} ExpandListTracked(cat: Catalog, sel: Selections, list: CraftList, st: State)
    requires Tracked(st)
    ensures Tracked(ExpandList(cat, sel, list, st))
  {
    if |list| > 0 {
      if list[0].1 > 0 {
        ExpandTracked(cat, sel, list[0].0, list[0].1, {}, st);
      }
      ExpandListTracked(cat, sel, list[1..], ExpandEntry(cat, sel, list[0], st));
    }
  }

  /** The expansion phase of one calculation, run on a private copy of the inventory:
      nothing is drawn beyond what the inventory holds, the copy never goes negative,
      and demand is recorded only for catalog items, each listed once in `order`. */
  function Demand(cat: Catalog, sel: Selections, list: CraftList, inv: Quantities): (r: State)
    ensures forall x :: Get(r.usage, x) <= Get(inv, x)
    ensures forall x :: Get(r.temp, x) + Get(r.usage, x) == Get(inv, x)
    ensures forall x :: x in r.demand ==> x in cat
    ensures Tracked(r)
  {
    var st := State(inv, map[], map[], []);
    ExpandListConserves(cat, sel, list, st);
    ExpandListTracked(cat, sel, list, st);
    ExpandList(cat, sel, list, st)
  }
}
