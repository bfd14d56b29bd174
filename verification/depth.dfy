/** `getCraftingDepth` and the sort of crafting steps by it. */
module Depth {
  import opened Wrappers
  import opened Catalog
  import opened Expansion
  import opened Steps

  /** A crafting depth: a natural number, or `Infinity` for an item met again on its
      own ancestor path. */
  datatype Depth = Fin(n: nat) | Inf

  /** The order the sort comparator induces, with `Infinity` after every number. */
  predicate DLe(a: Depth, b: Depth) {
    b.Inf? || (a.Fin? && a.n <= b.n)
  }

  function DMax(a: Depth, b: Depth): (r: Depth)
    ensures DLe(a, r) && DLe(b, r)
    ensures r == a || r == b
  {
    if DLe(a, b) then b else a
  }

  lemma DLeTrans(a: Depth, b: Depth, c: Depth)
    requires DLe(a, b) && DLe(b, c)
    ensures DLe(a, c)
  {
  }

  /** `1 + d`, with `1 + Infinity = Infinity`. */
  function Succ(d: Depth): Depth {
    match d
    case Fin(n) => Fin(n + 1)
    case Inf => Inf
  }

  /** `getCraftingDepth(id, path)`. */
  function DepthOf(cat: Catalog, sel: Selections, id: ItemId, path: set<ItemId>): (d: Depth)
    decreases |cat.Keys - path|, 0
    // a finite depth never exceeds the number of catalog items still off the path
    ensures d.Fin? ==> d.n <= |cat.Keys - path|
  {
    if id in path then Inf
    else if id !in cat || |cat[id].recipes| == 0 then Fin(0)
    else
      ShrinkUnvisited(cat.Keys, path, id);
      match SelectedRecipe(cat[id], sel, id)
      case None => Fin(1)
      case Some(recipe) =>
        Succ(MaxDepth(cat, sel, recipe.consumed, path + {id}))
  }

  /** `Math.max(0, ...depths of the ingredients)`. */
  function MaxDepth(cat: Catalog, sel: Selections, ings: seq<Ingredient>, path: set<ItemId>): (d: Depth)
    decreases |cat.Keys - path|, 1, |ings|
    ensures d.Fin? ==> d.n <= |cat.Keys - path|
    ensures forall k :: 0 <= k < |ings| ==> DLe(DepthOf(cat, sel, ings[k].id, path), d)
    ensures d == Fin(0) || exists k :: 0 <= k < |ings| && d == DepthOf(cat, sel, ings[k].id, path)
  {
    if |ings| == 0 then Fin(0)
    else
      var head := DepthOf(cat, sel, ings[0].id, path);
      var rest := MaxDepth(cat, sel, ings[1..], path);
      assert forall k :: 1 <= k < |ings| ==> ings[k] == ings[1..][k - 1];
      var d := DMax(head, rest);
      assert forall k :: 0 <= k < |ings| ==> DLe(DepthOf(cat, sel, ings[k].id, path), d) by {
        forall k | 1 <= k < |ings| ensures DLe(DepthOf(cat, sel, ings[k].id, path), d) {
          DLeTrans(DepthOf(cat, sel, ings[k].id, path), rest, d);
        }
      }
      assert d == Fin(0) || exists k :: 0 <= k < |ings| && d == DepthOf(cat, sel, ings[k].id, path) by {
        if d != head && rest != Fin(0) {
          var k :| 0 <= k < |ings[1..]| && rest == DepthOf(cat, sel, ings[1..][k].id, path);
          assert rest == DepthOf(cat, sel, ings[k + 1].id, path);
        }
      }
      d
  }

  /** A crafted item of finite depth sits strictly above every ingredient of its recipe,
      each of which then has a finite depth too. */
  lemma IngredientsShallower(cat: Catalog, sel: Selections, id: ItemId, path: set<ItemId>, k: nat)
    requires Craftable(cat, sel, id) && DepthOf(cat, sel, id, path).Fin?
    requires k < |SelectedRecipe(cat[id], sel, id).value.consumed|
    ensures var ing := SelectedRecipe(cat[id], sel, id).value.consumed[k];
      var d := DepthOf(cat, sel, ing.id, path + {id});
      d.Fin? && d.n < DepthOf(cat, sel, id, path).n
  {
    var recipe := SelectedRecipe(cat[id], sel, id).value;
    assert id !in path;
    var m := MaxDepth(cat, sel, recipe.consumed, path + {id});
    assert DepthOf(cat, sel, id, path) == Succ(m);
    assert DLe(DepthOf(cat, sel, recipe.consumed[k].id, path + {id}), m);
  }

  /** The cases of `getCraftingDepth` that do not recurse: infinite on the path, 0 for an
      unknown or raw item, and 1 when the selected recipe is missing. */
  lemma DepthBase(cat: Catalog, sel: Selections, id: ItemId, path: set<ItemId>)
    ensures id in path ==> DepthOf(cat, sel, id, path) == Inf
    ensures id !in path && (id !in cat || |cat[id].recipes| == 0) ==> DepthOf(cat, sel, id, path) == Fin(0)
    ensures id !in path && id in cat && |cat[id].recipes| > 0 && !Craftable(cat, sel, id) ==>
      DepthOf(cat, sel, id, path) == Fin(1)
  {
  }

  /** The recursive case of `getCraftingDepth`: 1 when the recipe consumes nothing, and
      otherwise one more than the deepest ingredient, infinite exactly when some
      ingredient's depth is. */
  lemma DepthStep(cat: Catalog, sel: Selections, id: ItemId, path: set<ItemId>)
    requires id !in path && Craftable(cat, sel, id)
    ensures var ings := SelectedRecipe(cat[id], sel, id).value.consumed;
      var d := DepthOf(cat, sel, id, path);
      && (|ings| == 0 ==> d == Fin(1))
      && (d == Inf <==> exists k :: 0 <= k < |ings| && DepthOf(cat, sel, ings[k].id, path + {id}) == Inf)
      && (d.Fin? ==> d.n >= 1)
      && (d.Fin? ==> forall k :: 0 <= k < |ings| ==> DLe(DepthOf(cat, sel, ings[k].id, path + {id}), Fin(d.n - 1)))
      && (d.Fin? && d.n > 1 ==> exists k :: 0 <= k < |ings| && DepthOf(cat, sel, ings[k].id, path + {id}) == Fin(d.n - 1))
  {
    var ings := SelectedRecipe(cat[id], sel, id).value.consumed;
    var m := MaxDepth(cat, sel, ings, path + {id});
    var d := DepthOf(cat, sel, id, path);
    assert d == Succ(m);
    if m == Inf {
      var k :| 0 <= k < |ings| && m == DepthOf(cat, sel, ings[k].id, path + {id});
    } else {
      assert d == Fin(m.n + 1);
      assert d.n - 1 == m.n;
      assert Fin(d.n - 1) == m;
    }
  }

  /** The sort key: `getCraftingDepth(step.id)` from an empty path. */
  function Key(cat: Catalog, sel: Selections, s: Step): Depth {
    DepthOf(cat, sel, s.id, {})
  }

  function KeyOf(cat: Catalog, sel: Selections): Step -> Depth {
    s => Key(cat, sel, s)
  }

  /** The steps ascend by `key`. */
  ghost predicate SortedBy(key: Step -> Depth, steps: seq<Step>) {
    forall i, j :: 0 <= i < j < |steps| ==> DLe(key(steps[i]), key(steps[j]))
  }

  ghost predicate SortedByDepth(cat: Catalog, sel: Selections, steps: seq<Step>) {
    SortedBy(KeyOf(cat, sel), steps)
  }

  /** Inserts `x` before the first step whose key is not below it; placing the earlier
      element first among equal keys keeps the sort stable. */
  function Insert(key: Step -> Depth, x: Step, steps: seq<Step>): (r: seq<Step>)
    ensures multiset(r) == multiset(steps) + multiset{x}
  {
    if |steps| == 0 then [x]
    else if DLe(key(x), key(steps[0])) then [x] + steps
    else
      assert steps == [steps[0]] + steps[1..];
      [steps[0]] + Insert(key, x, steps[1..])
  }

  /** An insertion sort by `key`. */
  function SortBy(key: Step -> Depth, steps: seq<Step>): (r: seq<Step>)
    ensures multiset(r) == multiset(steps)
  {
    if |steps| == 0 then []
    else
      assert steps == [steps[0]] + steps[1..];
      Insert(key, steps[0], SortBy(key, steps[1..]))
  }

  /** `craftingSteps.sort((a, b) => depth(a) - depth(b))`: a permutation of the steps,
      ordered by depth from raw-adjacent items up to the requested ones. */
  function SortByDepth(cat: Catalog, sel: Selections, steps: seq<Step>): (r: seq<Step>)
    ensures multiset(r) == multiset(steps)
  {
    SortBy(KeyOf(cat, sel), steps)
  }

  lemma InMultiset(s: seq<Step>, t: seq<Step>, y: Step)
    requires multiset(s) == multiset(t) && y in s
    ensures y in t
  {
    assert y in multiset(s);
  }

  /** An element of `Insert(x, steps)` is `x` or sits at some index of `steps`. */
  lemma InsertFrom(key: Step -> Depth, x: Step, steps: seq<Step>, j: nat)
    requires j < |Insert(key, x, steps)|
    ensures var y := Insert(key, x, steps)[j];
      y == x || exists k :: 0 <= k < |steps| && steps[k] == y
  {
    var r := Insert(key, x, steps);
    assert r[j] in multiset(steps) + multiset{x};
    if r[j] != x {
      assert r[j] in steps;
    }
  }

  lemma {:induction false} InsertSorted(key: Step -> Depth, x: Step, steps: seq<Step>)
    requires SortedBy(key, steps)
    ensures SortedBy(key, Insert(key, x, steps))
  {
    var r := Insert(key, x, steps);
    if |steps| == 0 {
    } else if DLe(key(x), key(steps[0])) {
      assert r == [x] + steps;
      forall i, j | 0 <= i < j < |r| ensures DLe(key(r[i]), key(r[j])) {
        ConsAt(x, steps, j);
        ConsAt(x, steps, i);
        if i == 0 {
          DLeTrans(key(x), key(steps[0]), key(steps[j - 1]));
        }
      }
    } else {
      var tail := steps[1..];
      var rest := Insert(key, x, tail);
      assert r == [steps[0]] + rest;
      InsertSorted(key, x, tail);
      forall j | 0 <= j < |rest| ensures DLe(key(steps[0]), key(rest[j])) {
        InsertFrom(key, x, tail, j);
        if rest[j] != x {
          var k :| 0 <= k < |tail| && tail[k] == rest[j];
          assert steps[k + 1] == rest[j];
        }
      }
      forall i, j | 0 <= i < j < |r| ensures DLe(key(r[i]), key(r[j])) {
        ConsAt(steps[0], rest, j);
        ConsAt(steps[0], rest, i);
      }
    }
  }

  lemma {:induction false} InsertUnique(key: Step -> Depth, x: Step, steps: seq<Step>)
    requires UniqueIds(steps) && forall s :: s in steps ==> s.id != x.id
    ensures UniqueIds(Insert(key, x, steps))
  {
    var r := Insert(key, x, steps);
    if |steps| == 0 {
    } else if DLe(key(x), key(steps[0])) {
      assert r == [x] + steps;
      forall i, j | 0 <= i < j < |r| ensures r[i].id != r[j].id {
        ConsAt(x, steps, j);
        ConsAt(x, steps, i);
      }
    } else {
      var tail := steps[1..];
      var rest := Insert(key, x, tail);
      assert r == [steps[0]] + rest;
      forall s | s in tail ensures s.id != x.id {
        assert s in steps;
      }
      InsertUnique(key, x, tail);
      forall j | 0 <= j < |rest| ensures steps[0].id != rest[j].id {
        InsertFrom(key, x, tail, j);
        if rest[j] != x {
          var k :| 0 <= k < |tail| && tail[k] == rest[j];
          assert steps[k + 1] == rest[j];
        }
      }
      forall i, j | 0 <= i < j < |r| ensures r[i].id != r[j].id {
        ConsAt(steps[0], rest, j);
        ConsAt(steps[0], rest, i);
      }
    }
  }

  /** The sorted steps ascend by key, and keep one step per id. */
  lemma {:induction false} SortBySorted(key: Step -> Depth, steps: seq<Step>)
    ensures SortedBy(key, SortBy(key, steps))
    ensures UniqueIds(steps) ==> UniqueIds(SortBy(key, steps))
  {
    if |steps| > 0 {
      var rest := SortBy(key, steps[1..]);
      SortBySorted(key, steps[1..]);
      InsertSorted(key, steps[0], rest);
      if UniqueIds(steps) {
        forall s | s in rest ensures s.id != steps[0].id {
          InMultiset(rest, steps[1..], s);
        }
        InsertUnique(key, steps[0], rest);
      }
    }
  }

  /** The engine's sorted steps ascend by depth, Infinity last, and keep one step per id. */
  lemma SortByDepthSorted(cat: Catalog, sel: Selections, steps: seq<Step>)
    ensures SortedByDepth(cat, sel, SortByDepth(cat, sel, steps))
    ensures UniqueIds(steps) ==> UniqueIds(SortByDepth(cat, sel, steps))
    ensures forall i, j :: 0 <= i < j < |SortByDepth(cat, sel, steps)| ==>
      DLe(Key(cat, sel, SortByDepth(cat, sel, steps)[i]), Key(cat, sel, SortByDepth(cat, sel, steps)[j]))
  {
    SortBySorted(KeyOf(cat, sel), steps);
  }

}
