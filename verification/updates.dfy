/** The state helpers that edit the craft list, the inventory and the recipe selections:
    `updateCraftQuantity`, `updateInventoryQuantity`, `addToCraftList`, `addToInventory`,
    the +/- buttons, and the merge of an imported list or a saved plan. */
module Updates {
  import opened Wrappers
  import opened Catalog
  import opened Expansion
  import opened Keys

  /** `parseInt(v, 10)`: an integer, or `None` for `NaN`. */
  type Parsed = Option<int>

  /** The update rules keep a zero or negative count out of a stored map. */
  predicate Positive(m: Quantities) {
    forall x :: x in m ==> m[x] > 0
  }

  // ---------------------------------------------------------------- the inventory

  /** `updateInventoryQuantity(id, v)`: `NaN` or a count <= 0 deletes the entry,
      anything else sets it. */
  function SetQuantity(m: Quantities, id: ItemId, v: Parsed): (r: Quantities)
    ensures id in r <==> v.Some? && v.value > 0
    ensures id in r ==> r[id] == v.value
    ensures forall x :: x != id ==> SameAt(m, r, x)
    ensures Positive(m) ==> Positive(r)
  {
    if v.None? || v.value <= 0 then m - {id} else m[id := v.value]
  }

  /** `addToInventory(id, q)`: an id the catalog does not know is refused. */
  function AddToInventory(cat: Catalog, inv: Quantities, id: ItemId, q: nat): (r: Quantities)
    ensures id !in cat ==> r == inv
    ensures id in cat ==> Get(r, id) == Get(inv, id) + q
    ensures forall x :: x != id ==> SameAt(inv, r, x)
  {
    if id !in cat then inv else inv[id := Get(inv, id) + q]
  }

  /** The increase/decrease buttons: `updateInventoryQuantity(id, current +/- 1)`. */
  function Nudge(inv: Quantities, id: ItemId, up: bool): Quantities {
    SetQuantity(inv, id, Some(Get(inv, id) + if up then 1 else -1))
  }

  /** Pressing "+" then "-" gives back the inventory the user started from. */
  lemma NudgeRoundTrip(inv: Quantities, id: ItemId)
    requires Positive(inv)
    ensures Nudge(Nudge(inv, id, true), id, false) == inv
  {
    var up := Nudge(inv, id, true);
    var back := Nudge(up, id, false);
    assert Get(up, id) == Get(inv, id) + 1;
    forall x ensures SameAt(back, inv, x) {
      if x == id {
        assert x in back <==> Get(inv, id) > 0;
      }
    }
  }

  /** Pressing "-" on a count of 1 removes the entry. */
  lemma NudgeDownRemoves(inv: Quantities, id: ItemId)
    requires Get(inv, id) <= 1
    ensures id !in Nudge(inv, id, false)
  {
  }

  // ---------------------------------------------------------------- the craft list

  /** A list that does not name `x` requests none of it. */
  lemma {:induction false} ListQtyAbsent(list: CraftList, x: ItemId)
    requires !InList(list, x)
    ensures ListQty(list, x) == 0
  {
    if |list| > 0 {
      InListCons(list, x);
      ListQtyAbsent(list[1..], x);
    }
  }

  /** The entries of `a + b`: what each part requests, added up. */
  lemma {:induction false} ListQtyConcat(a: CraftList, b: CraftList, x: ItemId)
    ensures ListQty(a + b, x) == ListQty(a, x) + ListQty(b, x)
    ensures InList(a + b, x) <==> InList(a, x) || InList(b, x)
  {
    if |a| == 0 {
      assert a + b == b;
    } else {
      assert (a + b)[1..] == a[1..] + b;
      ListQtyConcat(a[1..], b, x);
      InListCons(a + b, x);
      InListCons(a, x);
    }
  }

  /** `craftList[id] = n` for an id the list already has: the entry keeps its place. */
  function Overwrite(list: CraftList, id: ItemId, n: int): (r: CraftList)
    ensures |r| == |list| && forall i :: 0 <= i < |list| ==> r[i].0 == list[i].0
  {
    if |list| == 0 then []
    else if list[0].0 == id then [(id, n)] + list[1..]
    else [list[0]] + Overwrite(list[1..], id, n)
  }

  lemma {:induction false} OverwriteQty(list: CraftList, id: ItemId, n: int, x: ItemId)
    requires DistinctKeys(list) && InList(list, id)
    ensures ListQty(Overwrite(list, id, n), x) == if x == id then n else ListQty(list, x)
  {
    var r := Overwrite(list, id, n);
    InListCons(list, id);
    if list[0].0 == id {
      assert r[1..] == list[1..];
      if x == id {
        assert !InList(list[1..], id);
        ListQtyAbsent(list[1..], id);
      }
    } else {
      OverwriteQty(list[1..], id, n, x);
      assert r[1..] == Overwrite(list[1..], id, n);
    }
  }

  /** `craftList[id] = n`: an existing key keeps its place, a new key takes its place
      in enumeration order. */
  function SetEntry(list: CraftList, id: ItemId, n: int): (r: CraftList)
    ensures |r| == if InList(list, id) then |list| else |list| + 1
  {
    if InList(list, id) then Overwrite(list, id, n)
    else
      var p := KeyPos(ListKeys(list), id);
      list[..p] + [(id, n)] + list[p..]
  }

  /** The keys after `craftList[id] = n`: unchanged for a known id, the new id inserted
      where the object enumerates it otherwise. */
  lemma SetEntryKeys(list: CraftList, id: ItemId, n: int)
    ensures ListKeys(SetEntry(list, id, n))
      == if InList(list, id) then ListKeys(list) else InsertKey(ListKeys(list), id)
  {
    if !InList(list, id) {
      var ks := ListKeys(list);
      var p := KeyPos(ks, id);
      var entry := [(id, n)];
      ListKeysConcat(list[..p] + entry, list[p..]);
      ListKeysConcat(list[..p], entry);
      assert ListKeys(list[..p]) == ks[..p];
      assert ListKeys(list[p..]) == ks[p..];
      assert ListKeys(entry) == [id];
    }
  }

  lemma ListKeysConcat(a: CraftList, b: CraftList)
    ensures ListKeys(a + b) == ListKeys(a) + ListKeys(b)
  {
    assert forall i :: 0 <= i < |a| ==> (a + b)[i] == a[i];
    assert forall i :: |a| <= i < |a| + |b| ==> (a + b)[i] == b[i - |a|];
  }

  /** After `craftList[id] = n`, the list requests `n` of `id` and nothing else changes. */
  lemma SetEntryQty(list: CraftList, id: ItemId, n: int, x: ItemId)
    requires DistinctKeys(list)
    ensures ListQty(SetEntry(list, id, n), x) == if x == id then n else ListQty(list, x)
    ensures InList(SetEntry(list, id, n), x) <==> x == id || InList(list, x)
  {
    var r := SetEntry(list, id, n);
    if InList(list, id) {
      OverwriteQty(list, id, n, x);
      if InList(r, x) {
        var i :| 0 <= i < |r| && r[i].0 == x;
        assert list[i].0 == x;
      }
      if InList(list, x) {
        var i :| 0 <= i < |list| && list[i].0 == x;
        assert r[i].0 == x;
      }
    } else {
      var p := KeyPos(ListKeys(list), id);
      assert list == list[..p] + list[p..];
      ListQtyConcat(list[..p], list[p..], x);
      ListQtyConcat(list[..p] + [(id, n)], list[p..], x);
      ListQtyConcat(list[..p], [(id, n)], x);
      assert InList([(id, n)], x) <==> x == id by {
        if InList([(id, n)], x) {
          var i :| 0 <= i < 1 && [(id, n)][i].0 == x;
        }
      }
      if x == id {
        ListQtyAbsent(list, id);
      }
    }
  }

  /** Setting an entry keeps each id once. */
  lemma SetEntryDistinct(list: CraftList, id: ItemId, n: int)
    requires DistinctKeys(list)
    ensures DistinctKeys(SetEntry(list, id, n))
  {
    SetEntryKeys(list, id, n);
    var r := SetEntry(list, id, n);
    if !InList(list, id) {
      assert id !in ListKeys(list);
      assert Distinct(ListKeys(list));
      InsertKeyDistinct(ListKeys(list), id);
      assert Distinct(ListKeys(r));
    }
  }

  /** Setting an entry keeps the list in enumeration order. */
  lemma SetEntryOrdered(list: CraftList, id: ItemId, n: int)
    requires KeyOrdered(ListKeys(list))
    ensures KeyOrdered(ListKeys(SetEntry(list, id, n)))
  {
    SetEntryKeys(list, id, n);
    if !InList(list, id) {
      InsertKeyOrdered(ListKeys(list), id);
    }
  }

  /** `delete craftList[id]`. */
  function RemoveEntry(list: CraftList, id: ItemId): (r: CraftList)
    ensures |r| <= |list|
  {
    if |list| == 0 then []
    else if list[0].0 == id then RemoveEntry(list[1..], id)
    else [list[0]] + RemoveEntry(list[1..], id)
  }

  /** After `delete craftList[id]`, nothing of `id` is requested and nothing else changes. */
  lemma {:induction false} RemoveEntryQty(list: CraftList, id: ItemId, x: ItemId)
    ensures ListQty(RemoveEntry(list, id), x) == if x == id then 0 else ListQty(list, x)
    ensures InList(RemoveEntry(list, id), x) <==> x != id && InList(list, x)
  {
    if |list| > 0 {
      var r := RemoveEntry(list, id);
      RemoveEntryQty(list[1..], id, x);
      InListCons(list, x);
      if list[0].0 != id {
        assert r[1..] == RemoveEntry(list[1..], id);
        InListCons(r, x);
      }
    }
  }

  lemma {:induction false} RemoveEntryDistinct(list: CraftList, id: ItemId)
    requires DistinctKeys(list)
    ensures DistinctKeys(RemoveEntry(list, id))
  {
    var r := RemoveEntry(list, id);
    if |list| > 0 {
      RemoveEntryDistinct(list[1..], id);
      if list[0].0 != id {
        assert r[1..] == RemoveEntry(list[1..], id);
        forall j | 0 < j < |r| ensures r[0].0 != r[j].0 {
          RemoveEntryQty(list[1..], id, r[j].0);
          assert InList(r[1..], r[j].0) by {
            assert r[1..][j - 1] == r[j];
          }
          var k :| 0 <= k < |list[1..]| && list[1..][k].0 == r[j].0;
          assert list[k + 1].0 == r[j].0;
        }
      }
    }
  }

  /** `delete craftList[id]` takes `id` out of the keys and leaves the others in their
      order. */
  lemma {:induction false} RemoveEntryKeys(list: CraftList, id: ItemId)
    ensures ListKeys(RemoveEntry(list, id)) == Without(ListKeys(list), id)
  {
    if |list| > 0 {
      var ks := ListKeys(list);
      assert ListKeys(list[1..]) == ks[1..];
      RemoveEntryKeys(list[1..], id);
      if list[0].0 != id {
        var r := RemoveEntry(list, id);
        assert r == [list[0]] + RemoveEntry(list[1..], id);
        assert ListKeys(r) == [ks[0]] + ListKeys(RemoveEntry(list[1..], id));
      }
    }
  }

  /** Deleting from a join deletes from each part. */
  lemma {:induction false} RemoveEntryConcat(a: CraftList, b: CraftList, id: ItemId)
    ensures RemoveEntry(a + b, id) == RemoveEntry(a, id) + RemoveEntry(b, id)
  {
    if |a| == 0 {
      assert a + b == b;
    } else {
      assert (a + b)[1..] == a[1..] + b;
      RemoveEntryConcat(a[1..], b, id);
    }
  }

  /** Deleting an id the list does not name changes nothing. */
  lemma {:induction false} RemoveEntryAbsent(list: CraftList, id: ItemId)
    requires !InList(list, id)
    ensures RemoveEntry(list, id) == list
  {
    if |list| > 0 {
      InListCons(list, id);
      RemoveEntryAbsent(list[1..], id);
      assert list == [list[0]] + list[1..];
    }
  }

  /** Adding a new id and deleting it again gives the list back: the other entries keep
      their places and counts. */
  lemma SetEntryRemoveRoundTrip(list: CraftList, id: ItemId, n: int)
    requires !InList(list, id)
    ensures RemoveEntry(SetEntry(list, id, n), id) == list
  {
    var p := KeyPos(ListKeys(list), id);
    var front, back := list[..p], list[p..];
    assert list == front + back;
    ListQtyConcat(front, back, id);
    assert SetEntry(list, id, n) == front + [(id, n)] + back;
    RemoveSplice(front, back, id, n);
  }

  /** Deleting an id spliced between two lists that do not name it leaves their join. */
  lemma RemoveSplice(front: CraftList, back: CraftList, id: ItemId, n: int)
    requires !InList(front, id) && !InList(back, id)
    ensures RemoveEntry(front + [(id, n)] + back, id) == front + back
  {
    RemoveEntryConcat(front + [(id, n)], back, id);
    RemoveEntryConcat(front, [(id, n)], id);
    assert RemoveEntry([(id, n)], id) == [];
    RemoveEntryAbsent(front, id);
    RemoveEntryAbsent(back, id);
  }

  /** Deleting an entry keeps the list in enumeration order. */
  lemma {:induction false} RemoveEntryOrdered(list: CraftList, id: ItemId)
    requires KeyOrdered(ListKeys(list))
    ensures KeyOrdered(ListKeys(RemoveEntry(list, id)))
  {
    if |list| > 0 {
      var ks := ListKeys(list);
      assert ListKeys(list[1..]) == ks[1..];
      RemoveEntryOrdered(list[1..], id);
      if list[0].0 != id {
        var r := RemoveEntry(list, id);
        var t := RemoveEntry(list[1..], id);
        assert r == [list[0]] + t;
        var rs, ts := ListKeys(r), ListKeys(t);
        forall i, j | 0 <= i < j < |r| && IsIndexKey(rs[j])
          ensures IsIndexKey(rs[i]) && DigitsValue(rs[i]) <= DigitsValue(rs[j])
        {
          assert rs[j] == ts[j - 1];
          if i > 0 {
            assert rs[i] == ts[i - 1];
          } else {
            // the key in front comes from further back in the original list
            RemoveEntryQty(list[1..], id, rs[j]);
            assert InList(t, rs[j]) by { assert t[j - 1].0 == rs[j]; }
            var k :| 0 <= k < |list[1..]| && list[1..][k].0 == rs[j];
            assert ks[k + 1] == rs[j] && ks[0] == rs[0];
          }
        }
      }
    }
  }

  /** `updateCraftQuantity(id, v)`: the same rule as the inventory, on the craft list. */
  function UpdateCraftQuantity(list: CraftList, id: ItemId, v: Parsed): CraftList {
    if v.None? || v.value <= 0 then RemoveEntry(list, id) else SetEntry(list, id, v.value)
  }

  /** The updated list requests exactly the parsed positive count of `id`, or drops it,
      leaves every other request alone, and still names each id once. */
  lemma UpdateCraftQuantityQty(list: CraftList, id: ItemId, v: Parsed, x: ItemId)
    requires DistinctKeys(list)
    ensures var r := UpdateCraftQuantity(list, id, v);
      ListQty(r, x) == if x != id then ListQty(list, x) else if v.Some? && v.value > 0 then v.value else 0
    ensures InList(UpdateCraftQuantity(list, id, v), id) <==> v.Some? && v.value > 0
    ensures DistinctKeys(UpdateCraftQuantity(list, id, v))
    ensures KeyOrdered(ListKeys(list)) ==> KeyOrdered(ListKeys(UpdateCraftQuantity(list, id, v)))
  {
    if v.None? || v.value <= 0 {
      RemoveEntryQty(list, id, x);
      RemoveEntryQty(list, id, id);
      RemoveEntryDistinct(list, id);
      if KeyOrdered(ListKeys(list)) {
        RemoveEntryOrdered(list, id);
      }
    } else {
      SetEntryQty(list, id, v.value, x);
      SetEntryQty(list, id, v.value, id);
      SetEntryDistinct(list, id, v.value);
      if KeyOrdered(ListKeys(list)) {
        SetEntryOrdered(list, id, v.value);
      }
    }
  }

  /** `addToCraftList(id, q)`: an id the catalog does not know is refused. The count is
      added as given: `parseInt(input) || 1` on the item card passes a typed negative
      number through, and the sum is stored even when it is zero or below. */
  function AddToCraftList(cat: Catalog, list: CraftList, id: ItemId, q: int): CraftList {
    if id !in cat then list else AddEntry(list, id, q)
  }

  /** `craftList[id] = (craftList[id] || 0) + q`. */
  function AddEntry(list: CraftList, id: ItemId, q: int): CraftList {
    SetEntry(list, id, ListQty(list, id) + q)
  }

  lemma AddToCraftListQty(cat: Catalog, list: CraftList, id: ItemId, q: int, x: ItemId)
    requires DistinctKeys(list)
    ensures id !in cat ==> AddToCraftList(cat, list, id, q) == list
    ensures id in cat ==> ListQty(AddToCraftList(cat, list, id, q), x) == ListQty(list, x) + if x == id then q else 0
    ensures DistinctKeys(AddToCraftList(cat, list, id, q))
    ensures KeyOrdered(ListKeys(list)) ==> KeyOrdered(ListKeys(AddToCraftList(cat, list, id, q)))
  {
    if id in cat {
      AddEntryQty(list, id, q, x);
    }
  }

  /** The count of `id` grows by `q`, nothing else changes, and the keys stay distinct
      and in enumeration order. */
  lemma AddEntryQty(list: CraftList, id: ItemId, q: int, x: ItemId)
    requires DistinctKeys(list)
    ensures ListQty(AddEntry(list, id, q), x) == ListQty(list, x) + if x == id then q else 0
    ensures DistinctKeys(AddEntry(list, id, q))
    ensures KeyOrdered(ListKeys(list)) ==> KeyOrdered(ListKeys(AddEntry(list, id, q)))
  {
    var n := ListQty(list, id) + q;
    assert AddEntry(list, id, q) == SetEntry(list, id, n);
    SetEntryQty(list, id, n, x);
    SetEntryDistinct(list, id, n);
    if KeyOrdered(ListKeys(list)) {
      SetEntryOrdered(list, id, n);
    }
  }

  /** Adding "2" and then "1" lists "1" first, the order `Object.entries` gives them, and
      a negative count is stored as it is. */
  lemma AddToCraftListExamples(cat: Catalog)
    requires "1" in cat && "2" in cat
    ensures AddToCraftList(cat, AddToCraftList(cat, [], "2", 1), "1", 1) == [("1", 1), ("2", 1)]
    ensures AddToCraftList(cat, [("1", 2)], "1", -3) == [("1", -1)]
  {
    assert IsIndexKey("2") && DigitsValue("2") == 2;
    assert IsIndexKey("1") && DigitsValue("1") == 1;
    var one := AddToCraftList(cat, [], "2", 1);
    assert one == [("2", 1)];
    assert ListKeys(one) == ["2"];
    assert IndexPos(["2"], "1") == 0;
    assert !InList(one, "1");
    assert InList([("1", 2)], "1") by {
      assert [("1", 2)][0].0 == "1";
    }
    assert Overwrite([("1", 2)], "1", -1) == [("1", -1)];
  }

  // ---------------------------------------------------------------- merges

  /** Merging an imported list or a saved plan: `craftList[id] = (craftList[id] || 0) + q`
      for each incoming entry in turn. */
  function MergeLists(list: CraftList, incoming: CraftList): CraftList
    decreases |incoming|
  {
    if |incoming| == 0 then list
    else MergeLists(AddEntry(list, incoming[0].0, incoming[0].1), incoming[1..])
  }

  /** A merge adds the two requests id by id, and keeps each id once. */
  lemma {:induction false} MergeListsQty(list: CraftList, incoming: CraftList, x: ItemId)
    requires DistinctKeys(list)
    ensures ListQty(MergeLists(list, incoming), x) == ListQty(list, x) + ListQty(incoming, x)
    ensures DistinctKeys(MergeLists(list, incoming))
    ensures KeyOrdered(ListKeys(list)) ==> KeyOrdered(ListKeys(MergeLists(list, incoming)))
    decreases |incoming|
  {
    if |incoming| > 0 {
      var id := incoming[0].0;
      var next := AddEntry(list, id, incoming[0].1);
      assert ListQty(incoming, x) == (if id == x then incoming[0].1 else 0) + ListQty(incoming[1..], x);
      AddEntryQty(list, id, incoming[0].1, x);
      MergeListsQty(next, incoming[1..], x);
    }
  }

  /** `{ ...incoming, ...existing }`: every selection already made wins. */
  function MergeSelections(incoming: Selections, existing: Selections): (r: Selections)
    ensures r.Keys == incoming.Keys + existing.Keys
    ensures forall x :: x in existing ==> r[x] == existing[x]
    ensures forall x :: x in incoming && x !in existing ==> r[x] == incoming[x]
  {
    incoming + existing
  }

  /** A merge never changes the recipe the engine picks for an item that already had a
      selection. */
  lemma MergeKeepsChoice(incoming: Selections, existing: Selections, item: Item, id: ItemId)
    requires id in existing
    ensures SelectedRecipe(item, MergeSelections(incoming, existing), id) == SelectedRecipe(item, existing, id)
  {
  }
}
