/** The render-time view of a crafting step: what is still missing of each ingredient
    once the live inventory is counted, and whether the step is shown at all. */
module Render {
  import opened Arith
  import opened Catalog
  import opened Steps

  /** `{ ...ing, needMin, needMax }`. */
  datatype Shortfall = Shortfall(id: ItemId, needMin: nat, needMax: nat)

  /** `Math.max(0, Math.ceil(qty - have))`. */
  function Missing(qty: nat, have: nat): (r: nat)
    ensures r + have >= qty
    ensures r == 0 || r + have == qty
  {
    Max(0, qty - have)
  }

  /** `ingredientsComputed`: each ingredient line less what the inventory holds. */
  function Shortfalls(ings: seq<IngredientNeed>, inv: Quantities): (r: seq<Shortfall>)
    ensures |r| == |ings|
    ensures forall i :: 0 <= i < |ings| ==>
      && r[i].id == ings[i].id
      && r[i].needMin == Missing(ings[i].neededMin, Get(inv, ings[i].id))
      && r[i].needMax == Missing(ings[i].neededMax, Get(inv, ings[i].id))
  {
    seq(|ings|, i requires 0 <= i < |ings| =>
      Shortfall(ings[i].id, Missing(ings[i].neededMin, Get(inv, ings[i].id)), Missing(ings[i].neededMax, Get(inv, ings[i].id))))
  }

  /** The step is drawn unless every ingredient's `needMax` is 0. */
  predicate Visible(s: Step, inv: Quantities) {
    var r := Shortfalls(s.ingredients, inv);
    !(forall i :: 0 <= i < |r| ==> r[i].needMax == 0)
  }

  /** Subtracting the same stock from both bounds keeps them ordered. */
  lemma ShortfallOrdered(s: Step, inv: Quantities, i: nat)
    requires BoundsOrdered(s) && i < |s.ingredients|
    ensures var r := Shortfalls(s.ingredients, inv);
      r[i].needMin <= r[i].needMax
  {
    assert s.ingredients[i].neededMin <= s.ingredients[i].neededMax;
  }

  /** A step is shown exactly when the inventory falls short of some ingredient's upper
      bound; a step with no ingredients is therefore never shown. */
  lemma VisibleIff(s: Step, inv: Quantities)
    ensures Visible(s, inv) <==>
      exists i :: 0 <= i < |s.ingredients| && Get(inv, s.ingredients[i].id) < s.ingredients[i].neededMax
    ensures |s.ingredients| == 0 ==> !Visible(s, inv)
  {
    var r := Shortfalls(s.ingredients, inv);
    if Visible(s, inv) {
      var i :| 0 <= i < |r| && r[i].needMax != 0;
      assert Get(inv, s.ingredients[i].id) < s.ingredients[i].neededMax;
    }
    if exists i :: 0 <= i < |s.ingredients| && Get(inv, s.ingredients[i].id) < s.ingredients[i].neededMax {
      var i :| 0 <= i < |s.ingredients| && Get(inv, s.ingredients[i].id) < s.ingredients[i].neededMax;
      assert r[i].needMax != 0;
    }
  }
}
