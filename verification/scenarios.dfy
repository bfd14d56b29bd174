/** Worked examples of the engine on small catalogs: a fixed yield, a variable yield,
    an inventory offset and a two-item cycle. */
module Scenarios {
  import opened Wrappers
  import opened Arith
  import opened Catalog
  import opened Outputs
  import opened Expansion
  import opened Steps
  import opened Depth
  import opened RawRanges
  import opened Calculation
  import opened Keys

  /** A key that starts with a letter is not an array index, so it enumerates after
      the indices, in the order it was added. */
  lemma NameKey(k: string)
    requires |k| > 0 && !IsDigit(k[0])
    ensures !IsIndexKey(k)
  {
  }

  /** X is made 3 at a time from 2 of the raw item Y. */
  const FixedRecipe := Recipe([Ingredient("Y", 2)], 3, [])
  const FixedCatalog: Catalog := map["X" := Item("X", [FixedRecipe]), "Y" := Item("Y", [])]
  const FixedStep := StepFor("X", 0, 10, FixedRecipe)

  /** 10 X need ceil(10 / 3) = 4 crafts, which make 12 X from 8 Y. */
  lemma FixedYieldStep()
    ensures FixedStep.craftsMin == 4 && FixedStep.craftsMax == 4
    ensures FixedStep.producedMin == 12 && FixedStep.producedMax == 12
    ensures FixedStep.ingredients == [IngredientNeed("Y", 8, 8)]
  {
    assert RecipeOutputs(FixedRecipe) == Yield(3, 3);
    assert CeilDiv(10, 3) == 4;
  }

  /** Expanding 10 X with an empty inventory asks for 10 X and then 8 Y. */
  lemma FixedYieldDemand()
    ensures Demand(FixedCatalog, map[], [("X", 10)], map[]) == State(map[], map[], map["X" := 10, "Y" := 8], ["X", "Y"])
  {
    var cat := FixedCatalog;
    var st0 := State(map[], map[], map[], []);
    assert RecipeOutputs(FixedRecipe) == Yield(3, 3);
    assert CeilDiv(10, 3) == 4;
    NameKey("X");
    NameKey("Y");
    var st1 := Record(st0, "X", 10);
    var st2 := Record(st1, "Y", 8);
    assert st1.order == ["X"] && st2.order == ["X", "Y"];
    assert Expand(cat, map[], "Y", 8, {"X"}, st1) == st2;
    assert ExpandAll(cat, map[], FixedRecipe.consumed, 4, {"X"}, st1) == st2;
    assert "X" in cat && |cat["X"].recipes| == 1;
    assert Draw(st0, "X", 10) == st0;
    assert SelectedRecipe(cat["X"], map[], "X") == Some(FixedRecipe);
    var none: set<ItemId> := {};
    assert none + {"X"} == {"X"};
    assert Expand(cat, map[], "X", 10, none, st0) == st2;
    assert ExpandEntry(cat, map[], ("X", 10), st0) == st2;
    assert ExpandList(cat, map[], [("X", 10)], st0) == st2;
  }

  /** The only step is the one for X: Y is raw. */
  lemma FixedYieldSteps()
    ensures Calculate(FixedCatalog, map[], [("X", 10)], map[]).steps == [FixedStep]
    ensures Calculate(FixedCatalog, map[], [("X", 10)], map[]).usage == map[]
  {
    FixedYieldDemand();
    FixedYieldBuilt();
  }

  /** The step builder walks X then Y and makes a step for X only. */
  lemma FixedYieldBuilt()
    ensures BuildSteps(FixedCatalog, map[], map["X" := 10, "Y" := 8], ["X", "Y"]) == [FixedStep]
  {
    var cat := FixedCatalog;
    var demand := map["X" := 10, "Y" := 8];
    assert BuildStep(cat, map[], "X", 10) == Some(FixedStep);
    assert BuildStep(cat, map[], "Y", 8).None?;
    assert BuildSteps(cat, map[], demand, ["Y"]) == [];
  }

  /** The raw range for 10 X is 8 Y to gather, whatever else the X step records. */
  lemma FixedYieldRaw()
    ensures var rr := RawRange(FixedCatalog, [FixedStep], [("X", 10)], map[]);
      "Y" in rr && rr["Y"].min == 8 && rr["Y"].max == 8 && "X" !in rr
  {
    FixedYieldStep();
    OneLineRaw(FixedStep);
  }

  lemma OneLineRaw(s: Step)
    requires s.ingredients == [IngredientNeed("Y", 8, 8)]
    ensures var rr := RawRange(FixedCatalog, [s], [("X", 10)], map[]);
      "Y" in rr && rr["Y"].min == 8 && rr["Y"].max == 8 && "X" !in rr
  {
    var rr := RawRange(FixedCatalog, [s], [("X", 10)], map[]);
    assert "Y" in rr by {
      RawRangeKeys(FixedCatalog, [s], [("X", 10)], map[], "Y");
      assert InLines([s][0].ingredients, "Y");
    }
    assert "X" !in rr by {
      RawRangeKeys(FixedCatalog, [s], [("X", 10)], map[], "X");
    }
    RawRangeSums(FixedCatalog, [s], [("X", 10)], map[], "Y");
    OneStepNeed(s, "Y");
    OneLineNeed(IngredientNeed("Y", 8, 8), "Y");
    assert ListQty([("X", 10)], "Y") == 0;
  }

  lemma OneStepNeed(s: Step, x: ItemId)
    ensures StepsNeed([s], x) == LinesNeed(s.ingredients, x)
  {
    assert [s][1..] == [];
  }

  lemma OneLineNeed(l: IngredientNeed, x: ItemId)
    ensures LinesNeed([l], x) == if l.id == x then Range(l.neededMin, l.neededMax) else Range(0, 0)
  {
    assert [l][1..] == [];
  }

  /** The whole calculation for 10 X: one step of 4 crafts and 8 Y to gather. */
  lemma FixedYield()
    ensures var p := Calculate(FixedCatalog, map[], [("X", 10)], map[]);
      && |p.steps| == 1 && p.steps[0].id == "X"
      && p.steps[0].craftsMin == 4 && p.steps[0].craftsMax == 4
      && p.steps[0].producedMin == 12 && p.steps[0].producedMax == 12
      && p.steps[0].ingredients == [IngredientNeed("Y", 8, 8)]
      && "Y" in p.rawRange && p.rawRange["Y"].min == 8 && p.rawRange["Y"].max == 8
      && "X" !in p.rawRange
  {
    FixedYieldStep();
    FixedYieldSteps();
    FixedYieldRaw();
  }

  /** A recipe whose outcomes are 1 or 4 per craft: 10 X take 3 to 10 crafts, make 3 to
      40 X, and consume 3 to 10 Y. */
  lemma VariableYield()
    ensures var s := StepFor("X", 0, 10, Recipe([Ingredient("Y", 1)], 0, [1, 4]));
      && s.craftsMin == 3 && s.craftsMax == 10
      && s.producedMin == 3 && s.producedMax == 40
      && s.ingredients == [IngredientNeed("Y", 3, 10)]
  {
    var r := Recipe([Ingredient("Y", 1)], 0, [1, 4]);
    assert SeqMin([1, 4]) == 1 && SeqMax([1, 4]) == 4;
    assert RecipeOutputs(r) == Yield(1, 4);
    assert CeilDiv(10, 4) == 3 && CeilDiv(10, 1) == 10;
  }

  /** 10 of a raw item with 4 in stock: 4 are drawn and 6 remain to gather. */
  lemma InventoryOffset()
    ensures var p := Calculate(map["X" := Item("X", [])], map[], [("X", 10)], map["X" := 4]);
      && p.usage == map["X" := 4] && p.steps == []
      && "X" in p.rawRange && p.rawRange["X"].min == 6 && p.rawRange["X"].max == 6
  {
    var cat := map["X" := Item("X", [])];
    var inv := map["X" := 4];
    var none: set<ItemId> := {};
    var st0 := State(inv, map[], map[], []);
    var st1 := Draw(st0, "X", 10);
    assert st1 == State(map["X" := 0], map["X" := 4], map[], []);
    NameKey("X");
    var st2 := Record(st1, "X", 6);
    assert st2.order == ["X"];
    assert Expand(cat, map[], "X", 10, none, st0) == st2;
    assert ExpandEntry(cat, map[], ("X", 10), st0) == st2;
    assert ExpandList(cat, map[], [("X", 10)], st0) == st2;
    assert Demand(cat, map[], [("X", 10)], inv) == st2;
    assert BuildStep(cat, map[], "X", 6).None?;
    assert BuildSteps(cat, map[], st2.demand, st2.order) == [];
    var p := Calculate(cat, map[], [("X", 10)], inv);
    assert p.steps == [];
    NoRecipePassthrough(cat, [], [("X", 10)], st2.usage, "X");
  }

  /** A consumes B and B consumes A. */
  const CycleA := Recipe([Ingredient("B", 1)], 1, [])
  const CycleB := Recipe([Ingredient("A", 1)], 1, [])
  const CycleCatalog: Catalog := map["A" := Item("A", [CycleA]), "B" := Item("B", [CycleB])]

  /** In the two-item cycle the expansion stops where the path closes, having asked for 5
      of each, and both depths are infinite. */
  lemma CycleSafety()
    ensures Demand(CycleCatalog, map[], [("A", 5)], map[]).demand == map["A" := 5, "B" := 5]
    ensures DepthOf(CycleCatalog, map[], "A", {}) == Inf
    ensures DepthOf(CycleCatalog, map[], "B", {}) == Inf
  {
    CycleDemand();
    CycleDepths();
  }

  lemma CycleDemand()
    ensures Demand(CycleCatalog, map[], [("A", 5)], map[]).demand == map["A" := 5, "B" := 5]
  {
    var cat := CycleCatalog;
    var none: set<ItemId> := {};
    assert none + {"A"} == {"A"};
    assert {"A"} + {"B"} == {"A", "B"};
    assert SelectedRecipe(cat["A"], map[], "A") == Some(CycleA);
    assert SelectedRecipe(cat["B"], map[], "B") == Some(CycleB);
    assert RecipeOutputs(CycleA).maxOut == 1 && RecipeOutputs(CycleB).maxOut == 1;
    assert CeilDiv(5, 1) == 5;
    NameKey("A");
    NameKey("B");
    var st0 := State(map[], map[], map[], []);
    var st1 := Record(st0, "A", 5);
    var st2 := Record(st1, "B", 5);
    assert st1.order == ["A"] && st2.order == ["A", "B"];
    assert Expand(cat, map[], "A", 5, {"A", "B"}, st2) == st2;
    assert Expand(cat, map[], "B", 5, {"A"}, st1) == st2;
    assert Expand(cat, map[], "A", 5, none, st0) == st2;
    assert ExpandEntry(cat, map[], ("A", 5), st0) == st2;
    assert ExpandList(cat, map[], [("A", 5)], st0) == st2;
    assert Demand(cat, map[], [("A", 5)], map[]) == st2;
    assert st2.demand == map["A" := 5, "B" := 5];
  }

  lemma CycleDepths()
    ensures DepthOf(CycleCatalog, map[], "A", {}) == Inf
    ensures DepthOf(CycleCatalog, map[], "B", {}) == Inf
  {
    var cat := CycleCatalog;
    var none: set<ItemId> := {};
    assert none + {"A"} == {"A"};
    assert {"A"} + {"B"} == {"A", "B"};
    assert {"B"} + {"A"} == {"A", "B"};
    assert none + {"B"} == {"B"};
    assert SelectedRecipe(cat["A"], map[], "A") == Some(CycleA);
    assert SelectedRecipe(cat["B"], map[], "B") == Some(CycleB);
    assert DepthOf(cat, map[], "A", {"A", "B"}) == Inf;
    assert MaxDepth(cat, map[], CycleA.consumed, {"A"}) == DMax(DepthOf(cat, map[], "B", {"A"}), Fin(0));
    assert DepthOf(cat, map[], "B", {"A"}) == Inf;
    assert DepthOf(cat, map[], "A", none) == Inf;
    assert DepthOf(cat, map[], "B", {"A", "B"}) == Inf;
    assert DepthOf(cat, map[], "A", {"B"}) == Inf;
    assert DepthOf(cat, map[], "B", none) == Inf;
  }
}
