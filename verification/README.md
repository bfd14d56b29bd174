# Crafting-requirements engine

A Dafny model of the crafting planner in `main.js`. Its input is:
- a catalog of items and their alternative recipes;
- a craft list of requested quantities;
- an inventory;
- the user's recipe selections.

`calculateCraftingRequirements` turns these into three results:
- `inventoryUsage`: what is drawn from the inventory;
- `craftingSteps`: one step per item to craft, with min/max craft counts, produced quantities and per-ingredient needs, sorted by crafting depth;
- `rawRange`: per raw material, the [min, max] still to gather.

The model follows the code's structure, one module per part:

- `Keys`: the order in which a JavaScript object enumerates its keys.
- `Outputs`: `getRecipeOutputs`, the per-craft yield of a fixed or variable recipe.
- `Expansion`: the nested `expand`. It is a recursive function that threads a state through the graph:
  - the temporary inventory;
  - `inventoryUsage`;
  - `toCraftAggregated`;
  - its key order.

  Termination is shown by the number of catalog items not yet on the ancestor path.
- `Steps`: the step builder.
- `Depth`: `getCraftingDepth`, with `Infinity` as a constructor of its own. Also the sort of the steps by depth, modelled as a stable insertion sort.
- `RawRanges`: the three passes of the raw-material aggregator. They are related to order-independent reference sums.
- `Calculation`: the composition of the four parts above.
- `Updates`: the craft-list and inventory update rules, the +/- buttons, and the merge of imported lists and saved plans.
- `Travelers`: the traveler level clamp.
- `Names`: `getGenericName`.
- `Render`: the render-time shortfall of a step and whether the step is shown.
- `Scenarios`: worked examples on small catalogs.

Modelling choices:

- Inventory counts, usage and demand are natural numbers. Every count that reaches a division is positive, so `Math.ceil(a / b)` is exact integer ceiling division (`Arith.CeilDiv`).
- Craft-list counts are integers. `addToCraftList` adds whatever count it is given, and the item card passes `parseInt(input) || 1`, so a typed negative number can leave a stored count of zero or below. `expand` does nothing for such an entry: `min(qty, have)` is not positive, so nothing is drawn, and `targetQtyMin <= 0` returns at once. The direct pass of the raw-range aggregator adds the count as it is, so a negative count lowers a raw range before the floor at 0.
- JavaScript objects iterated with `Object.entries` become sequences in the object's enumeration order. Keys that are array indices ("0", "7", "12", ...) come first in ascending numeric order (`Keys.KeyOrdered`), and every other key follows in the order it was added. A new key never moves the existing ones relative to each other (`Keys.InsertKeyWithout`), and a deleted key leaves the rest in their order (`Updates.RemoveEntryKeys`):
  - the craft list is a sequence of `(id, count)` pairs, and `Updates.SetEntry` puts a new id where the object would enumerate it;
  - the key order of `toCraftAggregated` is a sequence of ids that `Expansion.Record` extends the same way, and the step builder walks it in that order.
- A recipe selection is an `int`. An index at or past the number of recipes falls back to 0. A negative index resolves no recipe: the item is skipped for demand and for steps.
- `output_quantity` is an `int` in which 0 stands for absent or falsy, so it defaults to 1. `possibilities` is the sequence of its keys that parse as integers.
- Browser input, storage and the network are not modelled. The inventory, the craft list, the selections and the catalog are explicit parameters, and every operation is a pure function. So the live inventory is never changed by a calculation, and calling the engine twice on the same inputs gives the same result.

Behaviour of the code that the model keeps exactly:

- Depth: `getCraftingDepth` returns 1 for an item whose selected recipe is missing or has no ingredient list. It returns 0 only for unknown or recipe-less items (main.js:955-959).
- Recipe selection: only an index at or past the end falls back to recipe 0. A negative index resolves no recipe, so the item is skipped (main.js:856-859, main.js:884-886).
- Yields: `getRecipeOutputs` floors `minOut` at 0 only. The step builder clamps both yields to at least 1 (main.js:888-889); `expand` clamps only the max (main.js:863).
- Raw range of a recipe-less item on the craft list: its requested count plus whatever the steps consume of it, less the inventory used, floored at 0 (`RawRanges.RawRangeSums`). `RawRanges.NoRecipePassthrough` is the special case of that sum in which no step names the item.

## Model

| member | source | states |
|---|---|---|
| Outputs.RecipeOutputs | main.js:964-973 | A recipe with integer possibility keys yields at least its smallest key floored at 0 and at most its largest key raised to 1, and both ends are attained by some key. A fixed recipe yields `output_quantity`, or 1 when that is falsy. The min never exceeds the max. |
| Outputs.SeqMin | main.js:966-967 | `Math.min` over the parsed keys: a member of the list that is no larger than any entry. |
| Outputs.SeqMax | main.js:966-968 | `Math.max` over the parsed keys: a member of the list that is no smaller than any entry. |
| Keys.IndexPos | main.js:851 | The position of a new array index: every key before it is an index of smaller value, and the key at it is not an index below it. |
| Keys.InsertKey | main.js:851 | Adding a key adds exactly that key, and a key that is not an array index goes after every existing key. |
| Keys.Without | main.js:999 | Deleting a key leaves exactly the other keys and never lengthens the sequence. |
| Keys.WithoutAbsent | main.js:999 | Proof helper: deleting a key that is absent changes nothing. |
| Keys.WithoutConcat | main.js:999 | Proof helper: deleting a key from a join deletes it from each part. |
| Keys.InsertKeyWithout | main.js:851 | Adding a new key and deleting it again gives the keys back, so the existing keys keep their relative order. |
| Keys.InsertKeyOrdered | main.js:851 | Adding a key keeps the keys in enumeration order: indices first and ascending, then the rest. |
| Keys.InsertKeyDistinct | main.js:851 | Adding a new key keeps the keys distinct. |
| Keys.IndicesAscend | main.js:882 | "2" added before "1" is enumerated after it. |
| Keys.IndicesByValue | main.js:882 | Ids first demanded in the order "1", "3", "2" are enumerated "1", "2", "3", so the step builder walks them by value. |
| Keys.IndexAfterIndex | main.js:882 | A larger index added later goes after a smaller one. |
| Keys.IndexBetweenIndices | main.js:882 | An index lands between the indices below and above it. |
| Keys.SecondPlace | main.js:882 | Proof helper: "2" goes after "1" and before "3". |
| Keys.IndicesBeforeNames | main.js:882 | An index is enumerated before a name added earlier, and a name after every index. |
| Keys.IndexAmongIndices | main.js:882 | A new index lands among the indices by value, ahead of the names. |
| Arith.CeilDiv | main.js:891-893 | `ceil(a / b)` is the fewest batches of size b that cover a: k batches cover a, and k - 1 batches do not. |
| Arith.CeilDivLeast | main.js:890-893 | Any batch count that covers the quantity is at least the ceiling. |
| Arith.CeilDivAntitone | main.js:890-893 | A larger yield per craft never needs more crafts, which is why craftsMin <= craftsMax. |
| Catalog.SelectedRecipe | main.js:855-859 | A recipe resolves exactly when the item has recipes and the selection is absent or non-negative. The resolved recipe is the selected one when it is in range, and the first one when the selection is absent or past the end. |
| Catalog.ShrinkUnvisited | main.js:831-833 | Putting an unvisited catalog item on the path strictly shrinks the set of catalog items off the path. This is the measure that makes `expand` and `getCraftingDepth` terminate on any catalog, cycles included. |
| Expansion.Expand | main.js:831-836 | An id already on the ancestor path, or missing from the catalog, returns without touching the temporary inventory, the usage or the demand. |
| Expansion.ExpandAll | main.js:870-873 | A recipe with no ingredient entries propagates nothing. |
| Expansion.ExpandShallow | main.js:838-853 | Proof helper: an item that the temporary inventory covers, or that has no usable recipe, is drawn from greedily. The remainder becomes demand only when the item is raw, and nothing below it is expanded. |
| Expansion.ExpandCraftedUnfold | main.js:855-873 | Proof helper: a craftable item with demand left after the draw records that remainder. It then expands each ingredient of the selected recipe for `ceil(rest / max(1, maxOut))` crafts, with itself added to the path. |
| Expansion.ExpandConserves | main.js:838-845 | One expansion only moves stock from the temporary inventory to `inventoryUsage`: per id their sum is unchanged and the temporary count never rises. Demand only grows and names only catalog items. |
| Expansion.ExpandCraftedConserves | main.js:838-873 | The conservation of inventory plus usage, and the growth of demand, hold through the crafted branch of an expansion. |
| Expansion.ExpandAllConserves | main.js:869-873 | The same conservation holds over the loop across a recipe's ingredients. |
| Expansion.ExpandListConserves | main.js:876-879 | The same conservation holds across the whole craft list with one shared temporary inventory, entries with a count of zero or below included. |
| Expansion.DrawConserves | main.js:839-845 | The greedy draw moves `min(target, have)` from the temporary inventory to the usage and leaves the demand alone. |
| Expansion.RecordGrows | main.js:851 | Recording demand for a catalog item leaves the inventory alone and only grows demand. |
| Expansion.RecordTracked | main.js:851 | Recording demand keeps the key order listing exactly the demanded ids, each once, in the order `Object.entries` enumerates them. |
| Expansion.ExpandTracked | main.js:851-867 | The recorded key order lists every id that has demand exactly once, in the enumeration order of `toCraftAggregated`. |
| Expansion.ExpandAllTracked | main.js:869-873 | The key order stays exact across a recipe's ingredients. |
| Expansion.ExpandListTracked | main.js:876-879 | The key order stays exact across the craft list. |
| Expansion.ExpandSparesPath | main.js:831-873 | Every id on the ancestor path handed to an expansion is left untouched in inventory, usage and demand. So a cycle back to an ancestor changes nothing, and each branch sees only its own ancestors. |
| Expansion.ExpandAllSparesPath | main.js:869-873 | Ingredient expansions, each with its own copy of the path, leave every ancestor untouched. |
| Expansion.DrawRecordSpare | main.js:838-867 | Drawing and recording for one id leave every other id untouched. |
| Expansion.ExpandCraftedSparesSelf | main.js:867-873 | Once a crafted item has recorded its remainder, expanding its ingredients leaves its own inventory, usage and demand untouched, because it is on their path. |
| Expansion.ExpandHead | main.js:838-867 | For an unvisited catalog item, usage grows by `min(target, have)` and the temporary count drops by it. The remainder is added to demand when the item is raw or has a resolvable recipe, and nothing is added otherwise. |
| Expansion.ExpandAllRequests | main.js:869-873 | Every ingredient off the path that takes demand is asked for `crafts * quantity`, covered from the inventory or recorded as demand. |
| Expansion.ExpandRequestsIngredients | main.js:861-873 | For a crafted item with demand left after the draw, each ingredient off the path that takes demand is asked for `ceil(rest / max(1, maxOut)) * quantity`. |
| Expansion.Demand | main.js:826-879 | Over a private copy of the inventory: no id has more drawn than the inventory held, the copy plus the usage equals the inventory (so the copy never goes negative), demand names only catalog items, and the key order lists each demanded id once, in enumeration order. |
| Expansion.InListCons | main.js:877 | Proof helper: an id is in a non-empty craft list exactly when it heads the list or is in its tail. |
| Steps.StepFor | main.js:887-915 | The step's bounds are ordered, and its yields are the recipe's outputs clamped to at least 1. craftsMin is the fewest crafts that cover the quantity at the max yield, and craftsMax the fewest at the min yield, both yields clamped to at least 1. The produced bounds are crafts times yield, and the max is at least the quantity to get. There is one ingredient line per consumed item, in order, each needing quantity times craftsMin and times craftsMax. |
| Steps.Craft | main.js:887-904 | For yields already clamped to at least 1: craftsMin is the fewest crafts that cover the quantity at the max yield and craftsMax the fewest at the min yield. The produced bounds are crafts times yield and are ordered. There is one ingredient line per consumed item, scaled by both counts. |
| Steps.CraftBounds | main.js:890-895 | Crafting at the max yield needs no more crafts than at the min yield, produces no more at the min yield than the other count does at the max yield, and the max produced covers the quantity. |
| Steps.BuildStep | main.js:882-886 | A step exists exactly when the item is in the catalog with a resolvable recipe. Its index is the selection, or 0 when the selection is absent or past the end, and it is built from the recipe the expansion used. |
| Steps.IngredientLines | main.js:896-904 | One line per consumed item, in order, scaled by both craft counts, with min <= max. |
| Steps.BuildSteps | main.js:882-916 | Every step belongs to an aggregated id and is the one built from that id's aggregated demand and selected recipe. |
| Steps.BuildStepsCover | main.js:882-916 | Each aggregated id has a step exactly when it is craftable, so raw items never do. |
| Steps.BuildStepsUnique | main.js:882-916 | Distinct aggregated ids give distinct step ids. |
| Steps.SwitchRecipe | main.js:884-904 | Selecting recipe k of an item gives a step with index k whose ingredient lines name recipe k's consumed items, in order. |
| Depth.DepthOf | main.js:951-962 | A finite depth is at most the number of catalog items off the path. |
| Depth.MaxDepth | main.js:960 | `Math.max(0, ...depths)`: at least every ingredient's depth, and either 0 or one of them. |
| Depth.DMax | main.js:960 | The larger of two depths, with Infinity above every number. |
| Depth.DepthBase | main.js:951-959 | Proof helper: depth is Infinity on the path and 0 for an unknown or recipe-less item. It is 1 when the item has recipes but the selected one does not resolve. |
| Depth.DepthStep | main.js:958-961 | For a craftable item off the path, depth is 1 when the recipe consumes nothing. Otherwise it is one more than the deepest ingredient, attained by some ingredient, and Infinity exactly when some ingredient's depth is. |
| Depth.DLeTrans | main.js:919 | The depth order, with Infinity above every number, is transitive. |
| Depth.IngredientsShallower | main.js:959-961 | A crafted item of finite depth lies strictly deeper than every ingredient of its selected recipe. |
| Depth.Insert | main.js:919 | Inserting a step adds exactly that step to the multiset of steps. |
| Depth.SortBy | main.js:919 | The insertion sort by any key returns a permutation of the steps. |
| Depth.SortByDepth | main.js:919 | The sort by crafting depth returns a permutation of the steps. |
| Depth.InsertSorted | main.js:919 | Inserting into a list ordered by a key keeps it ordered by that key. |
| Depth.InsertUnique | main.js:919 | Inserting a step with a new id keeps ids unique. |
| Depth.SortBySorted | main.js:919 | The insertion sort by any key leaves the steps ascending by that key, and keeps one step per id. |
| Depth.SortByDepthSorted | main.js:919 | The sorted steps ascend by depth, Infinity last, and keep one step per id. |
| Depth.InMultiset | main.js:919 | A step in one of two permutations is in the other. |
| RawRanges.InLinesCons | main.js:925 | Proof helper: an id is named by ingredient lines exactly when it heads them or is named by the rest. |
| RawRanges.InStepsCons | main.js:924 | Proof helper: an id is named by steps exactly when the first step's lines or a later step names it. |
| RawRanges.AddLinesKeys | main.js:925-931 | The walk over one step's lines creates an entry for exactly the raw items they name, keeping earlier entries. |
| RawRanges.AddLinesSums | main.js:925-931 | For a raw item, the walk adds exactly the summed min and max needs of the lines. |
| RawRanges.AddStepsKeys | main.js:924-932 | The walk over all steps creates an entry for exactly the raw items some step consumes. |
| RawRanges.AddStepsSums | main.js:924-932 | For a raw item, the walk adds the needs summed over all steps. |
| RawRanges.AddDirectKeys | main.js:934-940 | The craft-list pass creates an entry for exactly the raw items the list requests. |
| RawRanges.AddDirectSums | main.js:934-940 | For a raw item, the craft-list pass adds its requested quantity to both bounds. |
| RawRanges.PassesSum | main.js:922-940 | After both additive passes a raw item holds its summed step need plus its direct request. |
| RawRanges.SubtractUsageAt | main.js:942-946 | Each entry loses the inventory usage on both bounds, floored at 0. |
| RawRanges.RawRangeKeys | main.js:922-940 | `rawRange` has an entry exactly for the recipe-less catalog items that some step consumes or the craft list requests. Crafted and unknown items never appear, and an entry exists even when its amount is 0. |
| RawRanges.RawRangeRaw | main.js:926-936 | Only recipe-less catalog items get a raw range. |
| RawRanges.RawRangeSums | main.js:922-946 | Each bound is `max(0, summed step need + direct request - usage)`, for min and max separately and whatever order the steps are in. |
| RawRanges.LinesNeedAbsent | main.js:925-931 | Lines that never name an id need none of it. |
| RawRanges.StepsNeedAbsent | main.js:924-932 | Steps that never name an id need none of it. |
| RawRanges.LinesNeedOrdered | main.js:929-930 | Over lines with ordered bounds, the summed need satisfies 0 <= min <= max. |
| RawRanges.StepsNeedOrdered | main.js:924-932 | Over steps with ordered bounds, the summed need satisfies 0 <= min <= max. |
| RawRanges.RawRangeOrdered | main.js:942-946 | Over steps with ordered bounds, every raw range satisfies 0 <= min <= max. |
| RawRanges.NoRecipePassthrough | main.js:933-946 | A recipe-less item that is requested directly and consumed by no step gets min = max = requested less the inventory used, floored at 0. |
| Calculation.Calculate | main.js:818-949 | For the whole calculation: usage never exceeds the inventory, and every step has ordered bounds and a craftable id. Step ids are unique and the steps ascend by depth. Raw ranges name only recipe-less catalog items, with 0 <= min <= max. |
| Calculation.CalculateSteps | main.js:882-919 | A demanded id has a step in the sorted result exactly when it is craftable. Each step is the one built from its id's aggregated demand and selected recipe. |
| Updates.SetQuantity | main.js:1010-1013 | NaN or a count <= 0 deletes the entry and any other count is stored. Other ids are unchanged, and a map of positive counts stays positive. |
| Updates.AddToInventory | main.js:1004-1009 | An id unknown to the catalog is refused and nothing changes. Otherwise the id's count rises by q and other ids are unchanged. |
| Updates.NudgeRoundTrip | main.js:978-986 | Pressing "+" then "-" gives back the inventory the user started from. |
| Updates.NudgeDownRemoves | main.js:983-985 | Pressing "-" on a count of at most 1 removes the entry. |
| Updates.ListQtyAbsent | main.js:997-1000 | A craft list that does not name an id requests none of it. |
| Updates.SetEntry | main.js:1000 | Setting a known id keeps the length, and setting a new id adds exactly one element. |
| Updates.SetEntryKeys | main.js:993 | After `craftList[id] = n` the keys are unchanged for a known id. A new id is inserted where the object enumerates it: among the array indices by value, or after every key otherwise. |
| Updates.SetEntryOrdered | main.js:993 | Setting an entry keeps the craft list in enumeration order. |
| Updates.Overwrite | main.js:1000 | Overwriting a known id keeps every key in its place. |
| Updates.OverwriteQty | main.js:1000 | Overwriting a known id requests the new count of it and leaves every other request unchanged. |
| Updates.ListQtyConcat | main.js:877 | Proof helper: the requests of two joined lists add up, and an id is in the join exactly when it is in either part. |
| Updates.SetEntryQty | main.js:1000 | After `craftList[id] = n` the list requests n of id and every other request is unchanged. |
| Updates.SetEntryDistinct | main.js:1000 | Setting an entry keeps each id once. |
| Updates.RemoveEntry | main.js:999 | Removing an entry never lengthens the list. |
| Updates.RemoveEntryKeys | main.js:999 | After `delete craftList[id]` the keys are the old keys with id taken out, the others in their order. |
| Updates.RemoveEntryConcat | main.js:999 | Proof helper: deleting from a join deletes from each part. |
| Updates.RemoveEntryAbsent | main.js:999 | Deleting an id the list does not name changes nothing. |
| Updates.RemoveSplice | main.js:999 | Proof helper: deleting an id spliced between two lists that do not name it leaves their join. |
| Updates.SetEntryRemoveRoundTrip | main.js:993-999 | Adding a new id and then deleting it gives the list back, every other entry in its place with its count. |
| Updates.RemoveEntryQty | main.js:999 | After `delete craftList[id]` nothing of id is requested and every other request is unchanged. |
| Updates.RemoveEntryDistinct | main.js:999 | Removing an entry keeps each id once. |
| Updates.RemoveEntryOrdered | main.js:999 | Removing an entry keeps the craft list in enumeration order. |
| Updates.UpdateCraftQuantityQty | main.js:997-1000 | The updated list requests exactly the parsed positive count, or drops the id for NaN or a count <= 0. Other requests are unchanged, ids stay distinct and the enumeration order is kept. |
| Updates.AddToCraftListQty | main.js:991-996 | An unknown id is refused. Otherwise the request for id changes by q, zero or negative q included, other requests are unchanged, ids stay distinct and the enumeration order is kept. |
| Updates.AddEntryQty | main.js:993 | `craftList[id] = (craftList[id] \|\| 0) + q` changes the request for id by q and no other request, keeps ids distinct and keeps the enumeration order. |
| Updates.AddToCraftListExamples | main.js:993 | Adding "2" and then "1" lists "1" first, and adding -3 to a count of 2 stores -1. |
| Updates.MergeListsQty | main.js:1268-1271 | Merging an imported list adds the two requests id by id, keeps each id once and keeps the enumeration order. |
| Updates.MergeSelections | main.js:1491-1496 | The merged selections cover both key sets. An existing selection wins, and an incoming one fills in only where none existed. |
| Updates.MergeKeepsChoice | main.js:1273 | A merge never changes the recipe the engine resolves for an item that already had a selection. |
| Travelers.GetLevel | main.js:414-418 | The level read is always in [1, 100]. It is the stored value when that is in range, 100 when the stored value is above 100, and 1 when nothing parseable is stored or the value is below 1. |
| Travelers.Clamp | main.js:422 | `parseInt(lvl) \|\| 1` clamped to [1, 100]: a value in range is kept, one above 100 becomes 100, and none, 0 or a value below 1 becomes 1. |
| Travelers.SaveLevel | main.js:421-426 | The save stores and returns the same level, the clamped value, which lies in [1, 100]. |
| Travelers.SaveThenGet | main.js:414-426 | Reading back after a save gives the level the save returned, and the save clamps exactly as a read of the raw value would. |
| Travelers.SaveSparesOthers | main.js:421-426 | A save leaves every other traveler's level as it was. |
| Names.IndexOf | main.js:38 | `indexOf` returns the first position where the needle occurs, or none when it occurs nowhere. |
| Names.IndexOfFirst | main.js:38 | Conversely, a position where the needle occurs with no earlier occurrence is what `indexOf` returns. |
| Names.FirstTier | main.js:36-43 | The tier word chosen is the first in list order whose "word " occurs in the name, and no earlier word occurs. |
| Names.Strip | main.js:32-45 | The generic name is never longer than the name. |
| Names.StripCut | main.js:36-44 | The generic name is the name with exactly one "tier " cut out, at its first occurrence, and putting it back gives the name again. No earlier tier word of the list occurs anywhere. With no tier word the name is returned unchanged. |
| Names.NoTierFixed | main.js:43-44 | A name in which no tier word occurs is its own generic name. |
| Names.GenericNameListOrder | main.js:24-43 | Tier words are tried in list order, not by position in the name: "Fine Rough Cloth" becomes "Fine Cloth". |
| Render.Missing | main.js:640-641 | What is still missing plus what is held covers the need, and is either 0 or exactly the difference. |
| Render.Shortfalls | main.js:636-643 | One shortfall per ingredient line, in order, with each bound reduced by the live inventory and floored at 0. |
| Render.ShortfallOrdered | main.js:636-643 | Reducing both bounds by the same stock keeps needMin <= needMax. |
| Render.VisibleIff | main.js:645-646 | A step is shown exactly when the inventory falls short of some ingredient's max need, so a step with no ingredients is never shown. |
| Scenarios.FixedYieldStep | main.js:887-904 | Output 3 from 2 Y: 10 X take 4 crafts, make 12 and need 8 Y, min and max alike. |
| Scenarios.FixedYieldDemand | main.js:831-879 | Expanding 10 X with an empty inventory records demand 10 for X, then 8 for Y. |
| Scenarios.FixedYieldSteps | main.js:882-919 | The only step is X's, and nothing is drawn from the inventory. |
| Scenarios.FixedYieldBuilt | main.js:882-916 | From demand 10 X and 8 Y, in that key order, the step builder makes only X's step: Y is raw. |
| Scenarios.FixedYieldRaw | main.js:922-946 | The raw range of Y is 8 to 8, and X has no raw range. |
| Scenarios.FixedYield | main.js:818-949 | End to end: one step of 4 crafts producing 12 X, and 8 Y to gather. |
| Scenarios.VariableYield | main.js:964-973 | Possibilities {1, 4}: 10 X take 3 to 10 crafts, make 3 to 40 and need 3 to 10 Y. |
| Scenarios.InventoryOffset | main.js:838-946 | 10 of a raw X with 4 held: 4 are drawn, there are no steps, and 6 X remain to gather. |
| Scenarios.CycleSafety | main.js:831-962 | With A and B consuming each other, expanding 5 A stops where the path closes, with demand 5 for each, and both depths are Infinity. |
| Scenarios.CycleDemand | main.js:831-879 | In the A-B cycle, expanding 5 A records demand 5 for A and 5 for B, and stops. |
| Scenarios.CycleDepths | main.js:951-962 | In the A-B cycle, both depths are Infinity. |

## Left out

- Rendering, event wiring, modals, pagination and theming are not modelled. They only present the results.
- Loading the catalog and traveler data over the network is not modelled. The catalog is a parameter.
- Persistence to local storage, file export/import and share links are not modelled. All state is passed in and returned.
- Filtering and sorting items with `localeCompare` is not modelled, because it depends on the locale.
- Outputs.RecipeOutputs: a non-empty `possibilities` object whose keys all fail `parseInt` is not modelled. In that case the code takes `Math.min()` of nothing, which is `Infinity`. The model's possibility list holds only integer keys, and an empty list means a fixed yield.
- Depth.SortByDepth: a stable insertion sort that treats two infinite depths as equal. This matches the code: the comparator's NaN for two Infinity depths counts as 0, and `Array.prototype.sort` is stable. The contracts state the ordering by depth and the permutation; that steps of equal depth keep their relative order is not stated.
- Calculation.Calculate: the exact raw-range values are not restated for the composed plan. They are stated over any step list by RawRanges.RawRangeSums and RawRanges.NoRecipePassthrough, which the plan's raw ranges are built with.
- Updates.NudgeRoundTrip: requires every stored count to be positive. `updateInventoryQuantity` keeps counts positive, but `addToInventory` with a negative count, or an imported inventory, can store zero or less, and from such an entry "+" then "-" deletes it.
- Updates.MergeLists: the `q \|\| 0` of an import applies to non-numeric quantities, which a list of integers cannot hold. Replacing the whole list and selections in the "replace" mode of an import is a plain copy and is not modelled.
- Updates.AddToInventory: q is a natural number, because the inventory holds natural numbers throughout the model. The item card can pass a typed negative number, which would leave a negative inventory count; `expand` treats such a count like 0, but that case is not modelled.
- Expansion.Expand: ingredient ids are taken to be the same strings as the catalog keys. The visited check at main.js:832 uses a JavaScript `Set`, which tells the string "7" from the number 7. The top-level ids come from `Object.entries` and are always strings. If the data gave ingredient ids as numbers, a cycle through a requested item would be followed one level further before the check stops it. With two items consuming each other under numeric ids, and 5 of the first requested, the demand for the first would then be 10, not the 5 that Scenarios.CycleDemand states. Acyclic catalogs are not affected.
- Depth.DepthOf: under the same assumption on ingredient ids, the path check at main.js:952 could go one level further in a cycle with numeric ids. The depth is still Infinity.
- Names.Strip: the `_genericNameCache` memo is left out. It does not change the result.
- Render.Shortfalls: the fallback to a legacy `quantityNeeded` field is left out, because the step builder always sets both bounds.
- Travelers.GetLevel: `parseInt` of the stored string is modelled as its result, an integer or none. Parsing text is not modelled.
- `Math.ceil` of non-integer quantities is not modelled. Every quantity is an integer.
- Calculation.Calculate: the craft list is walked in the order of the sequence it is given. The update rules keep that sequence in enumeration order (`Updates.SetEntryOrdered`, `Updates.RemoveEntryOrdered`), and `Calculate` does not re-check it.
