# Meal planner: plan state machine and shopping-list derivation

A Dafny model of the core of a recipe meal planner. A user plans at most one
recipe per day of a seven-day week. Planned recipes are fetched from a recipe
catalog, and their ingredients are merged into a shopping list with one item
per key. Per-item completion flags are kept next to the plan. The model covers:

- `Reducer` (reducer.dfy): the plan state and the four actions ADD_RECIPE,
  REMOVE_RECIPE, TOGGLE_ITEM and CLEAR_COMPLETED.
- `ShoppingList` (shopping.dfy): the planned recipe ids in day order, and
  shopping-list generation. Generation fails as a whole on any failed fetch,
  skips recipes that were not found, keys each item as
  `lower(name) + "-" + lower(measure)`, and keeps the first item of each key.
- `Api` (api.dfy): mapping a catalog meal record to a recipe (20 numbered
  ingredient/measure slots, trimmed and filtered), the category post-filter of
  a search, and the "first meal or null" choice of a lookup.
- `Persistence` (persistence.dfy): restoring the state at start-up with
  field-by-field fallback to defaults, and the write-after-every-state effect,
  whose failure never changes the state.
- `Types` (types.dfy) and `Text` (text.dfy): the records, the days of the
  week, and ASCII models of `toLowerCase` and `trim`.

Behaviour of the code that the model keeps:

- Planned recipe ids are not deduplicated before fetching. The same recipe on
  two days is requested twice. Its items still appear once, because of the
  item deduplication (`ShoppingList.SameRecipeOnTwoDays`).
- A lookup that finds no recipe is skipped, not treated as a failure.
- The item key is one concatenated string. Two different (name, measure)
  pairs can therefore share a key (`ShoppingList.KeyCollision`).
- A restored plan is used as stored, even if some days are missing
  (`Persistence.RestoredPlanMayBeIncomplete`). A missing day reads as empty
  (`Reducer.PlanAt`). Every action keeps a complete plan complete
  (`Reducer.ReduceAllPreservesComplete`).

Inputs in place of I/O: each lookup reply (`Api.LookupReply`), the list of
replies that `Promise.all` collects (`seq<Result<Option<Recipe>>>`, one per
planned id, in id order), the storage read (`Persistence.StorageRead`), the
write outcome (`Persistence.WriteOutcome`), and `JSON.parse` /
`JSON.stringify` as function parameters.

## Model

| member | source | states |
|---|---|---|
| Reducer.DefaultMealPlan | src/context/mealPlanReducer.ts:14-22 | the default plan has all seven days as keys, each mapped to null |
| Reducer.InitialState | src/context/mealPlanReducer.ts:24-27 | the initial state has every day empty and no completion flag set |
| Reducer.Add | src/context/mealPlanReducer.ts:31-39 | ADD_RECIPE puts the recipe on that day and overwrites what was there; other days and all flags are unchanged |
| Reducer.Remove | src/context/mealPlanReducer.ts:40-48 | REMOVE_RECIPE sets the day to null (the key stays present); other days and all flags are unchanged |
| Reducer.Toggle | src/context/mealPlanReducer.ts:49-58 | TOGGLE_ITEM stores the negation of the previous flag (unset reads as false; keys naming `Object.prototype` members are not modelled, see Left out); the key is present afterwards; other keys and the plan are unchanged |
| Reducer.Clear | src/context/mealPlanReducer.ts:59-68 | CLEAR_COMPLETED keeps exactly the keys mapped to false and drops every key mapped to true; no key maps to true afterwards; the plan is unchanged |
| Reducer.Reduce | src/context/mealPlanReducer.ts:29-72 | plan actions never touch the flags; flag actions never touch the plan; a plan action changes no day but its own |
| Reducer.AddOverwrites | src/context/mealPlanReducer.ts:31-39 | a later ADD_RECIPE on the same day gives the same state as the later one alone |
| Reducer.AddThenRemove | src/context/mealPlanReducer.ts:31-48 | add then remove on a day leaves it empty, the same state as a remove alone |
| Reducer.RemoveIdempotent | src/context/mealPlanReducer.ts:40-48 | REMOVE_RECIPE twice equals once |
| Reducer.ToggleTwice | src/context/mealPlanReducer.ts:49-58 | TOGGLE_ITEM twice restores the flag read with default false, and leaves the key present as that value |
| Reducer.ToggleTwiceIdentity | src/context/mealPlanReducer.ts:49-58 | TOGGLE_ITEM twice returns the very same state if and only if the key was already set |
| Reducer.ClearIdempotent | src/context/mealPlanReducer.ts:59-68 | CLEAR_COMPLETED twice equals once |
| Reducer.PlanAndFlagActionsCommute | src/context/mealPlanReducer.ts:31-68 | a plan action and a flag action commute, since the two halves of the state are independent |
| Reducer.ReducePreservesComplete | src/context/mealPlanReducer.ts:29-72 | every action keeps all seven days in a complete plan |
| Reducer.ReduceAllPreservesComplete | src/context/mealPlanReducer.ts:29-72 | any run of actions from a complete plan, the default one included, keeps all seven days |
| Reducer.ReduceAllFrames | src/context/mealPlanReducer.ts:29-72 | a run of flag actions leaves the plan unchanged; a run of plan actions leaves the flags unchanged |
| ShoppingList.ItemKey | src/hooks/useMealPlan.ts:33 | the key is the lower-cased name, one hyphen, then the lower-cased measure |
| ShoppingList.ToItem | src/hooks/useMealPlan.ts:32-36 | an item keeps the ingredient's original name and measure and carries their key |
| ShoppingList.KeyIgnoresCase | src/hooks/useMealPlan.ts:33 | lower-casing the name and measure first does not change the key |
| ShoppingList.KeyCollision | src/hooks/useMealPlan.ts:33 | ("a-b", "c") and ("a", "b-c") get the same key |
| ShoppingList.SaltKeys | src/hooks/useMealPlan.ts:33 | "Salt"/"1 tsp" and "SALT"/"1 TSP" share a key; "Salt"/"2 tsp" has a different one |
| ShoppingList.PlannedDays | src/hooks/useMealPlan.ts:17-23 | the days holding a recipe: each such day once, Monday to Sunday |
| ShoppingList.PlannedRecipeIds | src/hooks/useMealPlan.ts:17-23 | one id per non-empty day, in Monday-to-Sunday order, repeats kept; at most 7; empty exactly when no day holds a recipe |
| ShoppingList.PlannedIdsByDay | src/hooks/useMealPlan.ts:17-23 | the planned ids are Monday's id (if any), then Tuesday's, and so on to Sunday's |
| ShoppingList.PromiseAll | src/hooks/useMealPlan.ts:28 | all replies' values if every fetch succeeded, otherwise a failure carrying the error of a failed fetch |
| ShoppingList.Present | src/hooks/useMealPlan.ts:29-30 | null results are dropped; exactly the found recipes remain |
| ShoppingList.IngredientItems | src/hooks/useMealPlan.ts:32-36 | one item per ingredient, in ingredient order |
| ShoppingList.Items | src/hooks/useMealPlan.ts:29-37 | every flattened item is keyed by its own name and measure |
| ShoppingList.ItemsAppend | src/hooks/useMealPlan.ts:31-37 | flattening works recipe by recipe: the items of a concatenation are the concatenated items |
| ShoppingList.ItemsMembership | src/hooks/useMealPlan.ts:29-37 | an item is flattened exactly when it is an item of one of the found recipes |
| ShoppingList.DedupKeys | src/hooks/useMealPlan.ts:39-46 | keys in the deduplicated list are pairwise distinct; it has the same set of keys as the input; every kept item is an input item |
| ShoppingList.DedupSnoc | src/hooks/useMealPlan.ts:40-44 | one more item is appended exactly when its key has not been seen, otherwise the list so far is unchanged |
| ShoppingList.FirstPositions | src/hooks/useMealPlan.ts:39-46 | the first-occurrence positions of the keys, in increasing order |
| ShoppingList.DedupKeepsFirstOccurrences | src/hooks/useMealPlan.ts:39-46 | for each key the kept item is its first occurrence, and items come in the order of those first occurrences |
| ShoppingList.DedupOfDistinct | src/hooks/useMealPlan.ts:39-46 | a list whose keys are already distinct is kept unchanged |
| ShoppingList.DedupIdempotent | src/hooks/useMealPlan.ts:39-46 | deduplicating the output again returns it unchanged |
| ShoppingList.DedupAppendCongruence | src/hooks/useMealPlan.ts:39-46 | how later items are treated depends only on the deduplicated list so far |
| ShoppingList.DedupAbsorbsSeenKeys | src/hooks/useMealPlan.ts:39-46 | appending items whose keys were all seen before changes nothing |
| ShoppingList.RepeatedRecipeContributesOnce | src/hooks/useMealPlan.ts:29-46 | a recipe that comes back a second time adds no item |
| ShoppingList.DedupWithSeenMap | src/hooks/useMealPlan.ts:39-46 | the loop over a `Map` that is never overwritten, read back in insertion order, computes the deduplicated list |
| ShoppingList.GenerateShoppingList | src/hooks/useMealPlan.ts:25-47 | no planned recipe gives the empty list whatever the replies; success exactly when every fetch succeeded, and a failure carries a failed fetch's error; on success, distinct keys with the same key set as the found recipes' items, each being its key's first occurrence, in first-occurrence order |
| ShoppingList.GenerateOnSuccess | src/hooks/useMealPlan.ts:25-47 | with a recipe planned and every fetch successful, the list is exactly the deduplicated items of the found recipes |
| ShoppingList.SharedSaltScenario | src/hooks/useMealPlan.ts:17-46 | Chicken+Salt on Monday and Salt+Pepper on Wednesday give Chicken, Salt, Pepper |
| ShoppingList.SameRecipeOnTwoDays | src/hooks/useMealPlan.ts:17-46 | the same recipe on two days is requested twice but gives the list of one day |
| Api.Slot | src/utils/api.ts:42-43 | slot i is the i-th numbered field; a field the record lacks reads as null |
| Api.SlotIngredient | src/utils/api.ts:44-45 | a contributing slot gives its trimmed name, which is non-empty and trim-stable, and its trimmed measure, where null becomes "" |
| Api.SetFrom | src/utils/api.ts:41-46 | the loop from slot i to the last slot pushes exactly the flagged slots, each once, in increasing order |
| Api.UsedSlots | src/utils/api.ts:41-44 | the slots pushed by the loop: in increasing order, at most 20, exactly those in 1..20 whose name is non-null and not blank |
| Api.MapMealToRecipe | src/utils/api.ts:39-58 | id, name, category, area, instructions and thumbnail are copied; the ingredients are those of the contributing slots, at most 20, in slot order, with non-empty trimmed names |
| Api.NoSlotsNoIngredients | src/utils/api.ts:41-47 | a record with no ingredient field set gives a recipe without ingredients |
| Api.OfCategory | src/utils/api.ts:87 | the filter keeps exactly the recipes of that category, each as often as in the input |
| Api.CategoryPostFilter | src/utils/api.ts:86-88 | with a non-empty category every returned recipe has that category, and every input recipe of it is returned; with no category the list passes unchanged |
| Api.OfCategoryIdempotent | src/utils/api.ts:86-88 | filtering again by the same category changes nothing |
| Api.FirstMealOrNull | src/utils/api.ts:96-98 | null exactly when `meals` is null or empty, otherwise the mapping of the first meal |
| Api.FetchRecipeById | src/utils/api.ts:93-99 | transport, status and body errors reject (a bad status with "Failed to load recipe details"); a body gives its first meal's recipe or null |
| Api.FetchedRecipeKeepsId | src/utils/api.ts:96-98 | a found recipe is the mapping of the first meal and carries its id |
| Text.Trim | src/utils/api.ts:44-45 | a trimmed string neither starts nor ends with whitespace |
| Text.TrimCuts | src/utils/api.ts:44-45 | a trimmed string is a slice of the input with only whitespace cut off around it |
| Text.TrimEmptyIffBlank | src/utils/api.ts:44 | the trim is empty exactly when the string is all whitespace |
| Text.TrimIdempotent | src/utils/api.ts:45 | trimming twice equals trimming once |
| Text.Lower | src/hooks/useMealPlan.ts:33 | lower-casing maps each character separately and keeps the length |
| Text.LowerIdempotent | src/hooks/useMealPlan.ts:33 | lower-casing twice equals once |
| Persistence.GetInitialState | src/context/MealPlanContext.tsx:11-25 | no window, a failed read, an absent or empty string, a parse error, or a parsed value that is not an object all give the initial state; otherwise each field comes from the parsed object when present and falls back to its own default when not |
| Persistence.RestoreRoundTrip | src/context/MealPlanContext.tsx:16-21 | a stored string that parses back to a state restores that state, both fields unchanged |
| Persistence.RestoredPlanMayBeIncomplete | src/context/MealPlanContext.tsx:19 | a stored plan lacking days is restored as it is, so the restored plan need not hold all seven days |
| Persistence.Persist | src/context/MealPlanContext.tsx:32-38 | a successful write stores the serialised state; a failed write is ignored; the state is never changed |
| Persistence.Dispatch | src/context/MealPlanContext.tsx:30-38 | the state after a dispatch is the reducer's, whatever the write does |
| Persistence.WriteFailureDoesNotAlterState | src/context/MealPlanContext.tsx:32-37 | a failed write and a successful write leave the same in-memory state |
| Persistence.ReloadAfterDispatch | src/context/MealPlanContext.tsx:11-38 | after a successful write, restoring with a parser that reads back what was written gives exactly the in-memory state |

## Left out

- Network calls (`fetch`, `res.ok`, `res.json`) and `fetchCategories`, which only maps a reply: their results are inputs.
- The query branch and category branch of `searchRecipes` (src/utils/api.ts:63-84): they are request plumbing around `MapMealToRecipe`, and only the category post-filter is modelled.
- `Promise.all` concurrency: modelled as a sequential all-or-nothing fold. Which error a rejected `Promise.all` reports depends on timing; the model reports the first failure in list order.
- `localStorage`, the `window` check, `JSON.parse` and `JSON.stringify`: the storage read, the write outcome and the two JSON functions are inputs.
- A parsed `mealPlan` or `shoppingListCompleted` field whose JSON value is of the wrong type (say a number): the field types cannot hold such values.
- Key order of the plan object: `Object.values` follows insertion order. The model reads days Monday to Sunday, which is that order for every plan built from the default plan. A restored plan with extra keys or a different key order is not modelled. In particular, adding a recipe on a day missing from a restored plan appends that key last in the source (a stored `{Wed: r2}` followed by ADD_RECIPE on Monday lists `r2` before `r1`), while the model still lists the days in week order.
- Reducer.Toggle / Reducer.Clear: flag keys that name members inherited from `Object.prototype` (such as `constructor` or `__proto__`) are not modelled; on those, the source's plain object reads an inherited value instead of `undefined`, or calls the `__proto__` setter. The flags object is modelled as a plain map. The program never sends such a key: the shopping-list panel (src/components/ShoppingListPanel.tsx:63) toggles only item keys, and every item key contains a hyphen (`ShoppingList.ItemKey`), which no `Object.prototype` member name does.
- The reducer's `default` branch for unknown action types: the action type has only the four actions.
- Text.Lower: only ASCII letters are lower-cased; the full Unicode case mapping of `toLowerCase` is not modelled.
- Text.Trim: only space, tab, line feed, carriage return, vertical tab, form feed, no-break space and byte-order mark count as whitespace; other Unicode space characters are kept.
- React rendering, context, `useReducer`/`useMemo`/`useEffect` wiring, the recipe search and details hooks, and all presentation components.
