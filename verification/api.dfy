/** The pure parts of the recipe-catalog client (src/utils/api.ts): turning
    a catalog meal record into a `Recipe`, the category post-filter of a
    search, and the choice of the first meal of a lookup reply. The HTTP
    requests themselves are inputs. */
module Api {
  import opened Types
  import opened Text

  /** A catalog meal record (`MealApi`). Ingredient slot `i` (1-based) is
      `strIngredient{i}` and measure slot `i` is `strMeasure{i}`; a slot past
      the end of its sequence is a field the record does not carry, which
      reads like null. */
  datatype Meal = Meal(
    idMeal: string,
    strMeal: string,
    strCategory: string,
    strArea: string,
    strInstructions: string,
    strMealThumb: string,
    ingredientSlots: seq<Option<string>>,
    measureSlots: seq<Option<string>>)

  /** The number of numbered ingredient/measure slots the mapping reads. */
  const SlotCount: nat := 20

  /** Slot `i` (1-based) of a numbered field family. */
  function Slot(slots: seq<Option<string>>, i: nat): (v: Option<string>)
    ensures 1 <= i <= |slots| ==> v == slots[i - 1]
    ensures !(1 <= i <= |slots|) ==> v == None
  {
    if 1 <= i <= |slots| then slots[i - 1] else None
  }

  /** `name && name.trim()`: slot `i` names an ingredient when its value is
      present and not blank (so its trim is non-empty, see `TrimEmptyIffBlank`). */
  predicate Contributes(meal: Meal, i: nat) {
    Slot(meal.ingredientSlots, i).Some? && !IsBlank(Slot(meal.ingredientSlots, i).value)
  }

  /** The ingredient slot `i` yields: the trimmed name and the trimmed
      measure, a missing measure read as the empty string. */
  function SlotIngredient(meal: Meal, i: nat): (ing: Ingredient)
    requires Contributes(meal, i)
    ensures ing.name == Trim(Slot(meal.ingredientSlots, i).value)
    ensures ing.measure == Trim(Slot(meal.measureSlots, i).GetOr(""))
    ensures ing.name != "" && Trim(ing.name) == ing.name
    ensures Slot(meal.measureSlots, i).None? ==> ing.measure == ""
  {
    var name := Trim(Slot(meal.ingredientSlots, i).value);
    TrimEmptyIffBlank(Slot(meal.ingredientSlots, i).value);
    TrimIdempotent(Slot(meal.ingredientSlots, i).value);
    assert Trim("") == "";
    Ingredient(name, Trim(Slot(meal.measureSlots, i).GetOr("")))
  }

  /** Which of the slots 1..20 contribute: entry `i - 1` is slot `i`. */
  function Contributing(meal: Meal): (flags: seq<bool>)
    ensures |flags| == SlotCount
    ensures forall k :: 0 <= k < SlotCount ==> flags[k] == Contributes(meal, k + 1)
  {
    seq(SlotCount, k requires 0 <= k < SlotCount => Contributes(meal, k + 1))
  }

  /** The 1-based positions from `i` on whose flag is set, in increasing
      order: the iterations of the `for` loop that push an ingredient. */
  function SetFrom(flags: seq<bool>, i: nat): (slots: seq<nat>)
    requires 1 <= i <= |flags| + 1
    ensures |slots| <= |flags| + 1 - i
    ensures forall a, b :: 0 <= a < b < |slots| ==> slots[a] < slots[b]
    ensures forall k :: 0 <= k < |slots| ==> i <= slots[k] <= |flags| && flags[slots[k] - 1]
    ensures forall n :: i <= n <= |flags| && flags[n - 1] ==> n in slots
    decreases |flags| + 1 - i
  {
    if i > |flags| then []
    else
      var rest := SetFrom(flags, i + 1);
      if flags[i - 1] then
        var slots := [i] + rest;
        assert forall k :: 0 < k < |slots| ==> slots[k] == rest[k - 1];
        slots
      else rest
  }

  /** The slots that contribute an ingredient, in increasing order: exactly
      the slots 1..20 whose ingredient name is present and not blank. */
  function UsedSlots(meal: Meal): (slots: seq<nat>)
    ensures |slots| <= SlotCount
    ensures forall a, b :: 0 <= a < b < |slots| ==> slots[a] < slots[b]
    ensures forall n :: n in slots <==> 1 <= n <= SlotCount && Contributes(meal, n)
  {
    var flags := Contributing(meal);
    var slots := SetFrom(flags, 1);
    assert forall n :: n in slots ==> 1 <= n <= SlotCount && flags[n - 1];
    slots
  }

  /** `mapMealToRecipe`: the record's identifying and descriptive fields are
      copied as they are; the ingredients are those of the contributing
      slots, at most 20, in slot order, each with a non-blank, already
      trimmed name. */
  function MapMealToRecipe(meal: Meal): (r: Recipe)
    ensures r.id == meal.idMeal && r.name == meal.strMeal
    ensures r.category == meal.strCategory && r.area == meal.strArea
    ensures r.instructions == meal.strInstructions && r.thumbnail == meal.strMealThumb
    ensures |r.ingredients| <= SlotCount
    ensures |r.ingredients| == |UsedSlots(meal)|
    ensures forall k :: 0 <= k < |r.ingredients| ==>
              Contributes(meal, UsedSlots(meal)[k]) &&
              r.ingredients[k] == SlotIngredient(meal, UsedSlots(meal)[k])
    ensures forall k :: 0 <= k < |r.ingredients| ==>
              r.ingredients[k].name != "" && Trim(r.ingredients[k].name) == r.ingredients[k].name
  {
    var slots := UsedSlots(meal);
    assert forall k :: 0 <= k < |slots| ==> slots[k] in slots;
    var ingredients := seq(|slots|, k requires 0 <= k < |slots| => SlotIngredient(meal, slots[k]));
    Recipe(meal.idMeal, meal.strMeal, meal.strCategory, meal.strArea, meal.strInstructions, meal.strMealThumb,
           ingredients)
  }

  /** A record with no ingredient slot filled in maps to a recipe without
      ingredients. */
  lemma {:induction false} NoSlotsNoIngredients(meal: Meal)
    requires forall i :: 1 <= i <= SlotCount ==> Slot(meal.ingredientSlots, i).None?
    ensures MapMealToRecipe(meal).ingredients == []
  {
    var slots := UsedSlots(meal);
    if |slots| > 0 {
      assert slots[0] in slots;
    }
  }

  //// Category post-filter of searchRecipes

  /** `recipes.filter(r => r.category === category)`: the recipes of that
      category, in their order, each as often as in the input. */
  function OfCategory(recipes: seq<Recipe>, category: string): (r: seq<Recipe>)
    ensures |r| <= |recipes|
    ensures forall x :: x in r <==> x in recipes && x.category == category
    ensures forall x :: multiset(r)[x] == if x.category == category then multiset(recipes)[x] else 0
  {
    if |recipes| == 0 then []
    else
      assert recipes == [recipes[0]] + recipes[1..];
      var rest := OfCategory(recipes[1..], category);
      if recipes[0].category == category then [recipes[0]] + rest else rest
  }

  /** The last step of `searchRecipes`: when a (non-empty) category is given
      only recipes of that category are returned; otherwise the recipes pass
      unchanged. */
  function CategoryPostFilter(recipes: seq<Recipe>, category: Option<string>): (r: seq<Recipe>)
    ensures category.Some? && category.value != "" ==>
              forall x :: x in r <==> x in recipes && x.category == category.value
    ensures category.None? || category.value == "" ==> r == recipes
  {
    match category
    case Some(c) => if c != "" then OfCategory(recipes, c) else recipes
    case None => recipes
  }

  /** Filtering by the same category again changes nothing. */
  lemma {:induction false} OfCategoryIdempotent(recipes: seq<Recipe>, category: string)
    ensures OfCategory(OfCategory(recipes, category), category) == OfCategory(recipes, category)
    decreases |recipes|
  {
    if |recipes| > 0 {
      OfCategoryIdempotent(recipes[1..], category);
      var rest := OfCategory(recipes[1..], category);
      if recipes[0].category == category {
        assert ([recipes[0]] + rest)[1..] == rest;
      }
    }
  }

  //// fetchRecipeById

  /** What a lookup request can come back with. */
  datatype LookupReply =
    | NetworkError(message: string)   // `fetch` itself rejected
    | NotOk                           // `res.ok` is false
    | BadBody(message: string)        // `res.json()` rejected
    | Body(meals: Option<seq<Meal>>)  // the `meals` field, possibly null

  /** The message thrown for a non-OK lookup response. */
  const LookupFailed: string := "Failed to load recipe details"

  /** `data.meals?.[0]`, mapped: the first meal's recipe, or null when
      `meals` is null or empty. */
  function FirstMealOrNull(meals: Option<seq<Meal>>): (r: Option<Recipe>)
    ensures r.None? <==> meals.None? || |meals.value| == 0
    ensures r.Some? ==> r.value == MapMealToRecipe(meals.value[0])
  {
    match meals
    case Some(ms) => if |ms| > 0 then Some(MapMealToRecipe(ms[0])) else None
    case None => None
  }

  /** `fetchRecipeById`: transport, status and body errors reject; a body
      yields its first meal's recipe or null. */
  function FetchRecipeById(reply: LookupReply): (r: Result<Option<Recipe>>)
    ensures r.Failure? <==> !reply.Body?
    ensures reply.NotOk? ==> r == Failure(LookupFailed)
    ensures reply.NetworkError? || reply.BadBody? ==> r == Failure(reply.message)
    ensures reply.Body? ==> r == Success(FirstMealOrNull(reply.meals))
  {
    match reply
    case NetworkError(m) => Failure(m)
    case NotOk => Failure(LookupFailed)
    case BadBody(m) => Failure(m)
    case Body(meals) => Success(FirstMealOrNull(meals))
  }

  /** A found recipe carries the id of the meal it was made from. */
  lemma FetchedRecipeKeepsId(reply: LookupReply)
    requires reply.Body? && reply.meals.Some? && |reply.meals.value| > 0
    ensures FetchRecipeById(reply) == Success(Some(MapMealToRecipe(reply.meals.value[0])))
    ensures FetchRecipeById(reply).value.value.id == reply.meals.value[0].idMeal
  {
  }
}
