/** The meal-plan state machine (src/context/mealPlanReducer.ts): a weekly
    plan holding at most one recipe per day, and the completion flags of
    shopping-list items, changed only through four actions. */
module Reducer {
  import opened Types

  /** `Record<DayOfWeek, Recipe | null>`. A plan built by the reducer holds
      all seven days; one restored from storage need not (see `Complete`). */
  type Plan = map<Day, Option<Recipe>>

  /** `Record<string, boolean>`: completion flag per shopping-item key. */
  type Flags = map<string, bool>

  datatype State = State(mealPlan: Plan, completed: Flags)

  datatype Action =
    | AddRecipe(day: Day, recipe: Recipe)
    | RemoveRecipe(day: Day)
    | ToggleItem(key: string)
    | ClearCompleted
  {
    /** Actions that change the plan (as opposed to the flags). */
    predicate IsPlanAction() {
      AddRecipe? || RemoveRecipe?
    }
  }

  /** `mealPlan[d]`, where a day missing from the object reads as null. */
  function PlanAt(p: Plan, d: Day): Option<Recipe> {
    if d in p then p[d] else None
  }

  /** `completed[k] ?? false` */
  function FlagAt(f: Flags, k: string): bool {
    if k in f then f[k] else false
  }

  /** Every day of the week is a key of the plan. */
  predicate Complete(p: Plan) {
    forall d: Day :: d in p
  }

  /** `defaultMealPlan`: all seven days, each without a recipe. */
  function DefaultMealPlan(): (p: Plan)
    ensures Complete(p)
    ensures forall d: Day :: p[d] == None
  {
    AllDaysInWeek();
    map d | d in Week :: None
  }

  /** `initialMealPlanState`: the default plan and no completion flags. */
  function InitialState(): (s: State)
    ensures Complete(s.mealPlan)
    ensures forall d: Day :: PlanAt(s.mealPlan, d) == None
    ensures forall k :: !FlagAt(s.completed, k)
    ensures |s.completed| == 0
  {
    State(DefaultMealPlan(), map[])
  }

  /** ADD_RECIPE: the day now holds the recipe (overwriting what it held);
      every other day and every flag is untouched. */
  function Add(s: State, d: Day, recipe: Recipe): (r: State)
    ensures d in r.mealPlan && PlanAt(r.mealPlan, d) == Some(recipe)
    ensures r.mealPlan - {d} == s.mealPlan - {d}
    ensures r.completed == s.completed
  {
    s.(mealPlan := s.mealPlan[d := Some(recipe)])
  }

  /** REMOVE_RECIPE: the day now holds null (as a present key); every other
      day and every flag is untouched. */
  function Remove(s: State, d: Day): (r: State)
    ensures d in r.mealPlan && PlanAt(r.mealPlan, d) == None
    ensures r.mealPlan - {d} == s.mealPlan - {d}
    ensures r.completed == s.completed
  {
    s.(mealPlan := s.mealPlan[d := None])
  }

  /** TOGGLE_ITEM: the key's flag becomes the negation of its previous value,
      an unset key counting as false; the key is present afterwards. Other
      keys and the plan are untouched. */
  function Toggle(s: State, k: string): (r: State)
    ensures k in r.completed && r.completed[k] == !FlagAt(s.completed, k)
    ensures r.completed - {k} == s.completed - {k}
    ensures r.mealPlan == s.mealPlan
  {
    s.(completed := s.completed[k := !FlagAt(s.completed, k)])
  }

  /** CLEAR_COMPLETED: exactly the keys flagged false survive, still false;
      every key flagged true is dropped. The plan is untouched. */
  function Clear(s: State): (r: State)
    ensures forall k :: k in r.completed <==> k in s.completed && !s.completed[k]
    ensures forall k :: k in r.completed ==> !r.completed[k]
    ensures r.mealPlan == s.mealPlan
  {
    s.(completed := map k | k in s.completed && !s.completed[k] :: false)
  }

  /** `mealPlanReducer`: plan actions never touch the flags and flag actions
      never touch the plan. */
  function Reduce(s: State, a: Action): (r: State)
    ensures a.IsPlanAction() ==> r.completed == s.completed
    ensures !a.IsPlanAction() ==> r.mealPlan == s.mealPlan
    ensures a.IsPlanAction() ==> r.mealPlan - {a.day} == s.mealPlan - {a.day}
  {
    match a
    case AddRecipe(d, recipe) => Add(s, d, recipe)
    case RemoveRecipe(d) => Remove(s, d)
    case ToggleItem(k) => Toggle(s, k)
    case ClearCompleted => Clear(s)
  }

  /** The state after dispatching `actions` in order. */
  function ReduceAll(s: State, actions: seq<Action>): State
    decreases |actions|
  {
    if |actions| == 0 then s else ReduceAll(Reduce(s, actions[0]), actions[1..])
  }

  /** A later ADD_RECIPE on the same day overwrites the earlier one. */
  lemma AddOverwrites(s: State, d: Day, first: Recipe, second: Recipe)
    ensures Add(Add(s, d, first), d, second) == Add(s, d, second)
  {
  }

  /** Removing after adding leaves the day empty again, whatever it held
      before the add. */
  lemma AddThenRemove(s: State, d: Day, recipe: Recipe)
    ensures Remove(Add(s, d, recipe), d) == Remove(s, d)
    ensures PlanAt(Remove(Add(s, d, recipe), d).mealPlan, d) == None
  {
  }

  /** REMOVE_RECIPE twice is REMOVE_RECIPE once. */
  lemma RemoveIdempotent(s: State, d: Day)
    ensures Remove(Remove(s, d), d) == Remove(s, d)
  {
  }

  /** TOGGLE_ITEM twice restores the flag as read with default false, and
      leaves the key present; nothing else changes. */
  lemma ToggleTwice(s: State, k: string)
    ensures FlagAt(Toggle(Toggle(s, k), k).completed, k) == FlagAt(s.completed, k)
    ensures Toggle(Toggle(s, k), k) == s.(completed := s.completed[k := FlagAt(s.completed, k)])
  {
  }

  /** TOGGLE_ITEM twice is the identity exactly when the key was already set. */
  lemma ToggleTwiceIdentity(s: State, k: string)
    ensures Toggle(Toggle(s, k), k) == s <==> k in s.completed
  {
    if k !in s.completed {
      assert k in Toggle(Toggle(s, k), k).completed;
    }
  }

  /** CLEAR_COMPLETED twice is CLEAR_COMPLETED once. */
  lemma ClearIdempotent(s: State)
    ensures Clear(Clear(s)) == Clear(s)
  {
  }

  /** Plan actions and flag actions commute: the two halves of the state are
      independent. */
  lemma PlanAndFlagActionsCommute(s: State, p: Action, f: Action)
    requires p.IsPlanAction() && !f.IsPlanAction()
    ensures Reduce(Reduce(s, p), f) == Reduce(Reduce(s, f), p)
  {
  }

  /** Every action keeps all seven days in the plan. */
  lemma ReducePreservesComplete(s: State, a: Action)
    requires Complete(s.mealPlan)
    ensures Complete(Reduce(s, a).mealPlan)
  {
  }

  /** Every state reached from a complete plan by dispatching actions has a
      complete plan; in particular every state reached from the initial one. */
  lemma {:induction false} ReduceAllPreservesComplete(s: State, actions: seq<Action>)
    requires Complete(s.mealPlan)
    ensures Complete(ReduceAll(s, actions).mealPlan)
    decreases |actions|
  {
    if |actions| > 0 {
      ReducePreservesComplete(s, actions[0]);
      ReduceAllPreservesComplete(Reduce(s, actions[0]), actions[1..]);
    }
  }

  /** A run of flag actions never changes the plan, and a run of plan
      actions never changes the flags. */
  lemma {:induction false} ReduceAllFrames(s: State, actions: seq<Action>)
    ensures (forall i :: 0 <= i < |actions| ==> !actions[i].IsPlanAction()) ==>
              ReduceAll(s, actions).mealPlan == s.mealPlan
    ensures (forall i :: 0 <= i < |actions| ==> actions[i].IsPlanAction()) ==>
              ReduceAll(s, actions).completed == s.completed
    decreases |actions|
  {
    if |actions| > 0 {
      ReduceAllFrames(Reduce(s, actions[0]), actions[1..]);
      assert forall i :: 0 <= i < |actions| - 1 ==> actions[1..][i] == actions[i + 1];
    }
  }
}
