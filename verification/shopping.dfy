/** Shopping-list derivation (src/hooks/useMealPlan.ts): the ids of the
    planned recipes in day order, and `generateShoppingList`, which fetches
    each of them, flattens the ingredients of the recipes that were found
    into keyed items and keeps the first item for every key. */
module ShoppingList {
  import opened Types
  import opened Text
  import opened Reducer

  /** One line of the shopping list. `key` is the identity used for
      deduplication and for the completion flags; `name` and `measure` keep
      the casing of the ingredient they came from. */
  datatype ShoppingItem = ShoppingItem(key: string, name: string, measure: string)

  /** The item key: lower-cased name and lower-cased measure joined by a
      hyphen. It is one string, not a pair, so different (name, measure)
      pairs can share a key (see `KeyCollision`). */
  function ItemKey(name: string, measure: string): (k: string)
    ensures |k| == |name| + 1 + |measure|
    ensures k[|name|] == '-'
    ensures k[..|name|] == Lower(name) && k[|name| + 1..] == Lower(measure)
  {
    Lower(name) + "-" + Lower(measure)
  }

  function ToItem(ing: Ingredient): (it: ShoppingItem)
    ensures it.name == ing.name && it.measure == ing.measure
    ensures it.key == ItemKey(it.name, it.measure)
  {
    ShoppingItem(ItemKey(ing.name, ing.measure), ing.name, ing.measure)
  }

  /** An item whose key is the key of its own name and measure. */
  predicate WellKeyed(it: ShoppingItem) {
    it.key == ItemKey(it.name, it.measure)
  }

  //// Planned recipe ids

  /** The days of `days` that hold a recipe, in the order of `days`. */
  function PlannedDaysIn(plan: Plan, days: seq<Day>): (ds: seq<Day>)
    ensures |ds| <= |days|
    ensures forall d :: d in ds <==> d in days && PlanAt(plan, d).Some?
  {
    if |days| == 0 then []
    else if PlanAt(plan, days[0]).Some? then [days[0]] + PlannedDaysIn(plan, days[1..])
    else PlannedDaysIn(plan, days[1..])
  }

  /** The ids of the recipes held by the days of `days`, in the order of
      `days`, repeats kept. */
  function PlannedIdsIn(plan: Plan, days: seq<Day>): seq<string>
  {
    if |days| == 0 then []
    else match PlanAt(plan, days[0])
      case Some(r) => [r.id] + PlannedIdsIn(plan, days[1..])
      case None => PlannedIdsIn(plan, days[1..])
  }

  /** The ids listed in `ids` are those of the recipes on `ds`, one per day. */
  predicate IdsOfDays(plan: Plan, ds: seq<Day>, ids: seq<string>) {
    && |ids| == |ds|
    && forall i :: 0 <= i < |ds| ==> PlanAt(plan, ds[i]).Some? && ids[i] == PlanAt(plan, ds[i]).value.id
  }

  lemma {:induction false} PlannedIdsMatchDays(plan: Plan, days: seq<Day>)
    ensures IdsOfDays(plan, PlannedDaysIn(plan, days), PlannedIdsIn(plan, days))
    decreases |days|
  {
    if |days| > 0 {
      PlannedIdsMatchDays(plan, days[1..]);
    }
  }

  /** Each day of the week appears at most once in `ds`, in week order. */
  predicate InWeekOrder(ds: seq<Day>) {
    forall i, j :: 0 <= i < j < |ds| ==> DayIndex(ds[i]) < DayIndex(ds[j])
  }

  /** Every planned day of `days` comes after `lo` when every day of `days`
      does. */
  lemma {:induction false} PlannedDaysAfter(plan: Plan, days: seq<Day>, lo: int)
    requires forall k :: 0 <= k < |days| ==> lo < DayIndex(days[k])
    ensures forall k :: 0 <= k < |PlannedDaysIn(plan, days)| ==> lo < DayIndex(PlannedDaysIn(plan, days)[k])
    decreases |days|
  {
    if |days| > 0 {
      var tail := days[1..];
      assert forall k :: 0 <= k < |tail| ==> tail[k] == days[k + 1];
      PlannedDaysAfter(plan, tail, lo);
    }
  }

  /** Keeping only the planned days of a list in week order keeps it in
      week order. */
  lemma {:induction false} PlannedDaysKeepOrder(plan: Plan, days: seq<Day>)
    requires InWeekOrder(days)
    ensures InWeekOrder(PlannedDaysIn(plan, days))
    decreases |days|
  {
    if |days| > 0 {
      var tail := days[1..];
      assert InWeekOrder(tail) by {
        forall i, j | 0 <= i < j < |tail| ensures DayIndex(tail[i]) < DayIndex(tail[j]) {
          assert tail[i] == days[i + 1] && tail[j] == days[j + 1];
        }
      }
      PlannedDaysKeepOrder(plan, tail);
      var rest := PlannedDaysIn(plan, tail);
      if PlanAt(plan, days[0]).Some? {
        assert forall k :: 0 <= k < |tail| ==> DayIndex(days[0]) < DayIndex(tail[k]) by {
          forall k | 0 <= k < |tail| ensures DayIndex(days[0]) < DayIndex(tail[k]) {
            assert tail[k] == days[k + 1];
          }
        }
        PlannedDaysAfter(plan, tail, DayIndex(days[0]));
        var ds := [days[0]] + rest;
        assert PlannedDaysIn(plan, days) == ds;
        forall i, j | 0 <= i < j < |ds| ensures DayIndex(ds[i]) < DayIndex(ds[j]) {
          assert ds[j] == rest[j - 1];
          if i > 0 {
            assert ds[i] == rest[i - 1];
          }
        }
      } else {
        assert PlannedDaysIn(plan, days) == rest;
      }
    }
  }

  /** `plannedRecipeIds`: the id of every day that holds a recipe, Monday
      to Sunday, one entry per such day — the same recipe on two days gives
      its id twice. */
  function PlannedRecipeIds(plan: Plan): (ids: seq<string>)
    ensures |ids| <= 7
    ensures IdsOfDays(plan, PlannedDays(plan), ids)
    ensures |ids| == 0 <==> forall d: Day :: PlanAt(plan, d).None?
  {
    PlannedIdsMatchDays(plan, Week);
    var ds := PlannedDays(plan);
    assert |ds| > 0 ==> ds[0] in ds;
    PlannedIdsIn(plan, Week)
  }

  /** The days holding a recipe, Monday to Sunday: exactly those days, each
      once, in week order. */
  function PlannedDays(plan: Plan): (ds: seq<Day>)
    ensures InWeekOrder(ds)
    ensures forall d: Day :: d in ds <==> PlanAt(plan, d).Some?
  {
    WeekIndexes();
    PlannedDaysKeepOrder(plan, Week);
    AllDaysInWeek();
    PlannedDaysIn(plan, Week)
  }

  /** The id a single day contributes: its recipe's id, or nothing. */
  function DayIds(plan: Plan, d: Day): (ids: seq<string>)
    ensures |ids| <= 1
    ensures |ids| == 1 <==> PlanAt(plan, d).Some?
  {
    match PlanAt(plan, d)
    case Some(r) => [r.id]
    case None => []
  }

  lemma PlannedIdsCons(plan: Plan, d: Day, rest: seq<Day>)
    ensures PlannedIdsIn(plan, [d] + rest) == DayIds(plan, d) + PlannedIdsIn(plan, rest)
  {
    assert ([d] + rest)[0] == d && ([d] + rest)[1..] == rest;
  }

  /** The planned ids are the days' contributions, Monday to Sunday. */
  lemma {:induction false} PlannedIdsByDay(plan: Plan)
    ensures PlannedRecipeIds(plan)
         == DayIds(plan, Mon) + (DayIds(plan, Tue) + (DayIds(plan, Wed) + (DayIds(plan, Thu)
          + (DayIds(plan, Fri) + (DayIds(plan, Sat) + DayIds(plan, Sun))))))
  {
    var s7: seq<Day> := [];
    var s6 := [Sun] + s7;
    var s5 := [Sat] + s6;
    var s4 := [Fri] + s5;
    var s3 := [Thu] + s4;
    var s2 := [Wed] + s3;
    var s1 := [Tue] + s2;
    assert Week == [Mon] + s1;
    assert PlannedIdsIn(plan, s7) == [];
    PlannedIdsCons(plan, Sun, s7);
    assert DayIds(plan, Sun) + [] == DayIds(plan, Sun);
    PlannedIdsCons(plan, Sat, s6);
    PlannedIdsCons(plan, Fri, s5);
    PlannedIdsCons(plan, Thu, s4);
    PlannedIdsCons(plan, Wed, s3);
    PlannedIdsCons(plan, Tue, s2);
    PlannedIdsCons(plan, Mon, s1);
  }

  //// Fetch results

  /** The recipes carried by the successful replies that found one, in
      reply order. */
  function Found(responses: seq<Result<Option<Recipe>>>): seq<Recipe>
  {
    if |responses| == 0 then []
    else match responses[0]
      case Success(Some(r)) => [r] + Found(responses[1..])
      case _ => Found(responses[1..])
  }

  /** `Promise.all`: every response's value when all succeeded, otherwise a
      failure carrying the error of one that failed (the first in list
      order). On success the found recipes are those of `Found`. */
  function PromiseAll(responses: seq<Result<Option<Recipe>>>): (r: Result<seq<Option<Recipe>>>)
    ensures r.Success? <==> forall i :: 0 <= i < |responses| ==> responses[i].Success?
    ensures r.Success? ==> |r.value| == |responses|
    ensures r.Success? ==> forall i :: 0 <= i < |responses| ==> r.value[i] == responses[i].value
    ensures r.Success? ==> Present(r.value) == Found(responses)
    ensures r.Failure? ==> exists i :: 0 <= i < |responses| && responses[i] == Failure(r.error)
  {
    if |responses| == 0 then Success([])
    else match responses[0]
      case Failure(e) => Failure(e)
      case Success(v) =>
        match PromiseAll(responses[1..])
        case Failure(e) => Failure(e)
        case Success(vs) => Success([v] + vs)
  }

  /** `filter(r => r != null)`: the recipes that were found, in order. */
  function Present(found: seq<Option<Recipe>>): (rs: seq<Recipe>)
    ensures |rs| <= |found|
    ensures forall r :: r in rs <==> Some(r) in found
  {
    if |found| == 0 then []
    else match found[0]
      case Some(r) => [r] + Present(found[1..])
      case None => Present(found[1..])
  }

  //// Flattening

  function IngredientItems(ings: seq<Ingredient>): (its: seq<ShoppingItem>)
    ensures |its| == |ings|
    ensures forall i :: 0 <= i < |ings| ==> its[i] == ToItem(ings[i])
  {
    seq(|ings|, i requires 0 <= i < |ings| => ToItem(ings[i]))
  }

  /** `flatMap`: the items of every recipe, recipe by recipe, each recipe's
      ingredients in their own order. */
  function Items(recipes: seq<Recipe>): (its: seq<ShoppingItem>)
    ensures forall it :: it in its ==> WellKeyed(it)
  {
    if |recipes| == 0 then [] else IngredientItems(recipes[0].ingredients) + Items(recipes[1..])
  }

  lemma {:induction false} ItemsAppend(a: seq<Recipe>, b: seq<Recipe>)
    ensures Items(a + b) == Items(a) + Items(b)
    decreases |a|
  {
    if |a| > 0 {
      assert (a + b)[0] == a[0];
      assert (a + b)[1..] == a[1..] + b;
      ItemsAppend(a[1..], b);
    } else {
      assert a + b == b;
    }
  }

  /** An item is flattened exactly when it comes from one of the recipes. */
  lemma {:induction false} ItemsMembership(recipes: seq<Recipe>, it: ShoppingItem)
    ensures it in Items(recipes) <==>
              exists k :: 0 <= k < |recipes| && it in IngredientItems(recipes[k].ingredients)
    decreases |recipes|
  {
    if |recipes| > 0 {
      var rest := recipes[1..];
      ItemsMembership(rest, it);
      assert Items(recipes) == IngredientItems(recipes[0].ingredients) + Items(rest);
      if it in Items(rest) {
        var k :| 0 <= k < |rest| && it in IngredientItems(rest[k].ingredients);
        assert recipes[k + 1] == rest[k];
      }
      if exists k :: 0 <= k < |recipes| && it in IngredientItems(recipes[k].ingredients) {
        var k :| 0 <= k < |recipes| && it in IngredientItems(recipes[k].ingredients);
        if k > 0 {
          assert rest[k - 1] == recipes[k];
        }
      }
    }
  }

  //// First-occurrence deduplication

  function Keys(items: seq<ShoppingItem>): set<string> {
    set it | it in items :: it.key
  }

  predicate DistinctKeys(items: seq<ShoppingItem>) {
    forall i, j :: 0 <= i < j < |items| ==> items[i].key != items[j].key
  }

  /** Position `p` holds the first item of `items` with its key. */
  predicate IsFirst(items: seq<ShoppingItem>, p: int) {
    0 <= p < |items| && forall q :: 0 <= q < p ==> items[q].key != items[p].key
  }

  lemma KeysSnoc(items: seq<ShoppingItem>, it: ShoppingItem)
    ensures Keys(items + [it]) == Keys(items) + {it.key}
  {
    assert forall x :: x in items + [it] <==> x in items || x == it;
  }

  /** The `seen` map loop: walk the items in order and keep an item only
      when no earlier kept item has its key. Defined on the prefix so that
      each step appends at most the last item. */
  function Dedup(items: seq<ShoppingItem>): seq<ShoppingItem>
    decreases |items|
  {
    if |items| == 0 then []
    else
      var kept := Dedup(items[..|items| - 1]);
      var last := items[|items| - 1];
      if last.key in Keys(kept) then kept else kept + [last]
  }

  /** The deduplicated items have pairwise distinct keys, the same set of
      keys as the input, and are all input items. */
  lemma {:induction false} DedupKeys(items: seq<ShoppingItem>)
    ensures Keys(Dedup(items)) == Keys(items)
    ensures DistinctKeys(Dedup(items))
    ensures forall it :: it in Dedup(items) ==> it in items
    decreases |items|
  {
    if |items| > 0 {
      var n := |items| - 1;
      var prefix, last := items[..n], items[n];
      var kept := Dedup(prefix);
      DedupKeys(prefix);
      assert items == prefix + [last];
      KeysSnoc(prefix, last);
      if last.key !in Keys(kept) {
        KeysSnoc(kept, last);
        var out := kept + [last];
        assert Dedup(items) == out;
        forall i, j | 0 <= i < j < |out| ensures out[i].key != out[j].key {
          if j == |kept| {
            assert out[i] in kept;
          } else {
            assert out[i] == kept[i] && out[j] == kept[j];
          }
        }
        forall it | it in out ensures it in items {
          if it != last {
            assert it in kept;
          }
        }
      }
    }
  }

  /** The positions of first occurrences, in increasing order: an
      independent description of what `Dedup` keeps. */
  function FirstPositions(items: seq<ShoppingItem>): (ps: seq<nat>)
    ensures forall i, j :: 0 <= i < j < |ps| ==> ps[i] < ps[j]
    ensures forall i :: 0 <= i < |ps| ==> ps[i] < |items|
    ensures forall p :: p in ps <==> IsFirst(items, p)
    decreases |items|
  {
    if |items| == 0 then []
    else
      var n := |items| - 1;
      var prefix := items[..n];
      var ps := FirstPositions(prefix);
      assert forall p :: 0 <= p < n ==> (IsFirst(prefix, p) <==> IsFirst(items, p)) by {
        forall p | 0 <= p < n ensures IsFirst(prefix, p) <==> IsFirst(items, p) {
          assert forall q :: 0 <= q <= p ==> prefix[q] == items[q];
        }
      }
      assert forall p :: p in ps ==> p < n;
      if IsFirst(items, n) then
        assert forall i :: 0 <= i < |ps| ==> ps[i] in ps;
        ps + [n]
      else ps
  }

  lemma KeyInKeys(items: seq<ShoppingItem>, k: string)
    ensures k in Keys(items) <==> exists q :: 0 <= q < |items| && items[q].key == k
  {
    if k in Keys(items) {
      var it :| it in items && it.key == k;
      var q :| 0 <= q < |items| && items[q] == it;
    }
  }

  /** `out` lists the first occurrence of every key of `items`, in the
      order those first occurrences appear. */
  predicate FirstOccurrences(items: seq<ShoppingItem>, out: seq<ShoppingItem>) {
    var ps := FirstPositions(items);
    && |out| == |ps|
    && forall i :: 0 <= i < |out| ==> out[i] == items[ps[i]]
  }

  /** One step of `Dedup`: the last item is kept exactly when its key is
      new. */
  lemma DedupStep(items: seq<ShoppingItem>)
    requires |items| > 0
    ensures var n := |items| - 1;
            Dedup(items) == if items[n].key in Keys(items[..n]) then Dedup(items[..n]) else Dedup(items[..n]) + [items[n]]
  {
    DedupKeys(items[..|items| - 1]);
  }

  /** `Dedup` of one more item. */
  lemma DedupSnoc(items: seq<ShoppingItem>, it: ShoppingItem)
    ensures Dedup(items + [it]) == if it.key in Keys(items) then Dedup(items) else Dedup(items) + [it]
  {
    var all := items + [it];
    assert all[..|items|] == items && all[|items|] == it;
    DedupStep(all);
  }

  /** One step of `FirstPositions`: the last position is a first occurrence
      exactly when its key is new. */
  lemma FirstPositionsStep(items: seq<ShoppingItem>)
    requires |items| > 0
    ensures var n := |items| - 1;
            FirstPositions(items) == if items[n].key in Keys(items[..n]) then FirstPositions(items[..n]) else FirstPositions(items[..n]) + [n]
  {
    var n := |items| - 1;
    KeyInKeys(items[..n], items[n].key);
    assert IsFirst(items, n) <==> items[n].key !in Keys(items[..n]);
  }

  /** `Dedup` keeps exactly the first occurrence of every key, in the order
      those first occurrences appear. */
  lemma {:induction false} DedupKeepsFirstOccurrences(items: seq<ShoppingItem>)
    ensures FirstOccurrences(items, Dedup(items))
    decreases |items|
  {
    if |items| > 0 {
      var n := |items| - 1;
      var prefix := items[..n];
      var kept := Dedup(prefix);
      var ps := FirstPositions(prefix);
      DedupKeepsFirstOccurrences(prefix);
      DedupStep(items);
      FirstPositionsStep(items);
      var out := Dedup(items);
      var qs := FirstPositions(items);
      if items[n].key in Keys(prefix) {
        assert out == kept && qs == ps;
      } else {
        assert out == kept + [items[n]] && qs == ps + [n];
      }
      forall i | 0 <= i < |out| ensures out[i] == items[qs[i]] {
        if i < |kept| {
          assert out[i] == kept[i] && qs[i] == ps[i] && ps[i] < n;
          assert kept[i] == prefix[ps[i]];
        }
      }
    }
  }

  /** Items whose keys are already distinct are kept as they are. */
  lemma {:induction false} DedupOfDistinct(items: seq<ShoppingItem>)
    requires DistinctKeys(items)
    ensures Dedup(items) == items
    decreases |items|
  {
    if |items| > 0 {
      var n := |items| - 1;
      var prefix := items[..n];
      assert DistinctKeys(prefix) by {
        forall i, j | 0 <= i < j < |prefix| ensures prefix[i].key != prefix[j].key {
          assert prefix[i] == items[i] && prefix[j] == items[j];
        }
      }
      DedupOfDistinct(prefix);
      assert items[n].key !in Keys(prefix) by {
        KeyInKeys(prefix, items[n].key);
        forall q | 0 <= q < |prefix| ensures prefix[q].key != items[n].key {
          assert prefix[q] == items[q];
        }
      }
      DedupStep(items);
      assert items == prefix + [items[n]];
    }
  }

  /** Deduplicating the result again changes nothing. */
  lemma DedupIdempotent(items: seq<ShoppingItem>)
    ensures Dedup(Dedup(items)) == Dedup(items)
  {
    DedupKeys(items);
    DedupOfDistinct(Dedup(items));
  }

  /** What `Dedup` does to a suffix depends on the prefix only through the
      prefix's deduplication. */
  lemma {:induction false} DedupAppendCongruence(a: seq<ShoppingItem>, b: seq<ShoppingItem>, z: seq<ShoppingItem>)
    requires Dedup(a) == Dedup(b)
    ensures Dedup(a + z) == Dedup(b + z)
    decreases |z|
  {
    if |z| > 0 {
      var z' := z[..|z| - 1];
      var last := z[|z| - 1];
      assert (a + z)[..|a + z| - 1] == a + z' && (a + z)[|a + z| - 1] == last;
      assert (b + z)[..|b + z| - 1] == b + z' && (b + z)[|b + z| - 1] == last;
      DedupAppendCongruence(a, b, z');
      var d := Dedup(a + z');
      assert Dedup(a + z) == if last.key in Keys(d) then d else d + [last];
      assert Dedup(b + z) == if last.key in Keys(d) then d else d + [last];
    } else {
      assert a + z == a && b + z == b;
    }
  }

  /** Appending items whose keys were all seen before changes nothing. */
  lemma {:induction false} DedupAbsorbsSeenKeys(a: seq<ShoppingItem>, b: seq<ShoppingItem>)
    requires Keys(b) <= Keys(a)
    ensures Dedup(a + b) == Dedup(a)
    decreases |b|
  {
    if |b| > 0 {
      var b' := b[..|b| - 1];
      var last := b[|b| - 1];
      assert b == b' + [last];
      KeysSnoc(b', last);
      assert (a + b)[..|a + b| - 1] == a + b' && (a + b)[|a + b| - 1] == last;
      DedupAbsorbsSeenKeys(a, b');
      DedupKeys(a + b');
      KeysConcat(a, b');
      assert last.key in Keys(Dedup(a + b'));
    } else {
      assert a + b == a;
    }
  }

  lemma KeysConcat(a: seq<ShoppingItem>, b: seq<ShoppingItem>)
    ensures Keys(a + b) == Keys(a) + Keys(b)
  {
    assert forall x :: x in a + b <==> x in a || x in b;
  }

  lemma {:induction false} ItemsSplit(x: seq<Recipe>, r: Recipe, y: seq<Recipe>)
    ensures Items(x + [r] + y) == Items(x) + Items([r]) + Items(y)
  {
    ItemsAppend(x + [r], y);
    ItemsAppend(x, [r]);
  }

  /** A recipe that occurs again later in the list of fetched recipes (the
      same recipe planned on a second day) contributes no further items. */
  lemma {:induction false} RepeatedRecipeContributesOnce(recipes: seq<Recipe>, i: nat, j: nat)
    requires i < j < |recipes| && recipes[i] == recipes[j]
    ensures Dedup(Items(recipes)) == Dedup(Items(recipes[..j] + recipes[j + 1..]))
  {
    var r := recipes[j];
    var before, after := recipes[..j], recipes[j + 1..];
    assert recipes == before + [r] + after;
    ItemsSplit(before, r, after);
    ItemsAppend(before, after);
    assert before == before[..i] + [r] + before[i + 1..];
    ItemsSplit(before[..i], r, before[i + 1..]);
    KeysConcat(Items(before[..i]) + Items([r]), Items(before[i + 1..]));
    KeysConcat(Items(before[..i]), Items([r]));
    DedupAbsorbsSeenKeys(Items(before), Items([r]));
    DedupAppendCongruence(Items(before) + Items([r]), Items(before), Items(after));
  }

  /** The loop of `generateShoppingList` itself: a JavaScript `Map` from key
      to item, filled in order and never overwritten; its values in
      insertion order are the result. */
  method DedupWithSeenMap(items: seq<ShoppingItem>) returns (out: seq<ShoppingItem>)
    ensures out == Dedup(items)
    ensures DistinctKeys(out) && Keys(out) == Keys(items)
  {
    var seen: map<string, ShoppingItem> := map[];
    out := [];
    var i := 0;
    while i < |items|
      invariant 0 <= i <= |items|
      invariant out == Dedup(items[..i])
      invariant seen.Keys == Keys(out)
      invariant forall k :: k in seen ==> seen[k] in out && seen[k].key == k
    {
      var item := items[i];
      ghost var pre, next := items[..i], items[..i + 1];
      assert next[..i] == pre && next[i] == item;
      DedupKeys(pre);
      DedupStep(next);
      assert item.key in seen <==> item.key in Keys(pre);
      if item.key !in seen {
        seen := seen[item.key := item];
        KeysSnoc(out, item);
        out := out + [item];
      }
      i := i + 1;
    }
    assert items[..|items|] == items;
    DedupKeys(items);
  }

  //// generateShoppingList

  /** `generateShoppingList`, given the reply to each id's fetch, in the
      order of `PlannedRecipeIds(plan)`. No planned recipe: the empty list,
      whatever the replies. Any failed fetch: failure, no list. Otherwise
      the items of the recipes found (absent ones skipped), keeping the
      first item of every key, in first-occurrence order. */
  function GenerateShoppingList(plan: Plan, responses: seq<Result<Option<Recipe>>>): (r: Result<seq<ShoppingItem>>)
    requires |responses| == |PlannedRecipeIds(plan)|
    ensures |PlannedRecipeIds(plan)| == 0 ==> r == Success([])
    ensures r.Success? <==> forall i :: 0 <= i < |responses| ==> responses[i].Success?
    ensures r.Failure? ==> exists i :: 0 <= i < |responses| && responses[i] == Failure(r.error)
    ensures r.Success? ==> DistinctKeys(r.value)
    ensures r.Success? ==> Keys(r.value) == Keys(Items(Found(responses)))
    ensures r.Success? ==> FirstOccurrences(Items(Found(responses)), r.value)
  {
    if |PlannedRecipeIds(plan)| == 0 then Success([])
    else match PromiseAll(responses)
      case Failure(e) => Failure(e)
      case Success(found) =>
        var items := Items(Present(found));
        assert Present(found) == Found(responses);
        DedupKeepsFirstOccurrences(items);
        DedupKeys(items);
        Success(Dedup(items))
  }

  /** When some recipe is planned and every fetch succeeds, the list is
      exactly the deduplicated items of the recipes found. */
  lemma GenerateOnSuccess(plan: Plan, responses: seq<Result<Option<Recipe>>>)
    requires |responses| == |PlannedRecipeIds(plan)| > 0
    requires forall i :: 0 <= i < |responses| ==> responses[i].Success?
    ensures GenerateShoppingList(plan, responses) == Success(Dedup(Items(Found(responses))))
  {
    assert PromiseAll(responses).Success?;
  }

  //// Keys and scenarios

  /** Keys ignore the case of names and measures. */
  lemma KeyIgnoresCase(name: string, measure: string)
    ensures ItemKey(Lower(name), Lower(measure)) == ItemKey(name, measure)
  {
    LowerIdempotent(name);
    LowerIdempotent(measure);
  }

  /** The key is a plain concatenation: two different (name, measure) pairs
      whose parts contain the separator share one key. */
  lemma KeyCollision()
    ensures ItemKey("a-b", "c") == ItemKey("a", "b-c")
  {
    assert Lower("a-b") == "a-b";
    assert Lower("b-c") == "b-c";
  }

  /** Same name and measure up to case: one key; another measure: another
      key. */
  lemma SaltKeys()
    ensures ItemKey("Salt", "1 tsp") == ItemKey("SALT", "1 TSP") == "salt-1 tsp"
    ensures ItemKey("Salt", "2 tsp") != ItemKey("Salt", "1 tsp")
  {
    assert Lower("Salt") == "salt";
    assert Lower("SALT") == "salt";
    assert Lower("1 tsp") == "1 tsp";
    assert Lower("1 TSP") == "1 tsp";
    assert ItemKey("Salt", "2 tsp")[5] == '2';
  }

  /** Only Monday and Wednesday hold a recipe: their two ids, in that
      order. */
  lemma {:induction false} MondayWednesdayIds(plan: Plan, r1: Recipe, r2: Recipe)
    requires PlanAt(plan, Mon) == Some(r1) && PlanAt(plan, Wed) == Some(r2)
    requires forall d: Day :: d != Mon && d != Wed ==> PlanAt(plan, d).None?
    ensures PlannedRecipeIds(plan) == [r1.id, r2.id]
  {
    PlannedIdsByDay(plan);
    var none: seq<string> := [];
    assert DayIds(plan, Tue) == DayIds(plan, Thu) == DayIds(plan, Fri) == DayIds(plan, Sat) == DayIds(plan, Sun) == none;
    assert DayIds(plan, Mon) + (none + (DayIds(plan, Wed) + (none + (none + (none + none))))) == [r1.id, r2.id];
  }

  lemma {:induction false} ScenarioPlannedIds(r1: Recipe, r2: Recipe)
    ensures PlannedRecipeIds(DefaultMealPlan()[Mon := Some(r1)][Wed := Some(r2)]) == [r1.id, r2.id]
  {
    var plan := DefaultMealPlan()[Mon := Some(r1)][Wed := Some(r2)];
    assert PlanAt(plan, Mon) == Some(r1) && PlanAt(plan, Wed) == Some(r2);
    MondayWednesdayIds(plan, r1, r2);
  }

  lemma {:induction false} ScenarioFound(r1: Recipe, r2: Recipe)
    ensures Found([Success(Some(r1)), Success(Some(r2))]) == [r1, r2]
  {
    var responses := [Success(Some(r1)), Success(Some(r2))];
    assert responses[1..] == [Success(Some(r2))];
    assert [Success(Some(r2))][1..] == [];
    assert Found([Success(Some(r2))]) == [r2] + Found([]);
  }

  lemma PairItems(a: Ingredient, b: Ingredient)
    ensures IngredientItems([a, b]) == [ToItem(a), ToItem(b)]
  {
  }

  lemma {:induction false} ScenarioItems(r1: Recipe, r2: Recipe)
    ensures Items([r1, r2]) == IngredientItems(r1.ingredients) + IngredientItems(r2.ingredients)
  {
    assert [r1, r2][1..] == [r2];
    assert [r2][1..] == [];
    assert Items([r2]) == IngredientItems(r2.ingredients) + Items([]);
  }

  lemma {:induction false} ScenarioDedup(c: ShoppingItem, s: ShoppingItem, p: ShoppingItem)
    requires c.key != s.key && p.key != s.key && p.key != c.key
    ensures Dedup([c, s, s, p]) == [c, s, p]
  {
    var s0: seq<ShoppingItem> := [];
    var s1 := s0 + [c];
    var s2 := s1 + [s];
    var s3 := s2 + [s];
    var s4 := s3 + [p];
    assert Keys(s1) == {c.key} by {
      assert Keys(s0) == {};
      KeysSnoc(s0, c);
    }
    assert Keys(s2) == {c.key, s.key} by {
      KeysSnoc(s1, s);
    }
    assert Keys(s3) == {c.key, s.key} by {
      KeysSnoc(s2, s);
    }
    assert Dedup(s1) == [c] by {
      assert Keys(s0) == {} && Dedup(s0) == [];
      DedupSnoc(s0, c);
    }
    assert Dedup(s2) == [c, s] by {
      DedupSnoc(s1, s);
    }
    assert Dedup(s3) == [c, s] by {
      DedupSnoc(s2, s);
    }
    assert Dedup(s4) == [c, s, p] by {
      DedupSnoc(s3, p);
    }
    assert s4 == [c, s, s, p];
  }

  lemma {:induction false} ScenarioKeys()
    ensures ItemKey("Chicken", "2 pcs")[0] == 'c'
    ensures ItemKey("Salt", "1 tsp")[0] == 's'
    ensures ItemKey("Pepper", "1 tsp")[0] == 'p'
  {
    assert Lower("Chicken")[0] == 'c';
    assert Lower("Salt")[0] == 's';
    assert Lower("Pepper")[0] == 'p';
  }

  /** Monday and Wednesday planned, the second recipe repeating the first
      one's last ingredient: that ingredient is listed once. */
  lemma {:induction false} ScenarioGenerate(c: Ingredient, s: Ingredient, p: Ingredient, r1: Recipe, r2: Recipe)
    requires r1.ingredients == [c, s] && r2.ingredients == [s, p]
    requires ToItem(c).key != ToItem(s).key && ToItem(p).key != ToItem(s).key && ToItem(p).key != ToItem(c).key
    ensures var plan := DefaultMealPlan()[Mon := Some(r1)][Wed := Some(r2)];
            && PlannedRecipeIds(plan) == [r1.id, r2.id]
            && GenerateShoppingList(plan, [Success(Some(r1)), Success(Some(r2))])
               == Success([ToItem(c), ToItem(s), ToItem(p)])
  {
    var plan := DefaultMealPlan()[Mon := Some(r1)][Wed := Some(r2)];
    ScenarioPlannedIds(r1, r2);
    var responses := [Success(Some(r1)), Success(Some(r2))];
    var ci, si, pi := ToItem(c), ToItem(s), ToItem(p);
    assert Items(Found(responses)) == [ci, si, si, pi] by {
      ScenarioFound(r1, r2);
      ScenarioItems(r1, r2);
      PairItems(c, s);
      PairItems(s, p);
      assert [ci, si] + [si, pi] == [ci, si, si, pi];
    }
    assert Dedup([ci, si, si, pi]) == [ci, si, pi] by {
      ScenarioDedup(ci, si, pi);
    }
    GenerateOnSuccess(plan, responses);
  }

  /** A worked example: Chicken and Salt on Monday, Salt and Pepper on
      Wednesday give Chicken, Salt, Pepper. */
  lemma {:induction false} SharedSaltScenario(r1: Recipe, r2: Recipe)
    requires r1.id == "52772" && r1.ingredients == [Ingredient("Chicken", "2 pcs"), Ingredient("Salt", "1 tsp")]
    requires r2.id == "52773" && r2.ingredients == [Ingredient("Salt", "1 tsp"), Ingredient("Pepper", "1 tsp")]
    ensures var plan := DefaultMealPlan()[Mon := Some(r1)][Wed := Some(r2)];
            && PlannedRecipeIds(plan) == ["52772", "52773"]
            && GenerateShoppingList(plan, [Success(Some(r1)), Success(Some(r2))])
               == Success([ToItem(Ingredient("Chicken", "2 pcs")), ToItem(Ingredient("Salt", "1 tsp")),
                           ToItem(Ingredient("Pepper", "1 tsp"))])
  {
    ScenarioKeys();
    ScenarioGenerate(Ingredient("Chicken", "2 pcs"), Ingredient("Salt", "1 tsp"), Ingredient("Pepper", "1 tsp"), r1, r2);
  }

  lemma {:induction false} MondayOnlyPlannedIds(r: Recipe)
    ensures PlannedRecipeIds(DefaultMealPlan()[Mon := Some(r)]) == [r.id]
  {
    var plan := DefaultMealPlan()[Mon := Some(r)];
    PlannedIdsByDay(plan);
    assert DayIds(plan, Mon) == [r.id];
    assert DayIds(plan, Tue) == DayIds(plan, Wed) == DayIds(plan, Thu) == DayIds(plan, Fri) == DayIds(plan, Sat) == DayIds(plan, Sun) == [];
  }

  /** The same recipe on Monday and Wednesday: its id is requested twice
      (ids are not deduplicated before fetching), yet the list is the one
      Monday alone would give. */
  lemma {:induction false} SameRecipeOnTwoDays(r: Recipe)
    ensures PlannedRecipeIds(DefaultMealPlan()[Mon := Some(r)][Wed := Some(r)]) == [r.id, r.id]
    ensures PlannedRecipeIds(DefaultMealPlan()[Mon := Some(r)]) == [r.id]
    ensures GenerateShoppingList(DefaultMealPlan()[Mon := Some(r)][Wed := Some(r)], [Success(Some(r)), Success(Some(r))])
         == GenerateShoppingList(DefaultMealPlan()[Mon := Some(r)], [Success(Some(r))])
  {
    ScenarioPlannedIds(r, r);
    MondayOnlyPlannedIds(r);
    ScenarioFound(r, r);
    var one := [Success(Some(r))];
    assert one[1..] == [];
    assert Found(one) == [r] + Found([]);
    RepeatedRecipeContributesOnce([r, r], 0, 1);
    assert [r, r][..1] + [r, r][2..] == [r];
    assert PromiseAll([Success(Some(r)), Success(Some(r))]).Success?;
    assert PromiseAll(one).Success?;
  }
}
