/** Saving and restoring the planner state (src/context/MealPlanContext.tsx):
    `getInitialState` reads the last snapshot and falls back to defaults,
    field by field, on anything missing or unreadable; an effect writes the
    state back after every change, ignoring write errors. Storage access,
    `JSON.parse` and `JSON.stringify` are inputs. */
module Persistence {
  import opened Types
  import opened Reducer

  /** What `JSON.parse` can produce, as far as `getInitialState` can tell
      apart. An array is an object without either field. A field that is
      missing or null is `None`. */
  datatype Json =
    | JNull
    | JScalar   // a number, string or boolean
    | JObject(mealPlan: Option<Plan>, shoppingListCompleted: Option<Flags>)

  datatype ParseOutcome = ParseError | Parsed(value: Json)

  /** `window.localStorage.getItem("mealPlanState")`: it may throw, or
      return a string or null. */
  datatype StorageRead = ReadError | Item(raw: Option<string>)

  /** Where the provider is rendered: without a `window` (server-side), or
      in a browser whose storage read came back as `read`. */
  datatype Environment = NoWindow | Browser(read: StorageRead)

  /** `getInitialState`, with `parse` standing for `JSON.parse`. Without a
      window, on a failed read, an absent or empty string, a parse error, or
      a parsed value that is not an object: the initial state. Otherwise each
      field is taken from the parsed object when present and defaults on its
      own when not; a present plan is taken as is, even if it lacks days. */
  function GetInitialState(env: Environment, parse: string -> ParseOutcome): (s: State)
    ensures env.NoWindow? || env.read.ReadError? ==> s == InitialState()
    ensures env.Browser? && env.read.Item? && (env.read.raw.None? || env.read.raw.value == "") ==>
              s == InitialState()
    ensures env.Browser? && env.read.Item? && env.read.raw.Some? && env.read.raw.value != "" ==>
              match parse(env.read.raw.value)
              case ParseError => s == InitialState()
              case Parsed(JObject(plan, flags)) =>
                && (plan.Some? ==> s.mealPlan == plan.value)
                && (plan.None? ==> s.mealPlan == DefaultMealPlan())
                && (flags.Some? ==> s.completed == flags.value)
                && (flags.None? ==> s.completed == map[])
              case Parsed(_) => s == InitialState()
  {
    match env
    case NoWindow => InitialState()
    case Browser(ReadError) => InitialState()
    case Browser(Item(raw)) =>
      if raw.None? || raw.value == "" then InitialState()
      else
        match parse(raw.value)
        case ParseError => InitialState()
        case Parsed(JObject(plan, flags)) =>
          State(plan.GetOr(InitialState().mealPlan), flags.GetOr(InitialState().completed))
        case Parsed(_) => InitialState()
  }

  /** What a faithful `JSON.parse` gives back for the serialisation of `s`. */
  function Encoded(s: State): Json {
    JObject(Some(s.mealPlan), Some(s.completed))
  }

  /** Restoring a stored string that parses back to a state yields that
      state, both fields unchanged. */
  lemma RestoreRoundTrip(s: State, raw: string, parse: string -> ParseOutcome)
    requires raw != "" && parse(raw) == Parsed(Encoded(s))
    ensures GetInitialState(Browser(Item(Some(raw))), parse) == s
  {
  }

  /** A stored plan without any day is restored as it is: the restored plan
      need not have all seven days. */
  lemma RestoredPlanMayBeIncomplete(raw: string, parse: string -> ParseOutcome)
    requires raw != "" && parse(raw) == Parsed(JObject(Some(map[]), None))
    ensures GetInitialState(Browser(Item(Some(raw))), parse) == State(map[], map[])
    ensures !Complete(GetInitialState(Browser(Item(Some(raw))), parse).mealPlan)
  {
    assert Mon !in GetInitialState(Browser(Item(Some(raw))), parse).mealPlan;
  }

  //// Persist after every state

  /** Outcome of `localStorage.setItem`. */
  datatype WriteOutcome = Written | WriteFailed

  /** The provider: the current state and what storage holds under the key. */
  datatype Store = Store(state: State, stored: Option<string>)

  /** The effect run after a state change, with `serialize` standing for
      `JSON.stringify`: a write that succeeds replaces the stored string; a
      write that throws is ignored. The state is never touched. */
  function Persist(st: Store, serialize: State -> string, write: WriteOutcome): (r: Store)
    ensures r.state == st.state
    ensures write.Written? ==> r.stored == Some(serialize(st.state))
    ensures write.WriteFailed? ==> r.stored == st.stored
  {
    match write
    case Written => st.(stored := Some(serialize(st.state)))
    case WriteFailed => st
  }

  /** `dispatch` followed by the persisting effect: the new state is the
      reducer's, whatever the write does. */
  function Dispatch(st: Store, a: Action, serialize: State -> string, write: WriteOutcome): (r: Store)
    ensures r.state == Reduce(st.state, a)
    ensures write.WriteFailed? ==> r.stored == st.stored
  {
    Persist(st.(state := Reduce(st.state, a)), serialize, write)
  }

  /** A failed write and a successful one leave the same state in memory. */
  lemma WriteFailureDoesNotAlterState(st: Store, a: Action, serialize: State -> string)
    ensures Dispatch(st, a, serialize, WriteFailed).state == Dispatch(st, a, serialize, Written).state
  {
  }

  /** After a successful write, reloading with a parser that reads back what
      the serialiser wrote restores exactly the in-memory state. */
  lemma ReloadAfterDispatch(st: Store, a: Action, serialize: State -> string, parse: string -> ParseOutcome)
    requires serialize(Reduce(st.state, a)) != ""
    requires parse(serialize(Reduce(st.state, a))) == Parsed(Encoded(Reduce(st.state, a)))
    ensures var r := Dispatch(st, a, serialize, Written);
            GetInitialState(Browser(Item(r.stored)), parse) == r.state
  {
    RestoreRoundTrip(Reduce(st.state, a), serialize(Reduce(st.state, a)), parse);
  }
}
