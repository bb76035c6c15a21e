/** The records shared by the planner: recipes, their ingredients and the
    days of the week (src/types/recipe.ts), plus the Option and Result
    wrappers used for JavaScript's `null` and for thrown errors. */
module Types {

  /** `T | null`: a value that may be absent. */
  datatype Option<+T> = None | Some(value: T) {
    /** `x ?? d` */
    function GetOr(default: T): T {
      match this
      case Some(v) => v
      case None => default
    }
  }

  /** The outcome of an operation that may throw: `Failure` carries the
      error message of the rejected promise or thrown `Error`. */
  datatype Result<+T> = Success(value: T) | Failure(error: string)

  datatype Ingredient = Ingredient(name: string, measure: string)

  datatype Recipe = Recipe(
    id: string,
    name: string,
    category: string,
    area: string,
    instructions: string,
    thumbnail: string,
    ingredients: seq<Ingredient>)

  datatype Day = Mon | Tue | Wed | Thu | Fri | Sat | Sun

  /** The days in display order, Monday first: the key order of the
      default plan object. */
  const Week: seq<Day> := [Mon, Tue, Wed, Thu, Fri, Sat, Sun]

  /** Position of a day in the week. */
  function DayIndex(d: Day): (i: nat)
    ensures i < |Week| && Week[i] == d
  {
    match d
    case Mon => 0
    case Tue => 1
    case Wed => 2
    case Thu => 3
    case Fri => 4
    case Sat => 5
    case Sun => 6
  }

  /** The week lists every day. */
  lemma AllDaysInWeek()
    ensures forall d: Day :: d in Week
  {
    forall d: Day ensures d in Week {
      assert Week[DayIndex(d)] == d;
    }
  }

  /** `DayIndex` and `Week` are inverse: the week lists each day once. */
  lemma WeekIndexes()
    ensures forall i :: 0 <= i < |Week| ==> DayIndex(Week[i]) == i
  {
    assert DayIndex(Week[0]) == 0 && DayIndex(Week[1]) == 1 && DayIndex(Week[2]) == 2;
    assert DayIndex(Week[3]) == 3 && DayIndex(Week[4]) == 4 && DayIndex(Week[5]) == 5;
    assert DayIndex(Week[6]) == 6;
  }
}
