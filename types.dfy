/** The optional-value wrapper used throughout the model. */
module Wrappers {
  datatype Option<T> = None | Some(value: T)
}

/**
 * The entities of the study tracker as values: the four enumerations, the
 * problem record, month modules, motivation items and the application state.
 */
module Types {
  import opened Wrappers
  import Calendar

  /** Problem ids are opaque values; the tracker draws them at random. */
  type Id = string

  datatype Difficulty = Easy | Medium | Hard
  datatype Status = NotStarted | Attempted | Solved
  datatype Confidence = None | Weak | Medium | Strong
  datatype Priority = Low | Normal | High | MustDo

  /** A month identifier "YYYY-MM", kept as the pair it is parsed into. */
  datatype MonthId = MonthId(year: int, month: int)

  /**
   * One practice problem. Optional text fields use "" for "absent";
   * scheduledDate is a calendar date "YYYY-MM-DD" and
   * lastSolvedDate a timestamp in milliseconds.
   */
  datatype Problem = Problem(
    id: Id,
    name: string,
    link: string,
    pattern: string,
    subPattern: string,
    difficulty: Difficulty,
    priority: Priority,
    status: Status,
    confidence: Confidence,
    estimatedTime: Option<int>,
    timeTaken: Option<int>,
    scheduledDate: Option<Calendar.Date>,
    lastSolvedDate: Option<int>,
    revisionCount: int,
    attempts: int,
    notes: string,
    monthId: MonthId)

  datatype MonthModule = MonthModule(id: MonthId, name: string, problemIds: seq<Id>)

  datatype MotivationKind = Image | Video | YouTube

  datatype MotivationItem = MotivationItem(
    id: Id,
    kind: MotivationKind,
    content: string,
    caption: Option<string>,
    addedDate: string)

  datatype UserParams = UserParams(dailyGoal: int)

  datatype AppState = AppState(
    problems: seq<Problem>,
    months: seq<MonthModule>,
    motivation: seq<MotivationItem>,
    currentMonthId: MonthId,
    streak: int,
    darkMode: bool,
    userParams: UserParams)

  /** No two problems of the list share an id. */
  predicate UniqueIds(ps: seq<Problem>)
  {
    forall i, j :: 0 <= i < j < |ps| ==> ps[i].id != ps[j].id
  }

  /** Some problem of the list carries this id (the source's `find(d => d.id === id)`). */
  predicate HasId(ps: seq<Problem>, id: Id)
  {
    exists i :: 0 <= i < |ps| && ps[i].id == id
  }
}
