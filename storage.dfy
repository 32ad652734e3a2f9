/**
 * The state transformations of services/storage.ts: the initial state, the
 * next-month step with its year rollover, month deletion with reselection
 * of the current month, problem deletion and the motivation board. Each
 * returns a new AppState, as the source's spread expressions do.
 */
module Storage {
  import opened Wrappers
  import opened Types
  import opened Seqs
  import opened Calendar

  /** Some month module of the list carries this id (`months.find(m => m.id === id)`). */
  predicate HasMonth(months: seq<MonthModule>, id: MonthId)
  {
    exists i :: 0 <= i < |months| && months[i].id == id
  }

  function MonthKey(): MonthModule -> MonthId { (m: MonthModule) => m.id }

  /**
   * What the tracker keeps true of its state: at least one month, no month id
   * twice, and the current month is one of the months.
   */
  predicate Consistent(s: AppState)
  {
    && |s.months| > 0
    && DistinctKeys(s.months, MonthKey())
    && HasMonth(s.months, s.currentMonthId)
  }

  /**
   * `getInitialState()`: one empty month, which is current, no problems or
   * motivation items, streak 0, light mode and a daily goal of 3. The
   * month and its display name come from the clock, so they are parameters.
   */
  function InitialState(clockMonth: MonthId, clockName: string): (s: AppState)
    ensures Consistent(s)
    ensures s.months == [MonthModule(clockMonth, clockName, [])] && s.currentMonthId == clockMonth
    ensures s.problems == [] && s.motivation == []
    ensures s.streak == 0 && !s.darkMode && s.userParams.dailyGoal == 3
  {
    var month := MonthModule(clockMonth, clockName, []);
    assert HasMonth([month], clockMonth) by { assert [month][0].id == clockMonth; }
    AppState([], [month], [], clockMonth, 0, false, UserParams(3))
  }

  /**
   * The month after `m`: `new Date(year, month, 15)` with the 1-based month
   * read as a 0-based one, then its year and month.
   */
  function NextMonthId(m: MonthId): (next: MonthId)
    ensures MonthIndex(next.year, next.month) == MonthIndex(m.year, m.month) + 1
    ensures 1 <= next.month <= 12
  {
    var k := MonthIndex(m.year, m.month) + 1;
    IndexRoundTrip(k);
    MonthId(YearOf(k), MonthOf(k))
  }

  /** Within a year the month number goes up by one; December rolls into January. */
  lemma NextMonthRollsOver(m: MonthId)
    requires 1 <= m.month <= 12
    ensures m.month < 12 ==> NextMonthId(m) == MonthId(m.year, m.month + 1)
    ensures m.month == 12 ==> NextMonthId(m) == MonthId(m.year + 1, 1)
  {
    var k := MonthIndex(m.year, m.month) + 1;
    if m.month < 12 {
      assert k == 12 * m.year + m.month && 0 <= m.month < 12;
    } else {
      assert k == 12 * (m.year + 1) + 0;
    }
  }

  /**
   * `addNextMonth(state)`: the month after the last listed one becomes
   * current; it is appended, with no problem ids, unless a month with that id
   * already exists. The source reads the last month unguarded, so the month
   * list must not be empty; the display name comes from the locale, so it is
   * a parameter.
   */
  function AddNextMonth(s: AppState, monthName: MonthId -> string): (r: AppState)
    requires |s.months| > 0
    ensures var id := NextMonthId(s.months[|s.months| - 1].id);
      && r.currentMonthId == id
      && (HasMonth(s.months, id) ==> r == s.(currentMonthId := id))
      && (!HasMonth(s.months, id)
          ==> r == s.(months := s.months + [MonthModule(id, monthName(id), [])], currentMonthId := id))
  {
    var id := NextMonthId(s.months[|s.months| - 1].id);
    if HasMonth(s.months, id) then s.(currentMonthId := id)
    else s.(months := s.months + [MonthModule(id, monthName(id), [])], currentMonthId := id)
  }

  /**
   * The new current month is listed exactly once whatever happened before,
   * and the state stays consistent.
   */
  lemma AddNextMonthKeepsConsistent(s: AppState, monthName: MonthId -> string)
    requires Consistent(s)
    ensures var r := AddNextMonth(s, monthName);
      && Consistent(r)
      && |r.months| == |s.months| + (if HasMonth(s.months, r.currentMonthId) then 0 else 1)
      && r.months[..|s.months|] == s.months
  {
    var r := AddNextMonth(s, monthName);
    var id := r.currentMonthId;
    if !HasMonth(s.months, id) {
      assert r.months[|s.months|].id == id;
      forall i, j | 0 <= i < j < |r.months| ensures r.months[i].id != r.months[j].id {
        if j == |s.months| {
          assert s.months[i] == r.months[i];
        } else {
          assert MonthKey()(s.months[i]) != MonthKey()(s.months[j]);
        }
      }
    }
  }

  /** The month filter of `deleteMonth`. */
  function OtherMonth(id: MonthId): MonthModule -> bool { (m: MonthModule) => m.id != id }

  /** The problem filter of `deleteMonth`. */
  function OutsideMonth(id: MonthId): Problem -> bool { (p: Problem) => p.monthId != id }

  /**
   * `deleteMonth(state, monthId)`: the month and all its problems go, the
   * rest keep their order. With no month left the state is the initial one
   * (whose clock reading is a parameter); otherwise the current month stays,
   * unless it was the deleted one, in which case the last remaining month
   * becomes current.
   */
  function DeleteMonth(s: AppState, monthId: MonthId, clockMonth: MonthId, clockName: string): (r: AppState)
    ensures Filter(s.months, OtherMonth(monthId)) == [] ==> r == InitialState(clockMonth, clockName)
    ensures Filter(s.months, OtherMonth(monthId)) != [] ==>
      && r.months == Filter(s.months, OtherMonth(monthId))
      && r.problems == Filter(s.problems, OutsideMonth(monthId))
      && r.currentMonthId == (if s.currentMonthId == monthId then r.months[|r.months| - 1].id
                              else s.currentMonthId)
      && r == s.(problems := r.problems, months := r.months, currentMonthId := r.currentMonthId)
  {
    var remainingProblems := Filter(s.problems, OutsideMonth(monthId));
    var remainingMonths := Filter(s.months, OtherMonth(monthId));
    if |remainingMonths| == 0 then
      InitialState(clockMonth, clockName)
    else
      var current := if s.currentMonthId == monthId then remainingMonths[|remainingMonths| - 1].id
                     else s.currentMonthId;
      s.(problems := remainingProblems, months := remainingMonths, currentMonthId := current)
  }

  /**
   * The reset happens exactly when every month carries the deleted id;
   * otherwise exactly the other months, and exactly the problems of other
   * months, remain.
   */
  lemma DeleteMonthRemovesExactly(s: AppState, monthId: MonthId, clockMonth: MonthId, clockName: string)
    ensures Filter(s.months, OtherMonth(monthId)) == []
            <==> forall i :: 0 <= i < |s.months| ==> s.months[i].id == monthId
    ensures var r := DeleteMonth(s, monthId, clockMonth, clockName);
      (exists i :: 0 <= i < |s.months| && s.months[i].id != monthId) ==>
      && (forall m :: m in r.months <==> m in s.months && m.id != monthId)
      && (forall p :: p in r.problems <==> p in s.problems && p.monthId != monthId)
  {
    var remaining := Filter(s.months, OtherMonth(monthId));
    if remaining == [] {
      forall i | 0 <= i < |s.months| ensures s.months[i].id == monthId {
        assert s.months[i] !in remaining;
      }
    } else {
      assert remaining[0] in s.months;
    }
  }

  /** Deleting a month keeps the state consistent and the deleted id is nowhere left. */
  lemma DeleteMonthKeepsConsistent(s: AppState, monthId: MonthId, clockMonth: MonthId, clockName: string)
    requires Consistent(s)
    ensures var r := DeleteMonth(s, monthId, clockMonth, clockName);
      && Consistent(r)
      && (HasMonth(r.months, monthId) ==> monthId == clockMonth && r == InitialState(clockMonth, clockName))
  {
    var r := DeleteMonth(s, monthId, clockMonth, clockName);
    if Filter(s.months, OtherMonth(monthId)) != [] {
      FilterKeepsDistinct(s.months, OtherMonth(monthId), MonthKey());
      var k :| 0 <= k < |s.months| && s.months[k].id == s.currentMonthId;
      if s.currentMonthId != monthId {
        assert s.months[k] in r.months;
        var j :| 0 <= j < |r.months| && r.months[j] == s.months[k];
      } else {
        assert r.months[|r.months| - 1].id == r.currentMonthId;
      }
      forall j | 0 <= j < |r.months| ensures r.months[j].id != monthId {
        assert r.months[j] in r.months;
      }
    } else if HasMonth(r.months, monthId) {
      var j :| 0 <= j < |r.months| && r.months[j].id == monthId;
      assert j == 0;
    }
  }

  /** What `deleteMonth` keeps, it keeps in order. */
  lemma DeleteMonthKeepsOrder(s: AppState, monthId: MonthId, clockMonth: MonthId, clockName: string)
    requires Filter(s.months, OtherMonth(monthId)) != []
    ensures var r := DeleteMonth(s, monthId, clockMonth, clockName);
      SubsequenceOf(r.months, s.months) && SubsequenceOf(r.problems, s.problems)
  {
    FilterIsSubsequence(s.months, OtherMonth(monthId));
    FilterIsSubsequence(s.problems, OutsideMonth(monthId));
  }

  /** The filter of `deleteProblem`. */
  function OtherProblem(id: Id): Problem -> bool { (p: Problem) => p.id != id }

  /** The filter of `deleteProblems`: `!problemIds.includes(p.id)`. */
  function NotListed(ids: seq<Id>): Problem -> bool { (p: Problem) => p.id !in ids }

  /** `deleteProblem(state, problemId)`: every problem with that id goes; nothing else changes. */
  function DeleteProblem(s: AppState, problemId: Id): (r: AppState)
    ensures r == s.(problems := r.problems)
    ensures forall p :: p in r.problems <==> p in s.problems && p.id != problemId
    ensures forall p: Problem :: p.id != problemId ==> multiset(r.problems)[p] == multiset(s.problems)[p]
  {
    var problems := Filter(s.problems, OtherProblem(problemId));
    forall p: Problem | p.id != problemId ensures multiset(problems)[p] == multiset(s.problems)[p] {
      FilterCounts(s.problems, OtherProblem(problemId), p);
    }
    s.(problems := problems)
  }

  /** `deleteProblems(state, problemIds)`: every problem whose id is listed goes; nothing else changes. */
  function DeleteProblems(s: AppState, problemIds: seq<Id>): (r: AppState)
    ensures r == s.(problems := r.problems)
    ensures forall p :: p in r.problems <==> p in s.problems && p.id !in problemIds
    ensures forall p: Problem :: p.id !in problemIds ==> multiset(r.problems)[p] == multiset(s.problems)[p]
  {
    var problems := Filter(s.problems, NotListed(problemIds));
    forall p: Problem | p.id !in problemIds ensures multiset(problems)[p] == multiset(s.problems)[p] {
      FilterCounts(s.problems, NotListed(problemIds), p);
    }
    s.(problems := problems)
  }

  /** Deleting one problem is deleting the one-element list of its id. */
  lemma DeleteProblemIsDeleteProblems(s: AppState, problemId: Id)
    ensures DeleteProblem(s, problemId) == DeleteProblems(s, [problemId])
  {
    FilterAgrees(s.problems, OtherProblem(problemId), NotListed([problemId]));
  }

  /**
   * Deletion keeps the order of the remaining problems and their distinct
   * ids, deleting the empty list changes nothing, and deleting the same ids
   * twice is deleting them once.
   */
  lemma DeleteProblemsFacts(s: AppState, problemIds: seq<Id>)
    ensures SubsequenceOf(DeleteProblems(s, problemIds).problems, s.problems)
    ensures UniqueIds(s.problems) ==> UniqueIds(DeleteProblems(s, problemIds).problems)
    ensures DeleteProblems(s, []) == s
    ensures DeleteProblems(DeleteProblems(s, problemIds), problemIds) == DeleteProblems(s, problemIds)
  {
    FilterIsSubsequence(s.problems, NotListed(problemIds));
    if UniqueIds(s.problems) {
      var key := (p: Problem) => p.id;
      assert DistinctKeys(s.problems, key);
      FilterKeepsDistinct(s.problems, NotListed(problemIds), key);
      var r := Filter(s.problems, NotListed(problemIds));
      assert forall i, j :: 0 <= i < j < |r| ==> key(r[i]) != key(r[j]);
    }
    FilterKeepsAll(s.problems, NotListed([]));
    FilterIsIdempotent(s.problems, NotListed(problemIds));
  }

  /** `addMotivationItem(state, item)`: the item goes in front; nothing else changes. */
  function AddMotivationItem(s: AppState, item: MotivationItem): (r: AppState)
    ensures r == s.(motivation := r.motivation)
    ensures |r.motivation| == |s.motivation| + 1
    ensures r.motivation[0] == item && r.motivation[1..] == s.motivation
  {
    s.(motivation := [item] + s.motivation)
  }

  function OtherItem(id: Id): MotivationItem -> bool { (m: MotivationItem) => m.id != id }

  /** `deleteMotivationItem(state, itemId)`: every item with that id goes; nothing else changes. */
  function DeleteMotivationItem(s: AppState, itemId: Id): (r: AppState)
    ensures r == s.(motivation := r.motivation)
    ensures forall m :: m in r.motivation <==> m in s.motivation && m.id != itemId
    ensures forall m: MotivationItem :: m.id != itemId ==> multiset(r.motivation)[m] == multiset(s.motivation)[m]
  {
    var board := Filter(s.motivation, OtherItem(itemId));
    forall m: MotivationItem | m.id != itemId ensures multiset(board)[m] == multiset(s.motivation)[m] {
      FilterCounts(s.motivation, OtherItem(itemId), m);
    }
    s.(motivation := board)
  }

  /** Deleting an item just added under a new id restores the board. */
  lemma DeleteUndoesAdd(s: AppState, item: MotivationItem)
    requires forall i :: 0 <= i < |s.motivation| ==> s.motivation[i].id != item.id
    ensures DeleteMotivationItem(AddMotivationItem(s, item), item.id) == s
  {
    var board := AddMotivationItem(s, item).motivation;
    assert board[1..] == s.motivation;
    FilterKeepsAll(s.motivation, OtherItem(item.id));
  }

  /** Deletion keeps the order of the remaining items. */
  lemma DeleteMotivationKeepsOrder(s: AppState, itemId: Id)
    ensures SubsequenceOf(DeleteMotivationItem(s, itemId).motivation, s.motivation)
  {
    FilterIsSubsequence(s.motivation, OtherItem(itemId));
  }
}
