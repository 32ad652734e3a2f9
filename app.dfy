/**
 * The state handlers of App.tsx (status change, review, import, bulk
 * selection) and the dashboard's focus lists for the current phase. The
 * clock is a parameter: `now` in milliseconds, `today` as the UTC calendar
 * date and `localDay` as the day ordinal of the local date.
 */
module App {
  import opened Wrappers
  import opened Types
  import opened Seqs
  import opened Roadmap
  import opened RevisionZone
  import opened Storage
  import Csv
  import Calendar

  /** `problems.map(p => p.id === id ? f(p) : p)`. */
  function UpdateWhere(ps: seq<Problem>, id: Id, f: Problem -> Problem): (r: seq<Problem>)
    ensures |r| == |ps|
    ensures forall i :: 0 <= i < |ps| ==> r[i] == if ps[i].id == id then f(ps[i]) else ps[i]
  {
    seq(|ps|, i requires 0 <= i < |ps| => if ps[i].id == id then f(ps[i]) else ps[i])
  }

  /** The record update `handleStatusChange` applies to the matching problem. */
  function WithStatus(newStatus: Status, now: int): Problem -> Problem
  {
    (p: Problem) =>
      if newStatus == Solved
      then p.(status := Solved, lastSolvedDate := Some(now), confidence := Confidence.Medium)
      else p.(status := newStatus)
  }

  /**
   * `handleStatusChange(id, newStatus)` at time `now`: the problems with that
   * id take the new status; marking one solved also stamps it with `now` and
   * resets its confidence to Medium, even if it was solved already. Every
   * other problem, the order and the rest of the state are unchanged.
   */
  function HandleStatusChange(s: AppState, id: Id, newStatus: Status, now: int): (r: AppState)
    ensures r == s.(problems := r.problems)
    ensures |r.problems| == |s.problems|
    ensures forall i :: 0 <= i < |s.problems| && s.problems[i].id != id ==> r.problems[i] == s.problems[i]
    ensures forall i :: 0 <= i < |s.problems| && s.problems[i].id == id ==>
      r.problems[i] == s.problems[i].(
        status := newStatus,
        lastSolvedDate := if newStatus == Solved then Some(now) else s.problems[i].lastSolvedDate,
        confidence := if newStatus == Solved then Confidence.Medium else s.problems[i].confidence)
  {
    s.(problems := UpdateWhere(s.problems, id, WithStatus(newStatus, now)))
  }

  /**
   * Setting the same status twice at the same time is setting it once, and
   * ids (hence distinct ids) are kept position by position.
   */
  lemma StatusChangeFacts(s: AppState, id: Id, newStatus: Status, now: int)
    ensures var r := HandleStatusChange(s, id, newStatus, now);
      && HandleStatusChange(r, id, newStatus, now) == r
      && (forall i :: 0 <= i < |s.problems| ==> r.problems[i].id == s.problems[i].id)
      && (UniqueIds(s.problems) ==> UniqueIds(r.problems))
  {
    var r := HandleStatusChange(s, id, newStatus, now);
    var rr := HandleStatusChange(r, id, newStatus, now);
    assert rr.problems == r.problems by {
      forall i | 0 <= i < |r.problems| ensures rr.problems[i] == r.problems[i] {
        assert s.problems[i].id == r.problems[i].id;
      }
    }
  }

  /**
   * A problem just marked solved is not due at that moment, so it leaves the
   * due list.
   */
  lemma JustSolvedIsNotDue(s: AppState, id: Id, now: int)
    ensures var r := HandleStatusChange(s, id, Solved, now);
      forall p :: p in GetDueProblems(r.problems, now) ==> p.id != id
  {
    var r := HandleStatusChange(s, id, Solved, now);
    forall p | p in GetDueProblems(r.problems, now) ensures p.id != id {
      var i :| 0 <= i < |r.problems| && r.problems[i] == p;
      if p.id == id {
        JustSolved(p, now);
      }
    }
  }

  /** The problem just marked solved comes up for review in three days. */
  lemma JustSolvedWaits(s: AppState, id: Id, now: int)
    ensures var r := HandleStatusChange(s, id, Solved, now);
      forall i :: 0 <= i < |r.problems| && r.problems[i].id == id
        ==> DaysLeft(r.problems[i], now) == NextInterval(Confidence.Medium) == 3
  {
    var r := HandleStatusChange(s, id, Solved, now);
    forall i | 0 <= i < |r.problems| && r.problems[i].id == id
      ensures DaysLeft(r.problems[i], now) == 3
    {
      JustSolved(r.problems[i], now);
    }
  }

  /** A problem solved at `now` with medium confidence is not due and waits three days. */
  lemma JustSolved(p: Problem, now: int)
    requires p.status == Solved && p.lastSolvedDate == Some(now) && p.confidence == Confidence.Medium
    ensures !IsDue(p, now) && DaysLeft(p, now) == 3
  {
    DaysDiffOfWholeDays(now, 0, 0);
  }

  /** The record update `handleReview` applies to the matching problem. */
  function Reviewed(conf: Confidence, now: int): Problem -> Problem
  {
    (p: Problem) => p.(confidence := conf, attempts := p.attempts + 1,
                       revisionCount := p.revisionCount + 1, lastSolvedDate := Some(now))
  }

  /**
   * `handleReview(id, conf)` at time `now`: the problems with that id take
   * the new confidence, one more attempt and one more revision, and `now` as
   * their review date; their status, every other problem and the rest of the
   * state are unchanged.
   */
  function HandleReview(s: AppState, id: Id, conf: Confidence, now: int): (r: AppState)
    ensures r == s.(problems := r.problems)
    ensures |r.problems| == |s.problems|
    ensures forall i :: 0 <= i < |s.problems| && s.problems[i].id != id ==> r.problems[i] == s.problems[i]
    ensures forall i :: 0 <= i < |s.problems| && s.problems[i].id == id ==>
      r.problems[i] == s.problems[i].(
        confidence := conf,
        attempts := s.problems[i].attempts + 1,
        revisionCount := s.problems[i].revisionCount + 1,
        lastSolvedDate := Some(now))
  {
    s.(problems := UpdateWhere(s.problems, id, Reviewed(conf, now)))
  }

  /**
   * The review restarts the repetition clock: the reviewed problem is not due
   * at `now`, shows the full interval of its new confidence as days left, and
   * (if solved) falls due exactly when that interval has passed.
   */
  lemma ReviewRestartsInterval(s: AppState, id: Id, conf: Confidence, now: int, i: int)
    requires 0 <= i < |s.problems| && s.problems[i].id == id
    ensures var p := HandleReview(s, id, conf, now).problems[i];
      && !IsDue(p, now)
      && DaysLeft(p, now) == NextInterval(conf)
      && !IsDue(p, now + NextInterval(conf) * MsPerDay - 1)
      && (p.status == Solved ==> IsDue(p, now + NextInterval(conf) * MsPerDay))
  {
    var p := HandleReview(s, id, conf, now).problems[i];
    var n := NextInterval(conf);
    assert DaysDiff(p.lastSolvedDate, now) == 0;
    DaysDiffOfWholeDays(now + n * MsPerDay, n, 0);
    DaysDiffOfWholeDays(now + n * MsPerDay - 1, n - 1, MsPerDay - 1);
  }

  /** After a review no problem with the reviewed id is in the due list. */
  lemma ReviewClearsDueList(s: AppState, id: Id, conf: Confidence, now: int)
    ensures forall p :: p in GetDueProblems(HandleReview(s, id, conf, now).problems, now) ==> p.id != id
  {
    var r := HandleReview(s, id, conf, now);
    forall p | p in GetDueProblems(r.problems, now) ensures p.id != id {
      var i :| 0 <= i < |r.problems| && r.problems[i] == p;
      if s.problems[i].id == id {
        ReviewRestartsInterval(s, id, conf, now, i);
      }
    }
  }

  /** `handleImport(newProblems)`: the new problems go after the old ones. */
  function HandleImport(s: AppState, newProblems: seq<Problem>): (r: AppState)
    ensures r == s.(problems := r.problems)
    ensures |r.problems| == |s.problems| + |newProblems|
    ensures r.problems[..|s.problems|] == s.problems
    ensures r.problems[|s.problems|..] == newProblems
  {
    s.(problems := s.problems + newProblems)
  }

  /** The ids of a problem list, in order (the `map(p => p.id)` of the select-all handler). */
  function IdsOf(ps: seq<Problem>): (ids: seq<Id>)
    ensures |ids| == |ps| && forall i :: 0 <= i < |ps| ==> ids[i] == ps[i].id
  {
    seq(|ps|, i requires 0 <= i < |ps| => ps[i].id)
  }

  /** Deleting the ids of problems just imported under fresh ids gives back the state before the import. */
  lemma ImportThenDeleteRestores(s: AppState, newProblems: seq<Problem>)
    requires forall q :: q in newProblems ==> !HasId(s.problems, q.id)
    ensures DeleteProblems(HandleImport(s, newProblems), IdsOf(newProblems)) == s
  {
    var ids := IdsOf(newProblems);
    var f := NotListed(ids);
    FilterAppend(s.problems, newProblems, f);
    FilterKeepsAll(s.problems, f);
    forall i | 0 <= i < |newProblems| ensures !f(newProblems[i]) {
      assert ids[i] == newProblems[i].id;
    }
    FilterDropsAll(newProblems, f);
    assert s.problems + [] == s.problems;
  }

  /** Importing distinct problems under fresh ids keeps all ids distinct. */
  lemma ImportKeepsIdsDistinct(s: AppState, newProblems: seq<Problem>)
    requires forall q :: q in newProblems ==> !HasId(s.problems, q.id)
    requires UniqueIds(s.problems) && UniqueIds(newProblems)
    ensures UniqueIds(HandleImport(s, newProblems).problems)
  {
    var all := s.problems + newProblems;
    forall i, j | 0 <= i < j < |all| ensures all[i].id != all[j].id {
      if i < |s.problems| <= j {
        assert all[j] == newProblems[j - |s.problems|];
        assert all[j] in newProblems;
        assert all[i] == s.problems[i];
      } else if j < |s.problems| {
        assert all[i] == s.problems[i] && all[j] == s.problems[j];
      } else {
        assert all[i] == newProblems[i - |s.problems|] && all[j] == newProblems[j - |s.problems|];
      }
    }
  }

  /** Problems of the current month, imported, show after the month's problems already there. */
  lemma ImportJoinsCurrentMonth(s: AppState, newProblems: seq<Problem>)
    requires forall k :: 0 <= k < |newProblems| ==> newProblems[k].monthId == s.currentMonthId
    ensures CurrentMonthProblems(HandleImport(s, newProblems)) == CurrentMonthProblems(s) + newProblems
  {
    FilterAppend(s.problems, newProblems, InMonth(s.currentMonthId));
    FilterKeepsAll(newProblems, InMonth(s.currentMonthId));
  }

  /** A CSV imported into the current month shows after the month's problems already there. */
  lemma ImportedCsvJoinsCurrentMonth(s: AppState, csvText: string, today: Calendar.Date,
                                     freshId: nat -> Id, parseTime: string -> int)
    ensures var imported := Csv.Import(csvText, s.currentMonthId, today, freshId, parseTime);
      CurrentMonthProblems(HandleImport(s, imported)) == CurrentMonthProblems(s) + imported
  {
    Csv.ImportFacts(csvText, s.currentMonthId, today, freshId, parseTime);
    ImportJoinsCurrentMonth(s, Csv.Import(csvText, s.currentMonthId, today, freshId, parseTime));
  }

  function InMonth(id: MonthId): Problem -> bool { (p: Problem) => p.monthId == id }

  /** `currentMonthProblems`: the problems of the current month, in order. */
  function CurrentMonthProblems(s: AppState): (ps: seq<Problem>)
    ensures forall p :: p in ps <==> p in s.problems && p.monthId == s.currentMonthId
  {
    Filter(s.problems, InMonth(s.currentMonthId))
  }

  /**
   * `handleToggleSelect(id)`: a copy of the selection with `id` removed if
   * it was there and added otherwise.
   */
  method ToggleSelect(selected: set<Id>, id: Id) returns (next: set<Id>)
    ensures next == Toggled(selected, id)
  {
    next := selected;
    if id in next {
      next := next - {id};
    } else {
      next := next + {id};
    }
  }

  /** The selection with the membership of exactly `id` flipped. */
  function Toggled(selected: set<Id>, id: Id): (r: set<Id>)
    ensures id in r <==> id !in selected
    ensures forall x :: x != id ==> (x in r <==> x in selected)
  {
    if id in selected then selected - {id} else selected + {id}
  }

  /** Toggling the same id twice restores the selection. */
  lemma ToggleTwice(selected: set<Id>, id: Id)
    ensures Toggled(Toggled(selected, id), id) == selected
  {
  }

  /** The ids of the month's problems as a set. */
  function IdSet(ps: seq<Problem>): (ids: set<Id>)
    ensures forall x :: x in ids <==> HasId(ps, x)
  {
    set i | 0 <= i < |ps| :: ps[i].id
  }

  /**
   * `handleSelectAll()`: the selection empties when its size equals the
   * number of problems in the month, and otherwise becomes exactly the ids of
   * the month's problems.
   */
  function SelectAll(selected: set<Id>, monthProblems: seq<Problem>): (r: set<Id>)
    ensures |selected| == |monthProblems| ==> r == {}
    ensures |selected| != |monthProblems| ==> forall x :: x in r <==> HasId(monthProblems, x)
  {
    if |selected| == |monthProblems| then {} else IdSet(monthProblems)
  }

  /** Distinct ids give as many selected ids as problems. */
  lemma {:induction false} IdSetSize(ps: seq<Problem>)
    requires UniqueIds(ps)
    ensures |IdSet(ps)| == |ps|
    decreases |ps|
  {
    if ps != [] {
      UniqueTail(ps);
      IdSetSize(ps[1..]);
      IdSetCons(ps);
    }
  }

  /** Dropping the head keeps the ids distinct, and the head's id is not among the rest. */
  lemma UniqueTail(ps: seq<Problem>)
    requires UniqueIds(ps) && ps != []
    ensures UniqueIds(ps[1..]) && ps[0].id !in IdSet(ps[1..])
  {
    var rest := ps[1..];
    forall i, j | 0 <= i < j < |rest| ensures rest[i].id != rest[j].id {
      assert rest[i] == ps[i + 1] && rest[j] == ps[j + 1];
    }
    forall i | 0 <= i < |rest| ensures rest[i].id != ps[0].id {
      assert rest[i] == ps[i + 1];
    }
  }

  lemma IdSetCons(ps: seq<Problem>)
    requires ps != []
    ensures IdSet(ps) == {ps[0].id} + IdSet(ps[1..])
  {
    var rest := ps[1..];
    forall x ensures x in IdSet(ps) <==> x in {ps[0].id} + IdSet(rest) {
      if x in IdSet(ps) && x != ps[0].id {
        var i :| 0 <= i < |ps| && ps[i].id == x;
        assert rest[i - 1].id == x;
      }
      if x in IdSet(rest) {
        var i :| 0 <= i < |rest| && rest[i].id == x;
        assert ps[i + 1].id == x;
      }
    }
  }

  /**
   * With distinct ids "select all" behaves as a toggle: from a partial
   * selection it selects every problem of the month, and pressing it again
   * clears the selection.
   */
  lemma SelectAllTwiceClears(selected: set<Id>, monthProblems: seq<Problem>)
    requires UniqueIds(monthProblems)
    requires |selected| != |monthProblems|
    ensures SelectAll(SelectAll(selected, monthProblems), monthProblems) == {}
  {
    IdSetSize(monthProblems);
  }

  /** The phase-1 test at App.tsx line 73: scheduled for today and not solved yet. */
  function DueToday(today: Calendar.Date): Problem -> bool
  {
    (p: Problem) => p.scheduledDate == Some(today) && p.status != Solved
  }

  /** The phase-1 "Solve Queue": the month's problems scheduled for today and not solved, in order. */
  function Phase1Focus(monthProblems: seq<Problem>, today: Calendar.Date): (focus: seq<Problem>)
    ensures forall p :: p in focus <==> p in monthProblems && p.scheduledDate == Some(today) && p.status != Solved
  {
    Filter(monthProblems, DueToday(today))
  }

  /** The solve queue keeps the month's order and every scheduled copy. */
  lemma Phase1FocusKeepsOrder(monthProblems: seq<Problem>, today: Calendar.Date)
    ensures SubsequenceOf(Phase1Focus(monthProblems, today), monthProblems)
    ensures forall p :: multiset(Phase1Focus(monthProblems, today))[p]
                        == if DueToday(today)(p) then multiset(monthProblems)[p] else 0
  {
    FilterIsSubsequence(monthProblems, DueToday(today));
    forall p { FilterCounts(monthProblems, DueToday(today), p); }
  }

  /** How many problems the phase-2 and phase-3 dashboards show. */
  const FocusLimit := 5

  /** The phase-2 test: solved with Weak or Medium confidence. */
  predicate Revisable(p: Problem)
  {
    (p.confidence == Weak || p.confidence == Confidence.Medium) && p.status == Solved
  }

  function RevisablePred(): Problem -> bool { (p: Problem) => Revisable(p) }

  function IsWeak(): Problem -> bool { (p: Problem) => p.confidence == Weak }

  function IsMedium(): Problem -> bool { (p: Problem) => p.confidence == Confidence.Medium }

  /** The problems phase 2 chooses from. */
  function Phase2Candidates(monthProblems: seq<Problem>): seq<Problem>
  {
    Filter(monthProblems, RevisablePred())
  }

  /**
   * Any list the phase-2 dashboard can show: the source sorts the candidates
   * with a comparator that ignores its second argument, so only the choice of
   * `min(5, candidates)` of them is determined, not which ones or their order.
   */
  predicate IsPhase2Focus(focus: seq<Problem>, monthProblems: seq<Problem>)
  {
    var c := Phase2Candidates(monthProblems);
    |focus| == Min(FocusLimit, |c|) && multiset(focus) <= multiset(c)
  }

  /** The candidates reordered Weak first, then Medium, each group in list order. */
  function WeakThenMedium(c: seq<Problem>): seq<Problem>
  {
    Filter(c, IsWeak()) + Filter(c, IsMedium())
  }

  /** The intended phase-2 list: the Weak candidates, then the Medium ones, cut at 5. */
  function Phase2Focus(monthProblems: seq<Problem>): (focus: seq<Problem>)
    ensures IsPhase2Focus(focus, monthProblems)
    ensures |focus| <= FocusLimit
    ensures forall p :: p in focus ==> p in monthProblems && Revisable(p)
  {
    var c := Phase2Candidates(monthProblems);
    WeakThenMediumIsPermutation(c);
    TakeOfPermutation(WeakThenMedium(c), c, FocusLimit);
    Take(WeakThenMedium(c), FocusLimit)
  }

  lemma TakeOfPermutation(ordered: seq<Problem>, c: seq<Problem>, n: nat)
    requires multiset(ordered) == multiset(c)
    ensures |Take(ordered, n)| == Min(n, |c|)
    ensures multiset(Take(ordered, n)) <= multiset(c)
    ensures forall p :: p in Take(ordered, n) ==> p in c
  {
    TakeIsSubMultiset(ordered, n);
    assert |ordered| == |multiset(ordered)| == |c|;
    forall p | p in Take(ordered, n) ensures p in c {
      assert p in multiset(c);
    }
  }

  lemma WeakThenMediumIsPermutation(c: seq<Problem>)
    requires forall p :: p in c ==> Revisable(p)
    ensures multiset(WeakThenMedium(c)) == multiset(c)
  {
    forall p ensures multiset(WeakThenMedium(c))[p] == multiset(c)[p] {
      FilterCounts(c, IsWeak(), p);
      FilterCounts(c, IsMedium(), p);
      if p in c {
        assert Revisable(p);
      }
    }
  }

  /**
   * "Weak first": in the intended list no Medium problem comes before a Weak
   * one.
   */
  lemma Phase2WeakFirst(monthProblems: seq<Problem>)
    ensures var focus := Phase2Focus(monthProblems);
      forall i, j :: 0 <= i < j < |focus| && focus[j].confidence == Weak ==> focus[i].confidence == Weak
  {
    var c := Phase2Candidates(monthProblems);
    var focus := Phase2Focus(monthProblems);
    assert focus == WeakThenMedium(c)[..|focus|];
    WeakPrefix(c);
  }

  /** A Medium problem is shown only once every Weak candidate is. */
  lemma Phase2AllWeakShown(monthProblems: seq<Problem>)
    ensures var focus := Phase2Focus(monthProblems);
      (exists i :: 0 <= i < |focus| && focus[i].confidence != Weak)
      ==> forall p :: p in Phase2Candidates(monthProblems) && p.confidence == Weak ==> p in focus
  {
    var c := Phase2Candidates(monthProblems);
    var w := Filter(c, IsWeak());
    var focus := Phase2Focus(monthProblems);
    assert focus == WeakThenMedium(c)[..|focus|];
    WeakPrefix(c);
    if exists i :: 0 <= i < |focus| && focus[i].confidence != Weak {
      var i :| 0 <= i < |focus| && focus[i].confidence != Weak;
      assert WeakThenMedium(c)[i] == focus[i];
      assert |w| <= i;
      forall p | p in c && p.confidence == Weak ensures p in focus {
        var k :| 0 <= k < |w| && w[k] == p;
        assert focus[k] == p;
      }
    }
  }

  /** In the reordered candidates the Weak ones are exactly the leading ones. */
  lemma WeakPrefix(c: seq<Problem>)
    ensures var ordered, w := WeakThenMedium(c), Filter(c, IsWeak());
      forall i :: 0 <= i < |ordered| ==> (ordered[i].confidence == Weak <==> i < |w|)
  {
    var w, m := Filter(c, IsWeak()), Filter(c, IsMedium());
    var ordered := WeakThenMedium(c);
    forall i | 0 <= i < |ordered| ensures (ordered[i].confidence == Weak) == (i < |w|) {
      if i < |w| { assert ordered[i] in w; } else { assert ordered[i] == m[i - |w|] && m[i - |w|] in m; }
    }
  }


  /** Which phase's dashboard list today shows; phase 3 draws at random and is not modelled. */
  datatype Focus = SolveQueue(problems: seq<Problem>) | PatternRevision(problems: seq<Problem>) | FinalPolish

  /**
   * "Today's Focus": the current month's plan locates the local day in a
   * phase; phase 1 shows the solve queue for the UTC date `today` and phase 2
   * the revision list.
   */
  function TodaysFocus(s: AppState, today: Calendar.Date, localDay: int): (f: Focus)
    ensures var plan := CalculateRoadmap(s.currentMonthId, CurrentMonthProblems(s));
      && (localDay <= plan.phases[0].endDate ==> f == SolveQueue(Phase1Focus(CurrentMonthProblems(s), today)))
      && (plan.phases[0].endDate < localDay <= plan.phases[1].endDate
          ==> f == PatternRevision(Phase2Focus(CurrentMonthProblems(s))))
      && (plan.phases[1].endDate < localDay ==> f == FinalPolish)
  {
    var monthProblems := CurrentMonthProblems(s);
    var plan := CalculateRoadmap(s.currentMonthId, monthProblems);
    CurrentPhaseOfPlan(s.currentMonthId, monthProblems, localDay);
    var phase := CurrentPhase(plan, localDay);
    if phase == 1 then SolveQueue(Phase1Focus(monthProblems, today))
    else if phase == 2 then PatternRevision(Phase2Focus(monthProblems))
    else FinalPolish
  }
}
