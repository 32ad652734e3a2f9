/**
 * The spaced-repetition logic inside components/RevisionZone.tsx: review
 * intervals, elapsed days, the due list in priority order and the forecast
 * of upcoming reviews. Timestamps are milliseconds and `now` is a parameter.
 */
module RevisionZone {
  import opened Wrappers
  import opened Types
  import opened Seqs

  /** `1000 * 3600 * 24`. */
  const MsPerDay := 86400000

  /** How many problems the "Coming Up Next" list shows. */
  const ForecastLimit := 3

  /** `getNextInterval`: days to wait after a review before the next one. */
  function NextInterval(c: Confidence): (days: int)
    ensures 1 <= days <= 7
  {
    match c
    case Weak => 1
    case Medium => 3
    case Strong => 7
    case None => 1
  }

  /** How firmly rated a confidence is; an unrated problem counts as weak. */
  function Rank(c: Confidence): int
  {
    match c
    case None => 0
    case Weak => 0
    case Medium => 1
    case Strong => 2
  }

  /** A firmer rating never shortens the interval, and a strictly firmer one lengthens it. */
  lemma IntervalFollowsConfidence(a: Confidence, b: Confidence)
    ensures Rank(a) <= Rank(b) ==> NextInterval(a) <= NextInterval(b)
    ensures Rank(a) < Rank(b) ==> NextInterval(a) < NextInterval(b)
    ensures Rank(a) == Rank(b) ==> NextInterval(a) == NextInterval(b)
  {
  }

  /** `getDaysDiff`: whole days elapsed since `last`, rounded down; 0 with no date. */
  function DaysDiff(last: Option<int>, now: int): (days: int)
    ensures last.None? ==> days == 0
    ensures last.Some? ==> days * MsPerDay <= now - last.value < (days + 1) * MsPerDay
  {
    match last
    case None => 0
    case Some(t) => (now - t) / MsPerDay
  }

  /** A date exactly `k` whole days (and less than one more day) before `now` is `k` days old. */
  lemma DaysDiffOfWholeDays(now: int, k: int, extra: int)
    requires 0 <= extra < MsPerDay
    ensures DaysDiff(Some(now - k * MsPerDay - extra), now) == k
  {
    var d := DaysDiff(Some(now - k * MsPerDay - extra), now);
    assert d * MsPerDay <= k * MsPerDay + extra < (d + 1) * MsPerDay;
  }

  /** The filter of `getDueProblems`: solved, dated, and at least an interval old. */
  predicate IsDue(p: Problem, now: int)
  {
    && p.status == Solved
    && p.lastSolvedDate.Some?
    && DaysDiff(p.lastSolvedDate, now) >= NextInterval(p.confidence)
  }

  /** A solved problem last reviewed exactly `k` days ago is due iff `k` reaches its interval. */
  lemma DueAfterInterval(p: Problem, now: int, k: int)
    requires p.status == Solved
    requires p.lastSolvedDate == Some(now - k * MsPerDay)
    ensures IsDue(p, now) <==> k >= NextInterval(p.confidence)
  {
    DaysDiffOfWholeDays(now, k, 0);
  }

  /** Weak: due one day after the review, not on the same day. Strong: due on day 7, not day 6. */
  lemma IntervalExamples(p: Problem, now: int)
    requires p.status == Solved
    ensures p.confidence == Weak && p.lastSolvedDate == Some(now - MsPerDay) ==> IsDue(p, now)
    ensures p.confidence == Weak && p.lastSolvedDate == Some(now) ==> !IsDue(p, now)
    ensures p.confidence == Strong && p.lastSolvedDate == Some(now - 6 * MsPerDay) ==> !IsDue(p, now)
    ensures p.confidence == Strong && p.lastSolvedDate == Some(now - 7 * MsPerDay) ==> IsDue(p, now)
  {
    if p.lastSolvedDate == Some(now - MsPerDay) { DueAfterInterval(p, now, 1); }
    if p.lastSolvedDate == Some(now) { DueAfterInterval(p, now, 0); }
    if p.lastSolvedDate == Some(now - 6 * MsPerDay) { DueAfterInterval(p, now, 6); }
    if p.lastSolvedDate == Some(now - 7 * MsPerDay) { DueAfterInterval(p, now, 7); }
  }

  /** The sort score of the due list: weak problems first, then the longest waiting. */
  function Score(p: Problem, now: int): int
  {
    (if p.confidence == Weak then 100 else 0) + DaysDiff(p.lastSolvedDate, now)
  }

  function DuePred(now: int): Problem -> bool { (p: Problem) => IsDue(p, now) }

  function ScoreKey(now: int): Problem -> int { (p: Problem) => Score(p, now) }

  /** The due problems in their input order, before sorting. */
  function DueCandidates(problems: seq<Problem>, now: int): seq<Problem>
  {
    Filter(problems, DuePred(now))
  }

  /**
   * `getDueProblems`: every due problem, as often as it occurs, in
   * non-increasing score order; problems of equal score keep their order.
   */
  function GetDueProblems(problems: seq<Problem>, now: int): (due: seq<Problem>)
    ensures forall p :: p in due <==> p in problems && IsDue(p, now)
    ensures multiset(due) == multiset(DueCandidates(problems, now))
    ensures forall p :: multiset(due)[p] == if IsDue(p, now) then multiset(problems)[p] else 0
    ensures forall i, j :: 0 <= i < j < |due| ==> Score(due[i], now) >= Score(due[j], now)
  {
    var c := DueCandidates(problems, now);
    FilterCountsAll(problems, DuePred(now));
    var due := SortByKey(c, ScoreKey(now));
    assert forall p :: p in due <==> p in multiset(due);
    due
  }

  lemma FilterCountsAll(s: seq<Problem>, f: Problem -> bool)
    ensures forall x :: multiset(Filter(s, f))[x] == if f(x) then multiset(s)[x] else 0
  {
    forall x { FilterCounts(s, f, x); }
  }

  /** Stability of the due list: the due problems of any one score appear in input order. */
  lemma DueOrderIsStable(problems: seq<Problem>, now: int, score: int)
    ensures KeyFilter(GetDueProblems(problems, now), ScoreKey(now), score)
         == KeyFilter(DueCandidates(problems, now), ScoreKey(now), score)
  {
    SortIsStable(DueCandidates(problems, now), ScoreKey(now), score);
  }

  /**
   * A due problem with a higher score is listed first; in particular a weak
   * problem comes before any other due problem that has waited fewer than
   * 100 days longer.
   */
  lemma HigherScoreFirst(problems: seq<Problem>, now: int, i: int, j: int)
    requires var due := GetDueProblems(problems, now);
      0 <= i < |due| && 0 <= j < |due| && Score(due[i], now) > Score(due[j], now)
    ensures i < j
  {
  }

  lemma WeakBeforeOthers(problems: seq<Problem>, now: int, i: int, j: int)
    requires var due := GetDueProblems(problems, now);
      && 0 <= i < |due| && 0 <= j < |due|
      && due[i].confidence == Weak && due[j].confidence != Weak
      && DaysDiff(due[j].lastSolvedDate, now) < 100 + DaysDiff(due[i].lastSolvedDate, now)
    ensures i < j
  {
    HigherScoreFirst(problems, now, i, j);
  }

  /** Solved and not sharing its id with a due problem (the `find` on ids). */
  function CandidatePred(due: seq<Problem>): Problem -> bool
  {
    (p: Problem) => p.status == Solved && !HasId(due, p.id)
  }

  /** The solved problems that the forecast chooses from. */
  function ForecastCandidates(problems: seq<Problem>, now: int): seq<Problem>
  {
    Filter(problems, CandidatePred(GetDueProblems(problems, now)))
  }

  /** Days until a review falls due, as the forecast sorts it (may be zero or negative). */
  function DaysUntilDue(p: Problem, now: int): int
  {
    NextInterval(p.confidence) - DaysDiff(p.lastSolvedDate, now)
  }

  /** Ascending by days until due is descending by its negation. */
  function ForecastKey(now: int): Problem -> int { (p: Problem) => -DaysUntilDue(p, now) }

  /**
   * `upcomingReviews`: the (at most) three candidates due soonest, soonest
   * first, ties in input order.
   */
  function UpcomingReviews(problems: seq<Problem>, now: int): (upcoming: seq<Problem>)
    ensures |upcoming| == Min(ForecastLimit, |ForecastCandidates(problems, now)|)
    ensures multiset(upcoming) <= multiset(ForecastCandidates(problems, now))
    ensures forall i, j :: 0 <= i < j < |upcoming|
              ==> DaysUntilDue(upcoming[i], now) <= DaysUntilDue(upcoming[j], now)
    // no candidate left out is due sooner than one shown
    ensures forall p, i ::
              (p in multiset(ForecastCandidates(problems, now)) - multiset(upcoming) && 0 <= i < |upcoming|)
              ==> DaysUntilDue(upcoming[i], now) <= DaysUntilDue(p, now)
  {
    TopByKey(ForecastCandidates(problems, now), ForecastKey(now), ForecastLimit)
  }

  /** `daysLeft` of the forecast: days until due, but never less than one. */
  function DaysLeft(p: Problem, now: int): (days: int)
    ensures days >= 1
    ensures days >= DaysUntilDue(p, now)
    ensures days == 1 || days == DaysUntilDue(p, now)
  {
    var d := DaysUntilDue(p, now);
    if d >= 1 then d else 1
  }

  /**
   * With distinct ids, every solved problem is either due or a forecast
   * candidate, never both; without a review date it is a candidate that has
   * waited 0 days.
   */
  lemma SolvedIsDueOrCandidate(problems: seq<Problem>, now: int, p: Problem)
    requires UniqueIds(problems)
    requires p in problems && p.status == Solved
    ensures (p in GetDueProblems(problems, now)) != (p in ForecastCandidates(problems, now))
    ensures p.lastSolvedDate.None?
            ==> p in ForecastCandidates(problems, now) && DaysDiff(p.lastSolvedDate, now) == 0
  {
    var due := GetDueProblems(problems, now);
    if IsDue(p, now) {
      var k :| 0 <= k < |due| && due[k] == p;
      assert HasId(due, p.id);
    } else if HasId(due, p.id) {
      var k :| 0 <= k < |due| && due[k].id == p.id;
      var q := due[k];
      assert q in due;
      SameIdSameProblem(problems, p, q);
      assert false;
    }
  }

  /** With distinct ids, a problem of the list is determined by its id. */
  lemma SameIdSameProblem(ps: seq<Problem>, a: Problem, b: Problem)
    requires UniqueIds(ps)
    requires a in ps && b in ps && a.id == b.id
    ensures a == b
  {
    var i :| 0 <= i < |ps| && ps[i] == a;
    var j :| 0 <= j < |ps| && ps[j] == b;
    assert !(i < j) && !(j < i);
  }

  /** A problem appears in at most one of the two lists, whatever its id. */
  lemma DueAndCandidateAreDisjoint(problems: seq<Problem>, now: int, p: Problem)
    ensures !(p in GetDueProblems(problems, now) && p in ForecastCandidates(problems, now))
  {
    var due := GetDueProblems(problems, now);
    if p in due {
      var k :| 0 <= k < |due| && due[k] == p;
      assert HasId(due, p.id);
    }
  }
}
