/**
 * The monthly phase planner and the phase locator of services/roadmap.ts.
 * The phase dates are day ordinals (Calendar.DayOrdinal) of local calendar
 * dates, and the locator's current date is a parameter.
 */
module Roadmap {
  import opened Wrappers
  import opened Types
  import opened Calendar

  type PhaseId = x: int | 1 <= x <= 3 witness 1

  datatype PhaseConfig = PhaseConfig(
    id: PhaseId,
    name: string,
    startDate: int,
    endDate: int,    // inclusive
    duration: int,   // in days
    focus: string,
    goal: string)

  datatype DailyCapacity = DailyCapacity(weekday: int, weekend: int)

  datatype RoadmapPlan = RoadmapPlan(
    totalDays: int,
    bufferDays: int,
    workingDays: int,
    phases: seq<PhaseConfig>,
    dailyCapacity: DailyCapacity)

  /** Phase 2 and phase 3 together take this many days in a normal month. */
  const RevisionPolishDays := 6
  const RevisionDays := 4
  const PolishDays := 2

  /** The name, focus and goal texts of the three phases. */
  const SolvingName := "First Pass (Solving)"
  const SolvingFocus := "Solve all questions. Don't overthink."
  const SolvingGoal := "Attempt 100% of questions."
  const RevisionName := "Pattern Revision"
  const RevisionFocus := "Revise Weak/Medium by pattern."
  const RevisionGoal := "Convert Weak -> Medium/Strong."
  const PolishName := "Final Polish"
  const PolishFocus := "Mixed sets & Mock interviews."
  const PolishGoal := "Speed & Confidence Lock-in."

  function Max(a: int, b: int): int { if a >= b then a else b }

  /** `Math.ceil(a / b)` for a positive divisor. */
  function CeilDiv(a: int, b: int): (q: int)
    requires b > 0
    ensures (q - 1) * b < a <= q * b
  {
    var q := (a + b - 1) / b;
    assert a + b - 1 == q * b + (a + b - 1) % b;
    q
  }

  /** `startDate <= now <= endDate`. */
  predicate InPhase(phase: PhaseConfig, now: int)
  {
    phase.startDate <= now <= phase.endDate
  }

  /** The three phases follow each other without gap or overlap, with ids 1, 2, 3 in order. */
  predicate Contiguous(plan: RoadmapPlan)
  {
    && |plan.phases| == 3
    && (forall i :: 0 <= i < 3 ==> plan.phases[i].id == i + 1)
    && (forall i :: 0 <= i < 3 ==> plan.phases[i].startDate <= plan.phases[i].endDate)
    && (forall i :: 0 <= i < 2 ==> plan.phases[i].endDate + 1 == plan.phases[i + 1].startDate)
  }

  /**
   * `calculateRoadmap(monthId, problems)`: the month's length, the buffer,
   * the three phase lengths and ranges starting on the 1st, and the daily
   * capacity figures.
   */
  function CalculateRoadmap(monthId: MonthId, problems: seq<Problem>): (plan: RoadmapPlan)
    ensures plan.totalDays == LengthOfMonth(monthId.year, monthId.month)
    ensures plan.bufferDays == (if |problems| > 100 || plan.totalDays == 28 then 1 else 2)
    ensures plan.workingDays == plan.totalDays - plan.bufferDays >= 27
    ensures Contiguous(plan)
    // the safety branch for very short cycles never applies
    ensures plan.phases[1].duration == RevisionDays && plan.phases[2].duration == PolishDays
    ensures plan.phases[0].duration == plan.workingDays - RevisionPolishDays >= 21
    ensures plan.phases[0].duration + plan.phases[1].duration + plan.phases[2].duration
            + plan.bufferDays == plan.totalDays
    ensures plan.phases[0].startDate == DayOrdinal(monthId.year, monthId.month, 1)
    ensures plan.phases[0].endDate - plan.phases[0].startDate + 1 == plan.phases[0].duration
    ensures plan.phases[1].endDate - plan.phases[1].startDate + 1 == plan.phases[1].duration
    // phase 3 absorbs the buffer: its range is longer than its core duration
    ensures plan.phases[2].endDate - plan.phases[2].startDate + 1
            == plan.phases[2].duration + plan.bufferDays
    ensures plan.phases[2].endDate == DayOrdinal(monthId.year, monthId.month, plan.totalDays)
    ensures plan.dailyCapacity.weekday
            == Max(1, 9 * CeilDiv(Max(1, |problems|), plan.phases[0].duration) / 10)
    ensures 1 <= plan.dailyCapacity.weekday <= plan.dailyCapacity.weekend
    ensures 10 * plan.dailyCapacity.weekend - 10 < 14 * plan.dailyCapacity.weekday
                                                 <= 10 * plan.dailyCapacity.weekend
  {
    var y, m := monthId.year, monthId.month;
    var daysInMonth := LengthOfMonth(y, m);
    var totalQuestions := if |problems| == 0 then 1 else |problems|;
    // 28 days leave one buffer day, 29 to 31 leave two; a heavy load leaves one
    var bufferDays := if totalQuestions > 100 then 1 else if daysInMonth == 28 then 1 else 2;
    var workingDays := daysInMonth - bufferDays;
    var shortCycle := workingDays <= RevisionPolishDays;
    var p3Days := if shortCycle then 1 else PolishDays;
    var p2Days := if shortCycle then 1 else RevisionDays;
    var p1Days := workingDays - p2Days - p3Days;
    RoadmapPlan(
      daysInMonth,
      bufferDays,
      workingDays,
      PhaseRanges(y, m, p1Days, p2Days, p3Days, daysInMonth),
      Capacity(totalQuestions, p1Days))
  }

  /**
   * The three phases of month `m` of year `y`: phase 1 from the 1st, each
   * later phase from the day after the previous one ends (every boundary is
   * `setDate(day)` on a date of this month), phase 3 up to the last day.
   */
  function PhaseRanges(y: int, m: int, p1Days: int, p2Days: int, p3Days: int, daysInMonth: int)
    : (phases: seq<PhaseConfig>)
    requires 1 <= p1Days && 1 <= p2Days && p1Days + p2Days < daysInMonth
    ensures |phases| == 3
    ensures forall i :: 0 <= i < 3 ==> phases[i].id == i + 1
    ensures phases[0].duration == p1Days && phases[1].duration == p2Days && phases[2].duration == p3Days
    ensures phases[0].startDate == DayOrdinal(y, m, 1)
    ensures phases[0].endDate - phases[0].startDate + 1 == p1Days
    ensures phases[1].endDate - phases[1].startDate + 1 == p2Days
    ensures phases[2].endDate == DayOrdinal(y, m, daysInMonth)
    ensures phases[2].endDate - phases[2].startDate + 1 == daysInMonth - p1Days - p2Days
    ensures phases[0].endDate + 1 == phases[1].startDate && phases[1].endDate + 1 == phases[2].startDate
  {
    var start := DayOrdinal(y, m, 1);
    var p1End := DayOrdinal(y, m, p1Days);
    var p2Start := DayOrdinal(y, m, p1Days + 1);
    var p2End := DayOrdinal(y, m, p1Days + p2Days);
    var p3Start := DayOrdinal(y, m, p1Days + p2Days + 1);
    var p3End := DayOrdinal(y, m, daysInMonth);
    DayOffset(y, m, p1Days);
    DayOffset(y, m, p1Days + 1);
    DayOffset(y, m, p1Days + p2Days);
    DayOffset(y, m, p1Days + p2Days + 1);
    DayOffset(y, m, daysInMonth);
    [ PhaseConfig(1, SolvingName, start, p1End, p1Days, SolvingFocus, SolvingGoal),
      PhaseConfig(2, RevisionName, p2Start, p2End, p2Days, RevisionFocus, RevisionGoal),
      PhaseConfig(3, PolishName, p3Start, p3End, p3Days, PolishFocus, PolishGoal) ]
  }

  /**
   * The daily targets: 90% of the phase-1 rate rounded down (at least one)
   * on weekdays, and 1.4 times that rounded up on weekends.
   */
  function Capacity(totalQuestions: int, p1Days: int): (c: DailyCapacity)
    requires p1Days > 0
    ensures c.weekday == Max(1, 9 * CeilDiv(totalQuestions, p1Days) / 10)
    ensures 1 <= c.weekday <= c.weekend
    ensures 10 * c.weekend - 10 < 14 * c.weekday <= 10 * c.weekend
  {
    var weekdayRate := Max(1, 9 * CeilDiv(totalQuestions, p1Days) / 10);
    DailyCapacity(weekdayRate, CeilDiv(14 * weekdayRate, 10))
  }

  /** The plan depends on the problem list only through its length. */
  lemma PlanDependsOnlyOnCount(monthId: MonthId, a: seq<Problem>, b: seq<Problem>)
    requires |a| == |b|
    ensures CalculateRoadmap(monthId, a) == CalculateRoadmap(monthId, b)
  {
  }

  /** Phase 3 ends on the last calendar day: the next day is the 1st of the following month. */
  lemma PolishEndsTheMonth(monthId: MonthId, problems: seq<Problem>)
    requires 1 <= monthId.month <= 12
    ensures var plan := CalculateRoadmap(monthId, problems);
      plan.phases[2].endDate + 1 == DayOrdinal(monthId.year, monthId.month + 1, 1)
  {
    LastDayIsFollowedByNextMonth(monthId.year, monthId.month);
  }

  /** February 2024 (a leap month) with 50 problems. */
  lemma LeapFebruaryScenario(problems: seq<Problem>)
    requires |problems| == 50
    ensures var plan := CalculateRoadmap(MonthId(2024, 2), problems);
      && plan.totalDays == 29 && plan.bufferDays == 2 && plan.workingDays == 27
      && plan.phases[0].duration == 21 && plan.phases[1].duration == 4
      && plan.phases[2].duration == 2
  {
  }

  /** January 2024 with 150 problems: the heavy-load override leaves one buffer day. */
  lemma HeavyJanuaryScenario(problems: seq<Problem>)
    requires |problems| == 150
    ensures var plan := CalculateRoadmap(MonthId(2024, 1), problems);
      && plan.totalDays == 31 && plan.bufferDays == 1 && plan.workingDays == 30
      && plan.phases[0].duration == 24
  {
  }

  /** The id of the first phase whose range holds `now`, if there is one. */
  function PhaseContaining(phases: seq<PhaseConfig>, now: int): (r: Option<PhaseId>)
    ensures r.None? <==> forall k :: 0 <= k < |phases| ==> !InPhase(phases[k], now)
    ensures r.Some? ==> exists k :: 0 <= k < |phases| && InPhase(phases[k], now)
                          && phases[k].id == r.value
                          && forall j :: 0 <= j < k ==> !InPhase(phases[j], now)
    decreases |phases|
  {
    if phases == [] then Option.None
    else if InPhase(phases[0], now) then Some(phases[0].id)
    else
      var r := PhaseContaining(phases[1..], now);
      assert forall k :: 1 <= k < |phases| ==> phases[k] == phases[1..][k - 1];
      r
  }

  /**
   * `getCurrentPhase(plan)` on the local date `now`: the first phase holding
   * `now`; otherwise 3 once the last phase is over, and 1 before the month.
   */
  function CurrentPhase(plan: RoadmapPlan, now: int): PhaseId
    requires |plan.phases| >= 3
  {
    match PhaseContaining(plan.phases, now)
    case Some(id) => id
    case None => if now > plan.phases[2].endDate then 3 else 1
  }

  /** The loop of `getCurrentPhase`, with its early return. */
  method GetCurrentPhase(plan: RoadmapPlan, now: int) returns (id: PhaseId)
    requires |plan.phases| >= 3
    ensures id == CurrentPhase(plan, now)
    ensures (exists k :: 0 <= k < |plan.phases| && InPhase(plan.phases[k], now))
            ==> exists k :: 0 <= k < |plan.phases| && InPhase(plan.phases[k], now)
                  && id == plan.phases[k].id
    ensures (forall k :: 0 <= k < |plan.phases| ==> !InPhase(plan.phases[k], now))
            ==> id == if now > plan.phases[2].endDate then 3 else 1
  {
    var i := 0;
    while i < |plan.phases|
      invariant 0 <= i <= |plan.phases|
      invariant PhaseContaining(plan.phases, now) == PhaseContaining(plan.phases[i..], now)
    {
      var phase := plan.phases[i];
      assert plan.phases[i..][1..] == plan.phases[i + 1..];
      if now >= phase.startDate && now <= phase.endDate {
        return phase.id;
      }
      i := i + 1;
    }
    if now > plan.phases[2].endDate {
      return 3;
    }
    return 1;
  }

  /**
   * On a computed plan the locator is total and follows the calendar: days up
   * to the end of phase 1 (and days before the month) give 1, then 2, and 3
   * from phase 3 on, including every day after the month.
   */
  lemma {:induction false} CurrentPhaseOfPlan(monthId: MonthId, problems: seq<Problem>, now: int)
    ensures var plan := CalculateRoadmap(monthId, problems);
      CurrentPhase(plan, now)
      == if now <= plan.phases[0].endDate then 1
         else if now <= plan.phases[1].endDate then 2
         else 3
  {
    var plan := CalculateRoadmap(monthId, problems);
    var ph := plan.phases;
    assert ph[1..][1..] == ph[2..] && ph[2..][1..] == [];
    assert ph[1..][0] == ph[1] && ph[2..][0] == ph[2];
  }
}
