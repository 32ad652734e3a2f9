/**
 * The CSV importer of services/storage.ts: the quote-aware field splitter
 * `splitCSV`, the header lookup by keyword and the row-to-problem mapping of
 * `importCSV`. Random ids, today's date and date-text parsing are parameters.
 */
module Csv {
  import opened Wrappers
  import opened Types
  import opened Seqs
  import opened Text
  import Calendar

  const Quote := '"'
  const Comma := ','

  /** The splitter's loop variables: the fields pushed so far, the field being read, the quote flag. */
  datatype Splitter = Splitter(fields: seq<string>, current: string, inQuote: bool)

  const Start := Splitter([], "", false)

  /** One character: a quote flips the flag, an unquoted comma ends the field, anything else is kept. */
  function Step(st: Splitter, c: char): Splitter
  {
    if c == Quote then st.(inQuote := !st.inQuote)
    else if c == Comma && !st.inQuote then Splitter(st.fields + [Trim(st.current)], "", st.inQuote)
    else st.(current := st.current + [c])
  }

  /** The splitter after reading all of `s`, from state `st`. */
  function Run(st: Splitter, s: string): Splitter
    decreases |s|
  {
    if s == [] then st else Step(Run(st, s[..|s| - 1]), s[|s| - 1])
  }

  /** The fields `splitCSV` returns: those pushed at commas, then the last one. */
  function SplitFields(s: string): seq<string>
  {
    var st := Run(Start, s);
    st.fields + [Trim(st.current)]
  }

  /** `splitCSV(str)`, the loop over the characters. */
  method SplitCSV(str: string) returns (result: seq<string>)
    ensures result == SplitFields(str)
    ensures |result| == UnquotedCommas(str) + 1
  {
    result := [];
    var current := "";
    var inQuote := false;
    for i := 0 to |str|
      invariant Run(Start, str[..i]) == Splitter(result, current, inQuote)
    {
      var c := str[i];
      assert str[..i + 1][..i] == str[..i];
      if c == Quote {
        inQuote := !inQuote;
      } else if c == Comma && !inQuote {
        result := result + [Trim(current)];
        current := "";
      } else {
        current := current + [c];
      }
    }
    assert str[..|str|] == str;
    result := result + [Trim(current)];
    SplitFieldCount(str);
  }

  /** How many `"` characters `s` holds. */
  function QuoteCount(s: string): nat
    decreases |s|
  {
    if s == [] then 0 else QuoteCount(s[..|s| - 1]) + (if s[|s| - 1] == Quote then 1 else 0)
  }

  /** The commas of `s` preceded by an even number of quotes, i.e. outside quotes. */
  function UnquotedCommas(s: string): nat
    decreases |s|
  {
    if s == [] then 0
    else
      var init := s[..|s| - 1];
      UnquotedCommas(init) + (if s[|s| - 1] == Comma && QuoteCount(init) % 2 == 0 then 1 else 0)
  }

  /** The splitter is inside quotes exactly after an odd number of them. */
  lemma {:induction false} RunParity(s: string)
    ensures Run(Start, s).inQuote <==> QuoteCount(s) % 2 == 1
    decreases |s|
  {
    if s != [] {
      var init, c := s[..|s| - 1], s[|s| - 1];
      RunParity(init);
      StepCounts(Run(Start, init), c);
      ParityStep(QuoteCount(init), Run(Start, init).inQuote, c == Quote);
    }
  }

  /** The splitter has pushed one field per comma outside quotes. */
  lemma {:induction false} RunFieldCount(s: string)
    ensures |Run(Start, s).fields| == UnquotedCommas(s)
    decreases |s|
  {
    if s != [] {
      var init, c := s[..|s| - 1], s[|s| - 1];
      RunFieldCount(init);
      RunParity(init);
      StepCounts(Run(Start, init), c);
      ParityStep(QuoteCount(init), Run(Start, init).inQuote, false);
    }
  }

  /** A flag that tracks the parity of a count keeps doing so when both step together. */
  lemma ParityStep(n: int, odd: bool, flip: bool)
    requires odd <==> n % 2 == 1
    ensures (if flip then !odd else odd) <==> (n + (if flip then 1 else 0)) % 2 == 1
    ensures !odd <==> n % 2 == 0
  {
  }

  /** A quote flips the flag and an unquoted comma adds one field. */
  lemma StepCounts(st: Splitter, c: char)
    ensures Step(st, c).inQuote == (if c == Quote then !st.inQuote else st.inQuote)
    ensures |Step(st, c).fields| == |st.fields| + (if c == Comma && !st.inQuote then 1 else 0)
  {
  }

  /** One field per comma outside quotes, plus the last one. */
  lemma SplitFieldCount(s: string)
    ensures |SplitFields(s)| == UnquotedCommas(s) + 1
  {
    RunFieldCount(s);
  }

  /** No field read so far holds a quote, and every pushed field is trimmed. */
  predicate Clean(st: Splitter)
  {
    && Quote !in st.current
    && forall k :: 0 <= k < |st.fields| ==> Quote !in st.fields[k] && Trimmed(st.fields[k])
  }

  lemma CleanTrim(s: string)
    requires Quote !in s
    ensures Quote !in Trim(s)
  {
    if Quote in Trim(s) {
      TrimKeeps(s, Quote);
    }
  }

  lemma {:induction false} RunIsClean(st: Splitter, s: string)
    requires Clean(st)
    ensures Clean(Run(st, s))
    decreases |s|
  {
    if s != [] {
      RunIsClean(st, s[..|s| - 1]);
      StepIsClean(Run(st, s[..|s| - 1]), s[|s| - 1]);
    }
  }

  /** One step keeps the splitter clean. */
  lemma StepIsClean(st: Splitter, c: char)
    requires Clean(st)
    ensures Clean(Step(st, c))
  {
    if c == Comma && !st.inQuote {
      CleanTrim(st.current);
      var fields := st.fields + [Trim(st.current)];
      assert forall k :: 0 <= k < |st.fields| ==> fields[k] == st.fields[k];
    }
  }

  /** No field contains `"`, and every field is trimmed. */
  lemma SplitFieldsAreClean(s: string)
    ensures forall k :: 0 <= k < |SplitFields(s)| ==>
              Quote !in SplitFields(s)[k] && Trimmed(SplitFields(s)[k])
  {
    RunIsClean(Start, s);
    CleanTrim(Run(Start, s).current);
  }

  /** Reading `a + b` is reading `a`, then `b`. */
  lemma {:induction false} RunAppend(st: Splitter, a: string, b: string)
    ensures Run(st, a + b) == Run(Run(st, a), b)
    decreases |b|
  {
    if b == [] {
      assert a + b == a;
    } else {
      var init, last := b[..|b| - 1], b[|b| - 1];
      assert b == init + [last];
      assert a + b == (a + init) + [last];
      RunAppend(st, a, init);
      RunSnoc(st, a + init, last);
      RunSnoc(Run(st, a), init, last);
    }
  }

  /** Reading one more character is one more step. */
  lemma RunSnoc(st: Splitter, s: string, c: char)
    ensures Run(st, s + [c]) == Step(Run(st, s), c)
  {
    assert (s + [c])[..|s|] == s;
  }

  /** Inside quotes, text without quotes is taken over as it is, commas included. */
  lemma {:induction false} RunInsideQuotes(fields: seq<string>, current: string, s: string)
    requires Quote !in s
    ensures Run(Splitter(fields, current, true), s) == Splitter(fields, current + s, true)
    decreases |s|
  {
    if s != [] {
      RunInsideQuotes(fields, current, s[..|s| - 1]);
      assert current + s == (current + s[..|s| - 1]) + [s[|s| - 1]];
    } else {
      assert current + s == current;
    }
  }

  /** Outside quotes, text without quotes and commas is taken over as it is. */
  lemma {:induction false} RunPlain(fields: seq<string>, current: string, s: string)
    requires Quote !in s && Comma !in s
    ensures Run(Splitter(fields, current, false), s) == Splitter(fields, current + s, false)
    decreases |s|
  {
    if s != [] {
      RunPlain(fields, current, s[..|s| - 1]);
      assert current + s == (current + s[..|s| - 1]) + [s[|s| - 1]];
    } else {
      assert current + s == current;
    }
  }

  /** A quoted field keeps its commas: `"a, b"` is the single field `a, b`. */
  lemma QuotedFieldKeepsCommas(s: string)
    requires Quote !in s
    ensures SplitFields([Quote] + s + [Quote]) == [Trim(s)]
  {
    RunAppend(Start, [Quote], s);
    assert Run(Start, [Quote]) == Splitter([], "", true);
    RunInsideQuotes([], "", s);
    assert "" + s == s;
    RunAppend(Start, [Quote] + s, [Quote]);
    assert Run(Splitter([], s, true), [Quote]) == Splitter([], s, false);
  }

  /** The row text of some fields: `fields.join(',')`, one at least. */
  function JoinFields(fields: seq<string>): string
    requires |fields| >= 1
    decreases |fields|
  {
    if |fields| == 1 then fields[0]
    else JoinFields(fields[..|fields| - 1]) + [Comma] + fields[|fields| - 1]
  }

  /** A field that `splitCSV` gives back as it is. */
  predicate PlainField(f: string)
  {
    Quote !in f && Comma !in f && Trimmed(f)
  }

  lemma RunOne(st: Splitter, c: char)
    ensures Run(st, [c]) == Step(st, c)
  {
    assert [c][..0] == [];
  }

  /** An unquoted comma pushes the trimmed field; a field already trimmed is pushed as it is. */
  lemma CommaPushes(init: seq<string>, last: string)
    requires Trimmed(last)
    ensures Step(Splitter(init, last, false), Comma) == Splitter(init + [last], "", false)
  {
    TrimmedIsFixed(last);
  }

  lemma {:induction false} RunJoined(fields: seq<string>)
    requires |fields| >= 1
    requires forall k :: 0 <= k < |fields| ==> PlainField(fields[k])
    ensures Run(Start, JoinFields(fields))
         == Splitter(fields[..|fields| - 1], fields[|fields| - 1], false)
    decreases |fields|
  {
    var last := fields[|fields| - 1];
    assert PlainField(last);
    if |fields| == 1 {
      RunPlain([], "", last);
      assert "" + last == last;
      assert fields[..0] == [];
    } else {
      var init := fields[..|fields| - 1];
      assert forall k :: 0 <= k < |init| ==> init[k] == fields[k];
      RunJoined(init);
      var prefix := JoinFields(init);
      assert JoinFields(fields) == (prefix + [Comma]) + last;
      RunAppend(Start, prefix + [Comma], last);
      RunAppend(Start, prefix, [Comma]);
      RunOne(Run(Start, prefix), Comma);
      assert PlainField(init[|init| - 1]);
      CommaPushes(init[..|init| - 1], init[|init| - 1]);
      InitLast(init);
      RunPlain(init, "", last);
      assert "" + last == last;
    }
  }

  /** Fields without quotes, commas or surrounding blanks survive `join(',')` and `splitCSV`. */
  lemma {:induction false} SplitJoinRoundTrip(fields: seq<string>)
    requires |fields| >= 1
    requires forall k :: 0 <= k < |fields| ==> PlainField(fields[k])
    ensures SplitFields(JoinFields(fields)) == fields
  {
    RunJoined(fields);
    var last := fields[|fields| - 1];
    assert PlainField(last);
    TrimmedIsFixed(last);
    InitLast(fields);
  }

  // ---------------------------------------------------------------------
  // Headers and columns

  predicate NotQuoteMark(c: char) { c != '\'' && c != Quote }

  function NotQuoteMarkFn(): char -> bool { (c: char) => NotQuoteMark(c) }

  /** `h.toLowerCase().replace(/['"]+/g, '').trim()`. */
  function NormalHeader(h: string): string
  {
    Trim(Filter(ToLower(h), NotQuoteMarkFn()))
  }

  /** A normalised header is trimmed and holds no quote marks and no upper-case ASCII letter. */
  lemma NormalHeaderIsClean(h: string, c: char)
    requires c in NormalHeader(h)
    ensures NotQuoteMark(c) && !('A' <= c <= 'Z')
  {
    var lowered := ToLower(h);
    TrimKeeps(Filter(lowered, NotQuoteMarkFn()), c);
    ToLowerIdempotent(h);
  }

  /** `keywords.some(k => h.includes(k))`. */
  predicate MatchesAny(h: string, keywords: seq<string>)
    decreases |keywords|
  {
    keywords != [] && (Contains(h, keywords[0]) || MatchesAny(h, keywords[1..]))
  }

  /** `headers.findIndex(...)`: the first header holding a keyword, or -1 when none does. */
  function FindIdx(headers: seq<string>, keywords: seq<string>): int
    decreases |headers|
  {
    if headers == [] then -1
    else if MatchesAny(headers[0], keywords) then 0
    else
      var r := FindIdx(headers[1..], keywords);
      if r == -1 then -1 else r + 1
  }

  /** `FindIdx` is -1 exactly when no header matches, and otherwise the first header that does. */
  lemma {:induction false} FindIdxIsFirstMatch(headers: seq<string>, keywords: seq<string>)
    ensures var r := FindIdx(headers, keywords);
      && -1 <= r < |headers|
      && (r == -1 <==> forall i :: 0 <= i < |headers| ==> !MatchesAny(headers[i], keywords))
      && (r >= 0 ==> MatchesAny(headers[r], keywords)
                     && forall i :: 0 <= i < r ==> !MatchesAny(headers[i], keywords))
    decreases |headers|
  {
    if headers != [] && !MatchesAny(headers[0], keywords) {
      FindIdxIsFirstMatch(headers[1..], keywords);
      assert forall i :: 1 <= i < |headers| ==> headers[i] == headers[1..][i - 1];
    }
  }

  /** The column of each field found by keyword (`idxMap`), -1 for a missing column. */
  datatype Columns = Columns(
    name: int, link: int, pattern: int, subPattern: int, difficulty: int,
    priority: int, estimatedTime: int, scheduledDay: int, status: int,
    solvedDate: int, attempts: int, timeTaken: int, confidence: int,
    mistake: int, revision: int)

  function ColumnsOf(headers: seq<string>): Columns
  {
    Columns(
      FindIdx(headers, ["question", "problem"]),
      FindIdx(headers, ["link", "url"]),
      FindIdx(headers, ["pattern"]),
      FindIdx(headers, ["sub-pattern", "sub pattern"]),
      FindIdx(headers, ["difficulty"]),
      FindIdx(headers, ["priority"]),
      FindIdx(headers, ["estimated", "est"]),
      FindIdx(headers, ["day", "date"]),
      FindIdx(headers, ["status"]),
      FindIdx(headers, ["solved date"]),
      FindIdx(headers, ["attempts"]),
      FindIdx(headers, ["time taken"]),
      FindIdx(headers, ["confidence"]),
      FindIdx(headers, ["mistake"]),
      FindIdx(headers, ["revision"]))
  }

  /**
   * Matching is by substring, so the keyword "est" also finds "question": a
   * first header naming the question is taken as the estimated-time column too.
   */
  lemma QuestionHeaderIsEstimate(headers: seq<string>, a: string, b: string)
    requires |headers| >= 1 && headers[0] == a + "question" + b
    ensures ColumnsOf(headers).name == 0 && ColumnsOf(headers).estimatedTime == 0
  {
    var h := headers[0];
    ContainsPart(a, "question", b);
    assert h == (a + "qu") + "est" + ("ion" + b);
    ContainsPart(a + "qu", "est", "ion" + b);
    MatchesFirst(h, "question", ["problem"]);
    MatchesLater(h, "estimated", ["est"]);
    MatchesFirst(h, "est", []);
    FirstHeaderMatches(headers, ["question", "problem"]);
    FirstHeaderMatches(headers, ["estimated", "est"]);
  }

  /** Likewise "date" finds "solved date": a first solved-date header is also the scheduled-day column. */
  lemma SolvedDateHeaderIsScheduledDay(headers: seq<string>, a: string, b: string)
    requires |headers| >= 1 && headers[0] == a + "solved date" + b
    ensures ColumnsOf(headers).solvedDate == 0 && ColumnsOf(headers).scheduledDay == 0
  {
    var h := headers[0];
    ContainsPart(a, "solved date", b);
    assert h == (a + "solved ") + "date" + b;
    ContainsPart(a + "solved ", "date", b);
    MatchesFirst(h, "solved date", []);
    MatchesLater(h, "day", ["date"]);
    MatchesFirst(h, "date", []);
    FirstHeaderMatches(headers, ["solved date"]);
    FirstHeaderMatches(headers, ["day", "date"]);
  }

  lemma MatchesFirst(h: string, k: string, rest: seq<string>)
    requires Contains(h, k)
    ensures MatchesAny(h, [k] + rest)
  {
    assert ([k] + rest)[0] == k;
  }

  lemma MatchesLater(h: string, k: string, rest: seq<string>)
    requires MatchesAny(h, rest)
    ensures MatchesAny(h, [k] + rest)
  {
    assert ([k] + rest)[1..] == rest;
  }

  lemma FirstHeaderMatches(headers: seq<string>, keywords: seq<string>)
    requires |headers| >= 1 && MatchesAny(headers[0], keywords)
    ensures FindIdx(headers, keywords) == 0
  {
  }

  /** `replace(/^"|"$/g, '')`: one leading and one trailing quote removed. */
  function StripOuterQuotes(s: string): (r: string)
    ensures |r| <= |s|
  {
    var a := if s != [] && s[0] == Quote then s[1..] else s;
    if a != [] && a[|a| - 1] == Quote then a[..|a| - 1] else a
  }

  /** `getVal(idx)`: the field in that column with its outer quotes removed; "" when absent or empty. */
  function GetVal(row: seq<string>, idx: int): string
  {
    if 0 <= idx < |row| && row[idx] != "" then StripOuterQuotes(row[idx]) else ""
  }

  /** On fields from `splitCSV`, which hold no quotes, `getVal` is the plain field lookup. */
  lemma GetValOfSplitRow(s: string, idx: int)
    ensures GetVal(SplitFields(s), idx) == if 0 <= idx < |SplitFields(s)| then SplitFields(s)[idx] else ""
  {
    SplitFieldsAreClean(s);
  }

  // ---------------------------------------------------------------------
  // Classification, in the order of precedence the successive overrides give

  /** Hard over Medium over Easy. */
  function DifficultyOf(s: string): Difficulty
  {
    if Contains(s, "hard") then Hard else if Contains(s, "med") then Difficulty.Medium else Easy
  }

  /** Attempted over Solved over Not Started. */
  function StatusOf(s: string): Status
  {
    if Contains(s, "attempt") then Attempted else if Contains(s, "solv") then Solved else NotStarted
  }

  /** Strong over Medium over Weak over None. */
  function ConfidenceOf(s: string): Confidence
  {
    if Contains(s, "strong") then Strong
    else if Contains(s, "med") then Confidence.Medium
    else if Contains(s, "weak") then Weak
    else Confidence.None
  }

  /** Must Do, then High, then Low, else Normal. */
  function PriorityOf(s: string): Priority
  {
    if Contains(s, "must") then MustDo
    else if Contains(s, "high") then High
    else if Contains(s, "low") then Low
    else Normal
  }

  /** `parseInt(v) || undefined`: `NaN` and 0 are both absent. */
  function OptionalNumber(v: string): (r: Option<int>)
    ensures r.Some? ==> r.value != 0 && ParseInt(v) == r
    ensures r.None? ==> ParseInt(v).None? || ParseInt(v) == Some(0)
  {
    match ParseInt(v)
    case Some(n) => if n != 0 then Some(n) else Option.None
    case None => Option.None
  }

  /** `parseInt(v) || 0`. */
  function CountOf(v: string): (r: int)
    ensures ParseInt(v).Some? ==> r == ParseInt(v).value
    ensures ParseInt(v).None? ==> r == 0
  {
    match ParseInt(v)
    case Some(n) => n
    case None => 0
  }

  /**
   * The scheduled date: day `dayNum` of the import month when the column's
   * digits spell a number from 1 to 31 (a day past the month's end rolls into
   * the next month, as `Date` does), and `today` otherwise.
   */
  function ScheduledDate(dayVal: string, monthId: MonthId, today: Calendar.Date): Calendar.Date
  {
    if dayVal == "" then today
    else
      match ParseInt(OnlyDigits(dayVal))
      case Some(dayNum) =>
        if 0 < dayNum <= 31 then Calendar.CalendarDate(monthId.year, monthId.month, dayNum) else today
      case None => today
  }

  /**
   * A day from 1 to the month's length is that day of the import month; a
   * later day (31 in a 30-day month) is as many days into the next month,
   * and either way it is the day the digits count from the month's start.
   */
  lemma ScheduledDayInMonth(digits: nat, monthId: MonthId, today: Calendar.Date)
    requires 1 <= monthId.month <= 12
    requires 1 <= digits <= 31
    ensures var t := ScheduledDate(Decimal(digits), monthId, today);
      var y, m := monthId.year, monthId.month;
      && Calendar.ValidDate(t)
      && (digits <= Calendar.DaysInMonth(y, m) ==> t == Calendar.Date(y, m, digits))
      && (digits > Calendar.DaysInMonth(y, m) ==>
            t == Calendar.Date(if m == 12 then y + 1 else y, if m == 12 then 1 else m + 1,
                               digits - Calendar.DaysInMonth(y, m)))
      && Calendar.DayOrdinal(t.year, t.month, t.day) == Calendar.DayOrdinal(y, m, 1) + digits - 1
  {
    var y, m := monthId.year, monthId.month;
    ScheduledOfDigits(digits, monthId, today);
    Calendar.IndexOfMonth(y, m);
    if m == 12 { Calendar.IndexOfMonth(y + 1, 1); } else { Calendar.IndexOfMonth(y, m + 1); }
    Calendar.CalendarDateOrdinal(y, m, digits);
    Calendar.DayOffset(y, m, digits);
  }

  /** A day number written in decimal schedules that day of the month. */
  lemma ScheduledOfDigits(digits: nat, monthId: MonthId, today: Calendar.Date)
    requires 1 <= digits <= 31
    ensures ScheduledDate(Decimal(digits), monthId, today)
            == Calendar.CalendarDate(monthId.year, monthId.month, digits)
  {
    DigitsArePlain(Decimal(digits));
    ParseDecimal(digits);
  }

  lemma DigitsArePlain(ds: string)
    requires forall i :: 0 <= i < |ds| ==> IsDigit(ds[i])
    ensures OnlyDigits(ds) == ds
  {
    FilterKeepsAll(ds, IsDigitFn());
  }

  /** The name and the pattern a row without them gets. */
  const UnknownName := "Unknown Problem"
  const GeneralPattern := "General"

  /** The problem that row `row` (line `line` of the text) becomes. */
  function RowProblem(row: seq<string>, cols: Columns, line: nat, monthId: MonthId, today: Calendar.Date,
                      freshId: nat -> Id, parseTime: string -> int): (p: Problem)
    ensures Good(p, monthId) && p.id == freshId(line)
  {
    var name := GetVal(row, cols.name);
    var pattern := GetVal(row, cols.pattern);
    var solved := GetVal(row, cols.solvedDate);
    Problem(
      freshId(line),
      if name == "" then UnknownName else name,
      GetVal(row, cols.link),
      if pattern == "" then GeneralPattern else pattern,
      GetVal(row, cols.subPattern),
      DifficultyOf(ToLower(GetVal(row, cols.difficulty))),
      PriorityOf(ToLower(GetVal(row, cols.priority))),
      StatusOf(ToLower(GetVal(row, cols.status))),
      ConfidenceOf(ToLower(GetVal(row, cols.confidence))),
      OptionalNumber(GetVal(row, cols.estimatedTime)),
      OptionalNumber(GetVal(row, cols.timeTaken)),
      Some(ScheduledDate(GetVal(row, cols.scheduledDay), monthId, today)),
      if solved == "" then Option.None else Some(parseTime(solved)),
      CountOf(GetVal(row, cols.revision)),
      CountOf(GetVal(row, cols.attempts)),
      GetVal(row, cols.mistake),
      monthId)
  }

  /** The lines of the trimmed text. */
  function Lines(csvText: string): seq<string>
  {
    SplitOn(Trim(csvText), '\n')
  }

  function HeadersOf(line: string): seq<string>
  {
    var hs := SplitFields(line);
    seq(|hs|, i requires 0 <= i < |hs| => NormalHeader(hs[i]))
  }

  /** What data line `line` of the text adds: its problem, or nothing when it has fewer than two fields. */
  function LineProblems(text: string, line: nat, cols: Columns, monthId: MonthId, today: Calendar.Date,
                        freshId: nat -> Id, parseTime: string -> int): seq<Problem>
  {
    var row := SplitFields(text);
    if |row| < 2 then [] else [RowProblem(row, cols, line, monthId, today, freshId, parseTime)]
  }

  /** The problems of lines 1 to `i - 1`, in order. */
  function ImportedUpTo(lines: seq<string>, cols: Columns, i: nat, monthId: MonthId, today: Calendar.Date,
                        freshId: nat -> Id, parseTime: string -> int): seq<Problem>
    requires i <= |lines|
  {
    if i <= 1 then []
    else ImportedUpTo(lines, cols, i - 1, monthId, today, freshId, parseTime)
         + LineProblems(lines[i - 1], i - 1, cols, monthId, today, freshId, parseTime)
  }

  /** What `importCSV(csvText, currentMonthId)` returns. */
  function Import(csvText: string, monthId: MonthId, today: Calendar.Date,
                  freshId: nat -> Id, parseTime: string -> int): seq<Problem>
  {
    var lines := Lines(csvText);
    if |lines| < 2 then []
    else ImportedUpTo(lines, ColumnsOf(HeadersOf(lines[0])), |lines|, monthId, today, freshId, parseTime)
  }

  /** The difficulty of a lower-cased cell: Easy, overridden by "med", overridden by "hard". */
  method ClassifyDifficulty(diffStr: string) returns (difficulty: Difficulty)
    ensures difficulty == DifficultyOf(diffStr)
  {
    difficulty := Easy;
    if Contains(diffStr, "med") { difficulty := Difficulty.Medium; }
    if Contains(diffStr, "hard") { difficulty := Hard; }
  }

  /** The status: Not Started, overridden by "solv", overridden by "attempt". */
  method ClassifyStatus(statusStr: string) returns (status: Status)
    ensures status == StatusOf(statusStr)
  {
    status := NotStarted;
    if Contains(statusStr, "solv") { status := Solved; }
    if Contains(statusStr, "attempt") { status := Attempted; }
  }

  /** The confidence: None, overridden by "weak", then by "med", then by "strong". */
  method ClassifyConfidence(confStr: string) returns (confidence: Confidence)
    ensures confidence == ConfidenceOf(confStr)
  {
    confidence := Confidence.None;
    if Contains(confStr, "weak") { confidence := Weak; }
    if Contains(confStr, "med") { confidence := Confidence.Medium; }
    if Contains(confStr, "strong") { confidence := Strong; }
  }

  /** The priority: the first of "must", "high", "low" that occurs, else Normal. */
  method ClassifyPriority(prioStr: string) returns (priority: Priority)
    ensures priority == PriorityOf(prioStr)
  {
    priority := Normal;
    if Contains(prioStr, "must") { priority := MustDo; }
    else if Contains(prioStr, "high") { priority := High; }
    else if Contains(prioStr, "low") { priority := Low; }
  }

  /** The scheduled date: today, replaced by the column's day of the month when it is 1 to 31. */
  method ScheduleRow(dayVal: string, monthId: MonthId, today: Calendar.Date) returns (scheduledDate: Calendar.Date)
    ensures scheduledDate == ScheduledDate(dayVal, monthId, today)
  {
    scheduledDate := today;
    if dayVal != "" {
      var dayNum := ParseInt(OnlyDigits(dayVal));
      if dayNum.Some? && dayNum.value > 0 && dayNum.value <= 31 {
        scheduledDate := Calendar.CalendarDate(monthId.year, monthId.month, dayNum.value);
      }
    }
  }

  /** One data row: the default name and pattern, the four classifications and the field lookups. */
  method ImportRow(row: seq<string>, cols: Columns, line: nat, monthId: MonthId, today: Calendar.Date,
                   freshId: nat -> Id, parseTime: string -> int) returns (p: Problem)
    ensures p == RowProblem(row, cols, line, monthId, today, freshId, parseTime)
  {
    var name := GetVal(row, cols.name);
    if name == "" { name := "Unknown Problem"; }
    var pattern := GetVal(row, cols.pattern);
    if pattern == "" { pattern := "General"; }
    var difficulty := ClassifyDifficulty(ToLower(GetVal(row, cols.difficulty)));
    var status := ClassifyStatus(ToLower(GetVal(row, cols.status)));
    var confidence := ClassifyConfidence(ToLower(GetVal(row, cols.confidence)));
    var priority := ClassifyPriority(ToLower(GetVal(row, cols.priority)));
    var scheduledDate := ScheduleRow(GetVal(row, cols.scheduledDay), monthId, today);
    var solved := GetVal(row, cols.solvedDate);
    p := Problem(
      freshId(line), name, GetVal(row, cols.link), pattern, GetVal(row, cols.subPattern),
      difficulty, priority, status, confidence,
      OptionalNumber(GetVal(row, cols.estimatedTime)),
      OptionalNumber(GetVal(row, cols.timeTaken)),
      Some(scheduledDate),
      if solved == "" then Option.None else Some(parseTime(solved)),
      CountOf(GetVal(row, cols.revision)),
      CountOf(GetVal(row, cols.attempts)),
      GetVal(row, cols.mistake),
      monthId);
  }

  /** `importCSV`: the header row, then one problem per data row with at least two fields. */
  method ImportCSV(csvText: string, monthId: MonthId, today: Calendar.Date,
                   freshId: nat -> Id, parseTime: string -> int) returns (problems: seq<Problem>)
    ensures problems == Import(csvText, monthId, today, freshId, parseTime)
  {
    var lines := Lines(csvText);
    if |lines| < 2 {
      return [];
    }
    var headers := ReadHeaders(lines[0]);
    problems := ImportRows(lines, ColumnsOf(headers), monthId, today, freshId, parseTime);
  }

  /** The header row split like any row, each header normalised. */
  method ReadHeaders(line: string) returns (headers: seq<string>)
    ensures headers == HeadersOf(line)
  {
    var fields := SplitCSV(line);
    headers := seq(|fields|, i requires 0 <= i < |fields| => NormalHeader(fields[i]));
  }

  /** The loop over the data rows of `importCSV`, once the columns are known. */
  method ImportRows(lines: seq<string>, cols: Columns, monthId: MonthId, today: Calendar.Date,
                    freshId: nat -> Id, parseTime: string -> int) returns (problems: seq<Problem>)
    requires |lines| >= 1
    ensures problems == ImportedUpTo(lines, cols, |lines|, monthId, today, freshId, parseTime)
  {
    problems := [];
    for i := 1 to |lines|
      invariant problems == ImportedUpTo(lines, cols, i, monthId, today, freshId, parseTime)
    {
      var added := ImportLine(lines[i], i, cols, monthId, today, freshId, parseTime);
      NextLine(lines, cols, i + 1, monthId, today, freshId, parseTime);
      problems := problems + added;
    }
  }

  /** One pass of that loop: a line with fewer than two fields is skipped, any other becomes a problem. */
  method ImportLine(text: string, line: nat, cols: Columns, monthId: MonthId, today: Calendar.Date,
                    freshId: nat -> Id, parseTime: string -> int) returns (added: seq<Problem>)
    ensures added == LineProblems(text, line, cols, monthId, today, freshId, parseTime)
  {
    var row := SplitCSV(text);
    if |row| < 2 {
      return [];
    }
    var p := ImportRow(row, cols, line, monthId, today, freshId, parseTime);
    added := [p];
  }

  /** Line `i - 1` adds what `LineProblems` says to the problems of the lines before it. */
  lemma NextLine(lines: seq<string>, cols: Columns, i: nat, monthId: MonthId, today: Calendar.Date,
                 freshId: nat -> Id, parseTime: string -> int)
    requires 2 <= i <= |lines|
    ensures ImportedUpTo(lines, cols, i, monthId, today, freshId, parseTime)
         == ImportedUpTo(lines, cols, i - 1, monthId, today, freshId, parseTime)
            + LineProblems(lines[i - 1], i - 1, cols, monthId, today, freshId, parseTime)
  {
  }

  /** Every imported problem belongs to the month and has a name and a pattern. */
  predicate Good(p: Problem, monthId: MonthId)
  {
    p.monthId == monthId && p.name != "" && p.pattern != ""
  }

  lemma GoodConcat(a: seq<Problem>, b: seq<Problem>, monthId: MonthId)
    requires forall k :: 0 <= k < |a| ==> Good(a[k], monthId)
    requires forall k :: 0 <= k < |b| ==> Good(b[k], monthId)
    ensures forall k :: 0 <= k < |a + b| ==> Good((a + b)[k], monthId)
  {
  }

  /** At most one problem per data line, each of them `Good`. */
  lemma {:induction false} ImportedUpToFacts(lines: seq<string>, cols: Columns, i: nat, monthId: MonthId,
                                             today: Calendar.Date, freshId: nat -> Id, parseTime: string -> int)
    requires 1 <= i <= |lines|
    ensures var r := ImportedUpTo(lines, cols, i, monthId, today, freshId, parseTime);
      |r| <= i - 1 && forall k :: 0 <= k < |r| ==> Good(r[k], monthId)
  {
    if i > 1 {
      var a := ImportedUpTo(lines, cols, i - 1, monthId, today, freshId, parseTime);
      var b := LineProblems(lines[i - 1], i - 1, cols, monthId, today, freshId, parseTime);
      ImportedUpToFacts(lines, cols, i - 1, monthId, today, freshId, parseTime);
      LineProblemsAreGood(lines[i - 1], i - 1, cols, monthId, today, freshId, parseTime);
      GoodConcat(a, b, monthId);
    }
  }

  lemma LineProblemsAreGood(text: string, line: nat, cols: Columns, monthId: MonthId, today: Calendar.Date,
                            freshId: nat -> Id, parseTime: string -> int)
    ensures var ps := LineProblems(text, line, cols, monthId, today, freshId, parseTime);
      |ps| <= 1 && forall k :: 0 <= k < |ps| ==> Good(ps[k], monthId) && ps[k].id == freshId(line)
  {
  }

  /**
   * Fewer than two lines give nothing; otherwise at most one problem per line
   * after the header, each in the import month and with a non-empty name and pattern.
   */
  lemma ImportFacts(csvText: string, monthId: MonthId, today: Calendar.Date,
                    freshId: nat -> Id, parseTime: string -> int)
    ensures var r := Import(csvText, monthId, today, freshId, parseTime);
      && (|Lines(csvText)| < 2 ==> r == [])
      && |r| <= Max0(|Lines(csvText)| - 1)
      && forall k :: 0 <= k < |r| ==> Good(r[k], monthId)
  {
    var lines := Lines(csvText);
    if |lines| >= 2 {
      ImportedUpToFacts(lines, ColumnsOf(HeadersOf(lines[0])), |lines|, monthId, today, freshId, parseTime);
    }
  }

  function Max0(n: int): nat { if n > 0 then n else 0 }

  /** A status cell saying both "attempted" and "solved" classifies as Attempted. */
  lemma AttemptOverridesSolved(a: string, b: string, c: string)
    ensures StatusOf(a + "attempt" + b + "solv" + c) == Attempted
  {
    ContainsPart(a, "attempt", b + "solv" + c);
    assert a + "attempt" + b + "solv" + c == a + "attempt" + (b + "solv" + c);
  }

  /** "solved" alone is Solved. */
  lemma SolvedIsSolved()
    ensures StatusOf("solved") == Solved
  {
    ContainsPart("", "solv", "ed");
    assert "" + "solv" + "ed" == "solved";
    MissingCharRulesOut("solved", "attempt", 'a');
  }

  /**
   * A confidence cell holding "med" and no "g" (so no "strong"), such as
   * "weak-medium", classifies as Medium: the later override beats "weak".
   */
  lemma MediumOverridesWeak(a: string, b: string)
    requires 'g' !in a && 'g' !in b
    ensures ConfidenceOf(a + "med" + b) == Confidence.Medium
  {
    var s := a + "med" + b;
    ContainsPart(a, "med", b);
    assert 'g' !in s;
    MissingCharRulesOut(s, "strong", 'g');
  }
}
