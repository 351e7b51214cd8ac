/**
 * `extractDateTime` (index.js:819-953), which reads a requested date and a
 * requested time out of a message, and the stand-alone time parser and
 * business-hours check `parseTimeString` / `validateTime`
 * (index.js:1602-1651).
 *
 * The current date is a parameter. A date is the record of the year, the
 * JavaScript month index (0 for January) and the day of the month that the
 * extractor sets; turning it into a calendar date (JavaScript's roll-over of
 * out-of-range days and months) and printing it are not modelled.
 */
module Dates {
  import opened Optional
  import opened Text

  /** The current date as the source reads it from the clock: `getDay()` is `weekday`, 0 for Sunday. */
  datatype Today = Today(year: int, monthIndex: nat, day: nat, weekday: nat)

  type Clock = t: Today | t.monthIndex < 12 && 1 <= t.day <= 31 && t.weekday < 7
    witness Today(2026, 0, 1, 4)

  /** The date fields the extractor sets. */
  datatype DateRec = DateRec(year: int, monthIndex: int, day: int)

  datatype DateTime = DateTime(date: Option<DateRec>, time: Option<string>)

  const Months: seq<string> := ["january", "february", "march", "april", "may", "june",
                                "july", "august", "september", "october", "november", "december"]

  const DayNames: seq<string> := ["sunday", "monday", "tuesday", "wednesday", "thursday", "friday", "saturday"]

  // ---------------------------------------------------------------------
  // Matching helpers

  /** The first of `words[k..]` that occurs at `i` (an alternation tried in order). */
  function WordIndexAt(s: string, i: nat, words: seq<string>, k: nat): (r: Option<nat>)
    requires k <= |words|
    ensures r.Some? ==> k <= r.value < |words| && OccursAt(s, words[r.value], i)
    ensures r.None? ==> forall j :: k <= j < |words| ==> !OccursAt(s, words[j], i)
    decreases |words| - k
  {
    if k == |words| then None
    else if OccursAt(s, words[k], i) then Some(k)
    else WordIndexAt(s, i, words, k + 1)
  }

  /** The value of the `n` digits of `s` from `i` (what `parseInt` gives for a digit group). */
  function Number(s: string, i: nat, n: nat): nat
    requires i + n <= |s| && forall k :: i <= k < i + n ==> IsDigit(s[k])
  {
    assert AllDigits(s[i..i + n]);
    DigitsValue(s[i..i + n])
  }

  /** `(?:st|nd|rd|th)` at `i`. */
  predicate OrdinalAt(s: string, i: nat) {
    i + 2 <= |s| && s[i..i + 2] in ["st", "nd", "rd", "th"]
  }

  /** `(?:\s*,?\s*(\d{4}))?` from `j`: the four-digit year, if the group matches. */
  function YearSuffix(s: string, j: nat): Option<nat>
    requires j <= |s|
  {
    var a := j + SpaceRun(s, j);
    var b := if a < |s| && s[a] == ',' then a + 1 else a;
    var c := b + SpaceRun(s, b);
    if DigitRun(s, c, 4) == 4 then Some(Number(s, c, 4)) else None
  }

  // ---------------------------------------------------------------------
  // The date patterns (index.js:852-862)

  datatype DatePattern =
    | NumericDate       // (\d{1,2})[\/\-](\d{1,2})(?:[\/\-](\d{2,4}))?
    | MonthDay          // (month)\s+(\d{1,2})(?:st|nd|rd|th)?(?:\s*,?\s*(\d{4}))?
    | DayMonthYear      // (\d{1,2})(?:st|nd|rd|th)?\s+(month)(?:\s*,?\s*(\d{4}))?
    | DayMonth          // (\d{1,2})(?:st|nd|rd|th)?\s*(month)

  const DatePatterns: seq<DatePattern> := [NumericDate, MonthDay, DayMonthYear, DayMonth]

  /**
   * The groups a date pattern captures, as numbers: the day, the month (the
   * number written for `NumericDate`, the index in `Months` otherwise) and the
   * year digits if present.
   */
  datatype DateMatch = DateMatch(day: nat, month: nat, year: Option<nat>)

  /**
   * Each pattern is tried at `i` as a backtracking matcher would. Every part
   * can be taken in only one way that lets the rest match (a shorter digit
   * run leaves a digit where a separator, suffix or space is needed; no month
   * name begins with an ordinal suffix), so the parts are read greedily.
   */
  function DateAt(p: DatePattern, s: string, i: nat): Option<DateMatch> {
    match p
    case NumericDate =>
      var d1 := DigitRun(s, i, 2);
      var j := i + d1;
      if d1 == 0 || j >= |s| || !(s[j] == '/' || s[j] == '-') then None
      else
        var d2 := DigitRun(s, j + 1, 2);
        var k := j + 1 + d2;
        if d2 == 0 then None
        else
          var d3 := DigitRun(s, k + 1, 4);
          var year := if k < |s| && (s[k] == '/' || s[k] == '-') && d3 >= 2 then Some(Number(s, k + 1, d3)) else None;
          Some(DateMatch(Number(s, i, d1), Number(s, j + 1, d2), year))
    case MonthDay => MonthFirstAt(s, i)
    case DayMonthYear => DayFirstAt(s, i, true)
    case DayMonth => DayFirstAt(s, i, false)
  }

  function MonthFirstAt(s: string, i: nat): Option<DateMatch> {
    match WordIndexAt(s, i, Months, 0)
    case None => None
    case Some(mk) =>
      var j := i + |Months[mk]|;
      var sp := SpaceRun(s, j);
      var d := DigitRun(s, j + sp, 2);
      if sp == 0 || d == 0 then None
      else
        var e := j + sp + d;
        var e2 := if OrdinalAt(s, e) then e + 2 else e;
        Some(DateMatch(Number(s, j + sp, d), mk, YearSuffix(s, e2)))
  }

  /** The two day-first patterns: `needSpace` for `\s+` (with the optional year) rather than `\s*` (without one). */
  function DayFirstAt(s: string, i: nat, needSpace: bool): Option<DateMatch> {
    var d := DigitRun(s, i, 2);
    if d == 0 then None
    else
      var e := i + d;
      var e2 := if OrdinalAt(s, e) then e + 2 else e;
      var sp := SpaceRun(s, e2);
      if needSpace && sp == 0 then None
      else
        match WordIndexAt(s, e2 + sp, Months, 0)
        case None => None
        case Some(mk) =>
          Some(DateMatch(Number(s, i, d), mk, if needSpace then YearSuffix(s, e2 + sp + |Months[mk]|) else None))
  }

  /** `msg.match(pattern)` for a date pattern: the groups of the leftmost match. */
  function SearchDate(p: DatePattern, s: string): Option<DateMatch> {
    match Leftmost(DateP(p), s)
    case Some((_, FoundDate(m))) => Some(m)
    case _ => None
  }

  /** The date a match sets, starting from today. */
  function BuildDate(p: DatePattern, m: DateMatch, today: Clock): DateRec {
    if p == NumericDate then
      var year := match m.year case Some(y) => (if y < 100 then y + 2000 else y) case None => today.year;
      DateRec(year, m.month - 1, m.day)
    else
      DateRec(match m.year case Some(y) => y case None => today.year, m.month, m.day)
  }

  // ---------------------------------------------------------------------
  // Relative dates (index.js:824-849)

  /** `next\s+(sunday|...|saturday)` at `i`: the weekday named. */
  function NextDayAt(s: string, i: nat): Option<nat> {
    if !OccursAt(s, "next", i) then None
    else
      var sp := SpaceRun(s, i + 4);
      if sp == 0 then None else WordIndexAt(s, i + 4 + sp, DayNames, 0)
  }

  /** Days from `weekday` to the next `target`: `target - weekday`, plus 7 unless that is positive. */
  function DaysUntil(weekday: nat, target: nat): int {
    var d := target - weekday;
    if d <= 0 then d + 7 else d
  }

  /** The date set before the patterns are tried: tomorrow, next weekday, or none. */
  function RelativeDate(msg: string, today: Clock): Option<DateRec> {
    if Contains(msg, "tomorrow") then Some(DateRec(today.year, today.monthIndex, today.day + 1))
    else if Contains(msg, "next") then
      match Leftmost(NextDayP, msg)
      case Some((_, FoundDay(d))) => Some(DateRec(today.year, today.monthIndex, today.day + DaysUntil(today.weekday, d)))
      case _ => None
    else None
  }

  /** The date after the first `k` patterns have been tried; each match overwrites the previous one. */
  function DateAfter(msg: string, today: Clock, k: nat): Option<DateRec>
    requires k <= |DatePatterns|
  {
    if k == 0 then RelativeDate(msg, today)
    else
      match SearchDate(DatePatterns[k - 1], msg)
      case Some(m) => Some(BuildDate(DatePatterns[k - 1], m, today))
      case None => DateAfter(msg, today, k - 1)
  }

  // ---------------------------------------------------------------------
  // The time patterns (index.js:916-922)

  datatype TimePattern =
    | WithMeridian      // \b(\d{1,2})(?::(\d{2}))?\s*(am|pm)\b
    | Plain             // \b(\d{1,2})(?::(\d{2}))?\b(?!\s*[ap]m)

  const TimePatterns: seq<TimePattern> := [WithMeridian, Plain]

  /** The hour and minute groups as numbers, and the `am`/`pm` group. */
  datatype TimeMatch = TimeMatch(hours: nat, minutes: Option<nat>, meridian: Option<string>)

  /** `\s*[ap]m` at `e`. */
  predicate MeridianAhead(s: string, e: nat) {
    var k := e + SpaceRun(s, e);
    k + 2 <= |s| && (s[k] == 'a' || s[k] == 'p') && s[k + 1] == 'm'
  }

  /**
   * The rest of a time pattern after `n` hour digits at `i`, with the minute
   * group taken (`group`) or skipped.
   */
  function TimeTry(p: TimePattern, s: string, i: nat, n: nat, group: bool): Option<TimeMatch>
    requires 1 <= n && i + n <= |s| && forall k :: i <= k < i + n ==> IsDigit(s[k])
  {
    var hasGroup := i + n < |s| && s[i + n] == ':' && DigitRun(s, i + n + 1, 2) == 2;
    if group && !hasGroup then None
    else
      var e := if group then i + n + 3 else i + n;
      var minutes := if group then Some(Number(s, i + n + 1, 2)) else None;
      match p
      case WithMeridian =>
        var k := e + SpaceRun(s, e);
        if k + 2 <= |s| && (s[k..k + 2] == "am" || s[k..k + 2] == "pm") && Boundary(s, k + 2)
        then Some(TimeMatch(Number(s, i, n), minutes, Some(s[k..k + 2])))
        else None
      case Plain =>
        if Boundary(s, e) && !MeridianAhead(s, e) then Some(TimeMatch(Number(s, i, n), minutes, None)) else None
  }

  /** A time pattern at `i`, trying the longer hour first and, for each, the minute group before skipping it. */
  function TimeAt(p: TimePattern, s: string, i: nat): Option<TimeMatch> {
    var d := DigitRun(s, i, 2);
    if !Boundary(s, i) || d == 0 then None
    else
      match TimeTry(p, s, i, d, true)
      case Some(t) => Some(t)
      case None =>
        match TimeTry(p, s, i, d, false)
        case Some(t) => Some(t)
        case None =>
          if d == 2 then
            match TimeTry(p, s, i, 1, true)
            case Some(t) => Some(t)
            case None => TimeTry(p, s, i, 1, false)
          else None
  }

  /** `msg.match(pattern)` for a time pattern: the groups of the leftmost match. */
  function SearchTime(p: TimePattern, s: string): Option<TimeMatch> {
    match Leftmost(TimeP(p), s)
    case Some((_, FoundTime(t))) => Some(t)
    case _ => None
  }

  // ---------------------------------------------------------------------
  // Scanning for the leftmost match

  /** The patterns `extractDateTime` searches a message for. */
  datatype Pattern = DateP(dp: DatePattern) | TimeP(tp: TimePattern) | NextDayP

  /** The groups of a match, by kind of pattern. */
  datatype Found = FoundDate(date: DateMatch) | FoundTime(time: TimeMatch) | FoundDay(weekday: nat)

  /** The match of a pattern that starts at `i`, if there is one. */
  function MatchAt(p: Pattern, s: string, i: nat): Option<Found> {
    match p
    case DateP(q) => (match DateAt(q, s, i) case Some(m) => Some(FoundDate(m)) case None => None)
    case TimeP(q) => (match TimeAt(q, s, i) case Some(t) => Some(FoundTime(t)) case None => None)
    case NextDayP => (match NextDayAt(s, i) case Some(d) => Some(FoundDay(d)) case None => None)
  }

  /** What `p` matches at each position of `s`, the end included. */
  function Matches(p: Pattern, s: string): seq<Option<Found>> {
    seq(|s| + 1, j requires 0 <= j <= |s| => MatchAt(p, s, j))
  }

  /** The first position from `i` that holds a match, with that match. */
  function FirstMatch<X>(ms: seq<Option<X>>, i: nat): (r: Option<(nat, X)>)
    requires i <= |ms|
    ensures r.Some? ==> i <= r.value.0 < |ms| && ms[r.value.0] == Some(r.value.1)
    decreases |ms| - i
  {
    if i == |ms| then None
    else
      match ms[i]
      case Some(x) => Some((i, x))
      case None => FirstMatch(ms, i + 1)
  }

  /** The match found is the first one, and there is none when nothing is found. */
  lemma {:induction false} FirstMatchIsFirst<X>(ms: seq<Option<X>>, i: nat)
    requires i <= |ms|
    ensures var r := FirstMatch(ms, i);
      (r.Some? ==> forall j :: i <= j < r.value.0 ==> ms[j].None?)
      && (r.None? ==> forall j :: i <= j < |ms| ==> ms[j].None?)
    decreases |ms| - i
  {
    if i < |ms| && ms[i].None? {
      FirstMatchIsFirst(ms, i + 1);
    }
  }

  /** The leftmost match of `p` in `s`: how `String.prototype.match` with a non-global pattern scans. */
  function Leftmost(p: Pattern, s: string): (r: Option<(nat, Found)>)
    ensures r.Some? ==> r.value.0 <= |s| && MatchAt(p, s, r.value.0) == Some(r.value.1)
  {
    FirstMatch(Matches(p, s), 0)
  }

  /** No position before the leftmost match matches, and none at all when there is no match. */
  lemma LeftmostIsFirst(p: Pattern, s: string)
    ensures var r := Leftmost(p, s);
      (r.Some? ==> forall j :: 0 <= j < r.value.0 ==> MatchAt(p, s, j).None?)
      && (r.None? ==> forall j :: 0 <= j <= |s| ==> MatchAt(p, s, j).None?)
  {
    var ms := Matches(p, s);
    FirstMatchIsFirst(ms, 0);
    assert forall j :: 0 <= j <= |s| ==> ms[j] == MatchAt(p, s, j);
  }

  /**
   * The hour printed: with `am`/`pm` converted to the 24-hour clock; without,
   * an hour from 0 to 23 is brought to 1-12 (0 becomes 12).
   */
  function DisplayHour(t: TimeMatch): nat {
    var h := t.hours;
    match t.meridian
    case Some(m) => if m == "pm" && h < 12 then h + 12 else if m == "am" && h == 12 then 0 else h
    case None => if h <= 23 && h > 12 then h - 12 else if h == 0 then 12 else h
  }

  /** The suffix printed: the one typed, or else chosen from the printed hour. */
  function Period(t: TimeMatch): string {
    match t.meridian
    case Some(m) => m
    case None => if DisplayHour(t) >= 12 then "pm" else "am"
  }

  /** `` `${hours}:${minutes padded to 2}${period}` ``. */
  function FormatTime(t: TimeMatch): string {
    NatToString(DisplayHour(t)) + ":" + Pad2(NatToString(t.minutes.GetOr(0))) + Period(t)
  }

  /** The time from the first pattern, at or after `k`, that matches anywhere. */
  function TimeFrom(msg: string, k: nat): Option<string>
    requires k <= |TimePatterns|
    decreases |TimePatterns| - k
  {
    if k == |TimePatterns| then None
    else
      match SearchTime(TimePatterns[k], msg)
      case Some(t) => Some(FormatTime(t))
      case None => TimeFrom(msg, k + 1)
  }

  /** What `extractDateTime` returns. */
  function DateTimeIn(message: string, today: Clock): DateTime {
    var msg := Normalize(message);
    DateTime(DateAfter(msg, today, |DatePatterns|), TimeFrom(msg, 0))
  }

  /**
   * `extractDateTime`: a relative date, then every date pattern in turn
   * (each match overwriting the date), then the time patterns until the
   * first one matches.
   */
  method ExtractDateTime(message: string, today: Clock) returns (r: DateTime)
    ensures r == DateTimeIn(message, today)
  {
    var msg := Normalize(message);
    var date := ExtractDate(msg, today);
    var time := ExtractTime(msg);
    return DateTime(date, time);
  }

  /** The date loop of `extractDateTime`, on the normalised message. */
  method ExtractDate(msg: string, today: Clock) returns (date: Option<DateRec>)
    ensures date == DateAfter(msg, today, |DatePatterns|)
  {
    date := RelativeDate(msg, today);
    var k := 0;
    while k < |DatePatterns|
      invariant k <= |DatePatterns|
      invariant date == DateAfter(msg, today, k)
    {
      var m := SearchDate(DatePatterns[k], msg);
      if m.Some? {
        date := Some(BuildDate(DatePatterns[k], m.value, today));
      }
      assert date == DateAfter(msg, today, k + 1);
      k := k + 1;
    }
  }

  /** The time loop of `extractDateTime`, on the normalised message. */
  method ExtractTime(msg: string) returns (time: Option<string>)
    ensures time == TimeFrom(msg, 0)
  {
    time := None;
    var n := 0;
    while n < |TimePatterns|
      invariant n <= |TimePatterns|
      invariant TimeFrom(msg, 0) == TimeFrom(msg, n)
    {
      var t := SearchTime(TimePatterns[n], msg);
      if t.Some? {
        time := Some(FormatTime(t.value));
        return;
      }
      n := n + 1;
    }
  }

  // ---------------------------------------------------------------------
  // Properties of the date rules

  lemma {:induction false} LaterPatternsMiss(msg: string, today: Clock, k: nat, n: nat)
    requires k < n <= |DatePatterns|
    requires forall j :: k < j < |DatePatterns| ==> SearchDate(DatePatterns[j], msg).None?
    ensures DateAfter(msg, today, n) == DateAfter(msg, today, k + 1)
    decreases n
  {
    if n > k + 1 {
      LaterPatternsMiss(msg, today, k, n - 1);
    }
  }

  /** The last date pattern that matches decides the date, whatever came before it. */
  lemma LastDatePatternWins(message: string, today: Clock, k: nat)
    requires k < |DatePatterns|
    requires SearchDate(DatePatterns[k], Normalize(message)).Some?
    requires forall j :: k < j < |DatePatterns| ==> SearchDate(DatePatterns[j], Normalize(message)).None?
    ensures DateTimeIn(message, today).date ==
      Some(BuildDate(DatePatterns[k], SearchDate(DatePatterns[k], Normalize(message)).value, today))
  {
    LaterPatternsMiss(Normalize(message), today, k, |DatePatterns|);
  }

  /** Without any pattern match the relative date stands (or there is none). */
  lemma NoPatternKeepsRelative(message: string, today: Clock)
    requires forall j :: 0 <= j < |DatePatterns| ==> SearchDate(DatePatterns[j], Normalize(message)).None?
    ensures DateTimeIn(message, today).date == RelativeDate(Normalize(message), today)
  {
    var msg := Normalize(message);
    assert DateAfter(msg, today, 4) == DateAfter(msg, today, 3) == DateAfter(msg, today, 2)
      == DateAfter(msg, today, 1) == DateAfter(msg, today, 0);
  }

  /** Where the day-month-year pattern matches, the day-month pattern matches the same day and month, with no year. */
  lemma DayMonthYearImpliesDayMonth(s: string, i: nat)
    requires DateAt(DayMonthYear, s, i).Some?
    ensures DateAt(DayMonth, s, i) == Some(DateAt(DayMonthYear, s, i).value.(year := None))
  {
  }

  /** Wherever a day-month-year phrase is found, a day-month phrase is found too, without a year. */
  lemma DayMonthFound(msg: string)
    requires SearchDate(DayMonthYear, msg).Some? || SearchDate(DayMonth, msg).Some?
    ensures SearchDate(DayMonth, msg).Some? && SearchDate(DayMonth, msg).value.year.None?
  {
    if SearchDate(DayMonthYear, msg).Some? {
      var x := Leftmost(DateP(DayMonthYear), msg).value;
      DayMonthYearImpliesDayMonth(msg, x.0);
      LeftmostIsFirst(DateP(DayMonth), msg);
      assert MatchAt(DateP(DayMonth), msg, x.0).Some?;
    }
    var y := Leftmost(DateP(DayMonth), msg).value;
    assert MatchAt(DateP(DayMonth), msg, y.0) == Some(y.1);
  }

  /**
   * A message that writes a day before a month ("15 october 2027") keeps
   * only the current year: the last pattern, `DayMonth`, matches and has no
   * year group.
   */
  lemma DayBeforeMonthLosesYear(message: string, today: Clock)
    requires SearchDate(DayMonthYear, Normalize(message)).Some? || SearchDate(DayMonth, Normalize(message)).Some?
    ensures DateTimeIn(message, today).date.Some?
    ensures DateTimeIn(message, today).date.value.year == today.year
  {
    var msg := Normalize(message);
    DayMonthFound(msg);
    assert DateAfter(msg, today, 4) == Some(BuildDate(DayMonth, SearchDate(DayMonth, msg).value, today));
  }

  /** "next <weekday>" is between one and seven days ahead, never today, and falls on that weekday. */
  lemma DaysUntilBounds(weekday: nat, target: nat)
    requires weekday < 7 && target < 7
    ensures 1 <= DaysUntil(weekday, target) <= 7
    ensures (weekday + DaysUntil(weekday, target)) % 7 == target
  {
  }

  /** The relative date of a "next <weekday>" message (without "tomorrow"). */
  lemma NextWeekday(msg: string, today: Clock)
    requires !Contains(msg, "tomorrow")
    requires RelativeDate(msg, today).Some?
    ensures var d := RelativeDate(msg, today).value;
      d.year == today.year && d.monthIndex == today.monthIndex && today.day + 1 <= d.day <= today.day + 7
  {
    var x := Leftmost(NextDayP, msg).value;
    assert MatchAt(NextDayP, msg, x.0) == Some(x.1);
    assert x.1.weekday < 7;
    DaysUntilBounds(today.weekday, x.1.weekday);
  }

  // ---------------------------------------------------------------------
  // Properties of the time rules

  /** When a time with `am`/`pm` appears anywhere, it decides the time, wherever a plain number appears. */
  lemma MeridianTimeFirst(message: string, today: Clock)
    requires SearchTime(WithMeridian, Normalize(message)).Some?
    ensures DateTimeIn(message, today).time == Some(FormatTime(SearchTime(WithMeridian, Normalize(message)).value))
  {
  }

  /** A time match has at most two-digit hours and minutes, and its meridian if any is `am` or `pm`. */
  lemma TimeMatchBounds(p: TimePattern, s: string, i: nat)
    requires TimeAt(p, s, i).Some?
    ensures GoodTime(p, TimeAt(p, s, i).value)
  {
    var d := DigitRun(s, i, 2);
    TimeTryBounds(p, s, i, d, true);
    TimeTryBounds(p, s, i, d, false);
    if d == 2 {
      TimeTryBounds(p, s, i, 1, true);
      TimeTryBounds(p, s, i, 1, false);
    }
  }

  /** Two-digit hours and minutes, and a meridian exactly for the meridian pattern, which is `am` or `pm`. */
  predicate GoodTime(p: TimePattern, t: TimeMatch) {
    t.hours < 100 && (t.minutes.Some? ==> t.minutes.value < 100)
    && (t.meridian.Some? <==> p == WithMeridian)
    && (t.meridian.Some? ==> t.meridian.value in ["am", "pm"])
  }

  lemma TimeTryBounds(p: TimePattern, s: string, i: nat, n: nat, group: bool)
    requires 1 <= n <= 2 && i + n <= |s| && forall k :: i <= k < i + n ==> IsDigit(s[k])
    ensures TimeTry(p, s, i, n, group).Some? ==> GoodTime(p, TimeTry(p, s, i, n, group).value)
  {
    NumberBound(s, i, n);
    if i + n < |s| && s[i + n] == ':' && DigitRun(s, i + n + 1, 2) == 2 {
      NumberBound(s, i + n + 1, 2);
    }
  }

  lemma NumberBound(s: string, i: nat, n: nat)
    requires n <= 2 && i + n <= |s| && forall k :: i <= k < i + n ==> IsDigit(s[k])
    ensures Number(s, i, n) < 100
  {
    var t := s[i..i + n];
    if n == 2 {
      TwoDigitsValue(t);
    } else if n == 1 {
      OneDigitValue(t);
    }
  }

  /** The minutes are always printed as two digits, and the suffix is `am` or `pm`. */
  lemma FormatTimeShape(t: TimeMatch)
    requires t.minutes.Some? ==> t.minutes.value < 100
    requires t.meridian.Some? ==> t.meridian.value in ["am", "pm"]
    ensures var mm := Pad2(NatToString(t.minutes.GetOr(0)));
      |mm| == 2 && AllDigits(mm) && Period(t) in ["am", "pm"]
      && FormatTime(t) == NatToString(DisplayHour(t)) + ":" + mm + Period(t)
  {
    var s := NatToString(t.minutes.GetOr(0));
    var mm := Pad2(s);
    if |s| < 2 {
      assert mm == "0" + s;
    }
  }

  /** The 24-hour value of a 12-hour clock reading, defined independently of the extractor. */
  function TwentyFourHour(h: nat, meridian: string): nat
    requires 1 <= h <= 12
  {
    h % 12 + (if meridian == "pm" then 12 else 0)
  }

  /** With `am`/`pm`, an hour from 1 to 12 is printed in 24-hour form followed by the typed suffix ("2pm" gives "14:00pm"). */
  lemma MeridianHourIs24Hour(t: TimeMatch)
    requires t.meridian.Some? && t.meridian.value in ["am", "pm"] && 1 <= t.hours <= 12
    ensures DisplayHour(t) == TwentyFourHour(t.hours, t.meridian.value)
    ensures Period(t) == t.meridian.value
  {
  }

  /** The meridian pattern reads "2pm" as hour 2 with `pm`. */
  lemma TwoPmMatch(msg: string)
    requires msg == "2pm"
    ensures SearchTime(WithMeridian, msg) == Some(TimeMatch(2, None, Some("pm")))
  {
    var t := TimeMatch(2, None, Some("pm"));
    assert DigitRun(msg, 0, 2) == 1;
    assert Boundary(msg, 0) && Boundary(msg, 3);
    assert TimeTry(WithMeridian, msg, 0, 1, true).None?;
    assert SpaceRun(msg, 1) == 0;
    assert msg[1..3] == "pm";
    assert Number(msg, 0, 1) == 2 by {
      OneDigitValue(msg[0..1]);
    }
    assert TimeTry(WithMeridian, msg, 0, 1, false) == Some(t);
    assert Matches(TimeP(WithMeridian), msg)[0] == Some(FoundTime(t));
  }

  /** How a time is printed, given the printed hour and minutes. */
  lemma PrintedTime(t: TimeMatch, hh: string, mm: string)
    requires NatToString(DisplayHour(t)) == hh && Pad2(NatToString(t.minutes.GetOr(0))) == mm
    ensures FormatTime(t) == hh + ":" + mm + Period(t)
  {
  }

  /** "2pm" is extracted as "14:00pm": the time part of `DateTimeIn` is `TimeFrom` of the normalised message. */
  lemma TwoPm(msg: string)
    requires msg == "2pm"
    ensures TimeFrom(msg, 0) == Some("14:00pm")
  {
    var t := TimeMatch(2, None, Some("pm"));
    TwoPmMatch(msg);
    PrintedTime(t, "14", "00");
    assert Period(t) == "pm";
    assert FormatTime(t) == "14:00pm";
    assert TimePatterns[0] == WithMeridian;
  }

  /** The meridian pattern reads "12am" as hour 12 with `am`. */
  lemma TwelveAmMatch(msg: string)
    requires msg == "12am"
    ensures SearchTime(WithMeridian, msg) == Some(TimeMatch(12, None, Some("am")))
  {
    var t := TimeMatch(12, None, Some("am"));
    assert DigitRun(msg, 0, 2) == 2;
    assert Boundary(msg, 0) && Boundary(msg, 4);
    assert Number(msg, 0, 2) == 12 by { TwoDigitsValue(msg[0..2]); }
    assert TimeTry(WithMeridian, msg, 0, 2, true).None?;
    assert SpaceRun(msg, 2) == 0;
    assert msg[2..4] == "am";
    assert TimeTry(WithMeridian, msg, 0, 2, false) == Some(t);
    assert Matches(TimeP(WithMeridian), msg)[0] == Some(FoundTime(t));
  }

  /** "12am" is extracted as "0:00am". */
  lemma TwelveAm(msg: string)
    requires msg == "12am"
    ensures TimeFrom(msg, 0) == Some("0:00am")
  {
    var t := TimeMatch(12, None, Some("am"));
    TwelveAmMatch(msg);
    PrintedTime(t, "0", "00");
    assert Period(t) == "am";
    assert FormatTime(t) == "0:00am";
    assert TimePatterns[0] == WithMeridian;
  }

  // ---------------------------------------------------------------------
  // parseTimeString and validateTime (index.js:1602-1651)

  /** The hours and minutes `parseTimeString` returns; `None` stands for `NaN`. */
  datatype ClockReading = ClockReading(hours: Option<int>, minutes: Option<int>)

  /** `.replace(/\s/g, '')`. */
  function RemoveSpaces(s: string): (r: string)
    ensures forall i :: 0 <= i < |r| ==> !IsSpace(r[i])
  {
    if s == [] then "" else (if IsSpace(s[0]) then "" else [s[0]]) + RemoveSpaces(s[1..])
  }

  /** Whitespace is dropped and every other character kept, character by character and in order. */
  lemma {:induction false} RemoveSpacesSplits(a: string, b: string)
    ensures RemoveSpaces(a + b) == RemoveSpaces(a) + RemoveSpaces(b)
    decreases |a|
  {
    if a == [] {
      assert a + b == b;
    } else {
      assert (a + b)[1..] == a[1..] + b;
      RemoveSpacesSplits(a[1..], b);
    }
  }

  lemma RemoveSpacesOne(c: char)
    ensures RemoveSpaces([c]) == if IsSpace(c) then [] else [c]
  {
    assert [c][1..] == [];
  }




  /** `parseTimeString`. */
  function ParseTimeString(timeStr: string): ClockReading {
    ReadClock(RemoveSpaces(Lower(timeStr)))
  }

  /** The reading of a lower-cased time without spaces. */
  function ReadClock(t: string): ClockReading {
    var parts := SplitOn(t, ':');
    var h := ParseInt(parts[0]);  // the whole text when it has no colon
    var m := if ':' in t then ParseInt(parts[1]) else Some(0);
    ClockReading(Adjusted(t, h), m)
  }

  /** The hour after the `pm`/`am` adjustment, which looks for the suffix anywhere in the text. */
  function Adjusted(t: string, h: Option<int>): Option<int> {
    if Contains(t, "pm") && h.Some? && h.value < 12 then Some(h.value + 12)
    else if Contains(t, "am") && h == Some(12) then Some(0)
    else h
  }

  /** `validateTime`: hours from 9 to 20 and minutes from 0 to 59; a `NaN` fails neither comparison. */
  predicate ValidateTime(timeStr: string) {
    var r := ParseTimeString(timeStr);
    !(r.hours.Some? && (r.hours.value < 9 || r.hours.value > 20))
    && !(r.minutes.Some? && (r.minutes.value < 0 || r.minutes.value > 59))
  }

  /** A time with no number in it ("noon") passes the business-hours check, since `NaN` compares false. */
  lemma NoonPasses(s: string)
    requires s == "noon"
    ensures ParseTimeString(s).hours.None?
    ensures ValidateTime(s)
  {
    var t := RemoveSpaces(Lower(s));
    assert Lower(s) == s;
    RemoveSpacesIdentity(s);
    assert ':' !in t;
    assert TrimStart(t) == t;
    assert RadixPrefix(t, false) == 0;
  }

  lemma {:induction false} SplitAtOnlyColon(a: string, b: string)
    requires ':' !in a && ':' !in b
    ensures SplitOn(a + ":" + b, ':') == [a, b]
  {
    var s := a + ":" + b;
    IndexOfCharAfter(a, ':', b);
    assert s[..|a|] == a;
    assert s[|a| + 1..] == b;
  }

  lemma {:induction false} IndexOfCharAfter(a: string, c: char, b: string)
    requires c !in a
    ensures c in a + [c] + b && IndexOfChar(a + [c] + b, c) == |a|
  {
    var s := a + [c] + b;
    assert s[|a|] == c;
    if a != [] {
      assert s[1..] == a[1..] + [c] + b;
      IndexOfCharAfter(a[1..], c, b);
    }
  }

  lemma {:induction false} RemoveSpacesIdentity(s: string)
    requires forall i :: 0 <= i < |s| ==> !IsSpace(s[i])
    ensures RemoveSpaces(s) == s
  {
    if s != [] {
      RemoveSpacesIdentity(s[1..]);
      assert s == [s[0]] + s[1..];
    }
  }

  /** Two-digit padding keeps the value of a number below 100. */
  lemma PaddedValue(n: nat)
    requires n < 100
    ensures AllDigits(Pad2(NatToString(n))) && DigitsValue(Pad2(NatToString(n))) == n
  {
    var d := NatToString(n);
    var mm := Pad2(d);
    if |d| < 2 {
      assert mm == "0" + d;
      OneDigitValue(d);
      TwoDigitsValue(mm);
    }
  }

  /** A printed time has no capital letters and no spaces, so `parseTimeString` reads it as it is. */
  lemma PrintedIsNormal(s: string)
    requires forall i :: 0 <= i < |s| ==> IsDigit(s[i]) || s[i] in ":amp"
    ensures RemoveSpaces(Lower(s)) == s
  {
    assert Lower(s) == s;
    RemoveSpacesIdentity(s);
  }

  /** A text contains what it ends with. */
  lemma ContainsEnd(a: string, b: string)
    ensures Contains(a + b, b)
  {
    assert (a + b)[|a|..|a| + |b|] == b;
    ContainsAt(a + b, b, |a|);
  }

  /** The hour a reading with suffix `p` ends up with. */
  function TwentyFourHourOf(v: int, p: string): int {
    if p == "pm" && v < 12 then v + 12 else if p == "am" && v == 12 then 0 else v
  }

  /** `parseTimeString` on a printed time: the hour digits, `:`, two minute digits and a suffix. */
  lemma ParsePrinted(hh: string, mm: string, p: string)
    requires |hh| >= 1 && AllDigits(hh) && |mm| == 2 && AllDigits(mm) && p in ["am", "pm"]
    ensures ParseTimeString(hh + ":" + mm + p) ==
      ClockReading(Some(TwentyFourHourOf(DigitsValue(hh), p)), Some(DigitsValue(mm)))
  {
    var s := hh + ":" + mm + p;
    assert s == hh + ":" + (mm + p);
    PrintedIsNormal(s);
    assert s[|hh|] == ':';
    SplitAtOnlyColon(hh, mm + p);
    ParseIntDigits(hh);
    assert (mm + p)[..2] == mm;
    ParseIntLeading(mm + p, 2);
    ContainsEnd(hh + ":" + mm, p);
    if Contains(s, "pm") {
      PeriodOnlyAtEnd(hh, mm, p, "pm");
    }
    if Contains(s, "am") {
      PeriodOnlyAtEnd(hh, mm, p, "am");
    }
    assert ':' in s;
    var v := DigitsValue(hh);
    ReadClockOf(s, v, DigitsValue(mm), p);
    assert ParseTimeString(s) == ReadClock(s);
  }

  /** `ReadClock` of a text with one colon, given what its parts parse to and which suffix it contains. */
  lemma ReadClockOf(t: string, v: int, w: int, p: string)
    requires ':' in t && ParseInt(SplitOn(t, ':')[0]) == Some(v) && ParseInt(SplitOn(t, ':')[1]) == Some(w)
    requires p in ["am", "pm"] && (Contains(t, "pm") <==> p == "pm") && (Contains(t, "am") <==> p == "am")
    ensures ReadClock(t) == ClockReading(Some(TwentyFourHourOf(v, p)), Some(w))
  {
    AdjustedBySuffix(t, v, p);
    assert ReadClock(t) == ClockReading(Adjusted(t, Some(v)), Some(w));
  }

  lemma AdjustedBySuffix(t: string, v: int, p: string)
    requires p in ["am", "pm"] && (Contains(t, "pm") <==> p == "pm") && (Contains(t, "am") <==> p == "am")
    ensures Adjusted(t, Some(v)) == Some(TwentyFourHourOf(v, p))
  {
  }

  /**
   * Every extracted time reads back, through `parseTimeString`, as the hour
   * and minutes it prints: so a time typed with `am`/`pm` is read in 24-hour
   * form, while a plain "14" (printed "2:00am") is read as 2.
   */
  lemma ExtractedTimeReadsBack(t: TimeMatch)
    requires t.minutes.Some? ==> t.minutes.value < 100
    requires t.meridian.Some? ==> t.meridian.value in ["am", "pm"]
    ensures ParseTimeString(FormatTime(t)) == ClockReading(Some(DisplayHour(t)), Some(t.minutes.GetOr(0)))
  {
    FormatTimeShape(t);
    PaddedValue(t.minutes.GetOr(0));
    ParsePrinted(NatToString(DisplayHour(t)), Pad2(NatToString(t.minutes.GetOr(0))), Period(t));
  }

  /** The only letters of a printed time are its suffix. */
  lemma PeriodOnlyAtEnd(hh: string, mm: string, p: string, q: string)
    requires AllDigits(hh) && AllDigits(mm) && p in ["am", "pm"] && q in ["am", "pm"]
    requires Contains(hh + ":" + mm + p, q)
    ensures p == q
  {
    var s := hh + ":" + mm + p;
    ContainsIff(s, q);
    var i :| OccursAt(s, q, i);
    assert s[i] == q[0];
    assert s[i + 1] == q[1];
    assert i == |s| - 2;
    assert s[|s| - 2..] == p;
  }
}
