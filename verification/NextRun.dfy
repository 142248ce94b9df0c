/**
 * app/services/schedule_utils.py in a zone with a fixed offset. Instants are whole microseconds; a local instant
 * counts from the midnight that begins 1 January of year 1, a Monday.
 */
module NextRun {
  import opened Wrappers
  import opened Text
  import opened Calendar

  const MINUTE := 60_000_000
  const DAY := 86_400_000_000

  // ---------------------------------------------------------------- sanitize_daily_time

  /** raw.split(":") */
  function SplitColon(s: string): (parts: seq<string>)
    ensures parts != []
  {
    if s == [] then [[]]
    else
      var rest := SplitColon(s[1..]);
      if s[0] == ':' then [[]] + rest else [[s[0]] + rest[0]] + rest[1..]
  }

  /** Digits, with single underscores allowed between two of them. */
  predicate DigitGroups(s: string) {
    && s != [] && IsDigit(s[0]) && IsDigit(s[|s| - 1])
    && (forall i | 0 <= i < |s| :: IsDigit(s[i]) || s[i] == '_')
    && (forall i | 0 < i < |s| :: !(s[i] == '_' && s[i - 1] == '_'))
  }

  function OnlyDigits(s: string): (d: string)
    ensures AllDigits(d)
  {
    if s == [] then []
    else
      var before := OnlyDigits(s[..|s| - 1]);
      if IsDigit(s[|s| - 1]) then before + [s[|s| - 1]] else before
  }

  /** int(s), for ASCII digits. */
  function PyInt(s: string): Option<int> {
    var t := Strip(s);
    var signed := t != [] && (t[0] == '-' || t[0] == '+');
    var digits := if signed then t[1..] else t;
    if !DigitGroups(digits) then None
    else
      var value: int := NatValue(OnlyDigits(digits));
      Some(if signed && t[0] == '-' then -value else value)
  }

  datatype Clock = Clock(hour: nat, minute: nat)

  predicate ValidClock(c: Clock) {
    c.hour < 24 && c.minute < 60
  }

  function ParseClock(raw: string): (r: Option<Clock>)
    ensures r.Some? ==> ValidClock(r.value)
  {
    var parts := SplitColon(Strip(raw));
    if |parts| != 2 then None
    else
      var hh, mm := PyInt(parts[0]), PyInt(parts[1]);
      if hh.Some? && mm.Some? && 0 <= hh.value <= 23 && 0 <= mm.value <= 59 then Some(Clock(hh.value, mm.value))
      else None
  }

  function TwoDigits(n: nat): string
    requires n < 100
  {
    [DigitChar(n / 10), DigitChar(n % 10)]
  }

  function ClockText(c: Clock): string
    requires ValidClock(c)
  {
    TwoDigits(c.hour) + ":" + TwoDigits(c.minute)
  }

  function SanitizeDailyTime(raw: string, default: Clock): string
    requires ValidClock(default)
  {
    var c := ParseClock(raw);
    ClockText(if c.Some? then c.value else default)
  }

  lemma TwoDigitsKept(a: char, b: char)
    requires IsDigit(a) && IsDigit(b)
    ensures OnlyDigits([a, b]) == [a, b] && NatValue([a, b]) == DigitValue(a) * 10 + DigitValue(b)
  {
    assert [a, b][..1] == [a] && [a][..0] == [];
    assert OnlyDigits([a]) == [a];
    assert NatValue([a]) == DigitValue(a);
  }

  lemma TwoDigitsRead(a: char, b: char)
    requires IsDigit(a) && IsDigit(b)
    ensures PyInt([a, b]) == Some(DigitValue(a) * 10 + DigitValue(b))
  {
    StripSolid([a, b]);
    TwoDigitsKept(a, b);
    assert DigitGroups([a, b]);
  }

  lemma TwoDigitsValue(n: nat)
    requires n < 100
    ensures PyInt(TwoDigits(n)) == Some(n)
  {
    var a, b := DigitChar(n / 10), DigitChar(n % 10);
    TwoDigitsRead(a, b);
    assert DigitValue(a) * 10 + DigitValue(b) == n;
    assert TwoDigits(n) == [a, b];
  }

  lemma SplitAtColon(a: string, b: string)
    requires ':' !in a && ':' !in b
    ensures SplitColon(a + ":" + b) == [a, b]
  {
    SplitNoColon(b);
    SplitPrefix(a, b);
  }

  lemma SplitStep(s: string, rest: string, parts: seq<string>)
    requires s != [] && s[0] != ':' && s[1..] == rest && SplitColon(rest) == parts
    ensures SplitColon(s) == [[s[0]] + parts[0]] + parts[1..]
  {
  }

  lemma {:induction false} SplitNoColon(b: string)
    requires ':' !in b
    ensures SplitColon(b) == [b]
    decreases |b|
  {
    if b != [] {
      assert b[0] in b;
      assert forall c | c in b[1..] :: c in b;
      SplitNoColon(b[1..]);
      SplitStep(b, b[1..], [b[1..]]);
      assert [b[0]] + b[1..] == b;
    }
  }

  lemma {:induction false} SplitPrefix(a: string, b: string)
    requires ':' !in a && SplitColon(b) == [b]
    ensures SplitColon(a + ":" + b) == [a, b]
    decreases |a|
  {
    var s := a + ":" + b;
    if a == [] {
      assert s[0] == ':' && s[1..] == b;
    } else {
      assert a[0] in a;
      assert forall c | c in a[1..] :: c in a;
      SplitPrefix(a[1..], b);
      assert s[0] == a[0] && s[1..] == a[1..] + ":" + b;
      SplitStep(s, a[1..] + ":" + b, [a[1..], b]);
      assert [a[0]] + a[1..] == a;
    }
  }

  /** A sanitised time reads back as the time it shows; sanitising again changes nothing. */
  lemma ClockRoundTrip(c: Clock)
    requires ValidClock(c)
    ensures ParseClock(ClockText(c)) == Some(c)
  {
    var a, b := TwoDigits(c.hour), TwoDigits(c.minute);
    StripSolid(a + ":" + b);
    SplitAtColon(a, b);
    TwoDigitsValue(c.hour);
    TwoDigitsValue(c.minute);
  }

  lemma SanitizeTwice(raw: string, default: Clock, other: Clock)
    requires ValidClock(default) && ValidClock(other)
    ensures ParseClock(SanitizeDailyTime(raw, default)).Some?
    ensures SanitizeDailyTime(SanitizeDailyTime(raw, default), other) == SanitizeDailyTime(raw, default)
  {
    var c := ParseClock(raw);
    ClockRoundTrip(if c.Some? then c.value else default);
  }

  // ---------------------------------------------------------------- the next run

  /** hh, mm = map(int, sanitize_daily_time(...).split(":")) */
  function SanitizedClock(raw: string, default: Clock): (c: Clock)
    requires ValidClock(default)
    ensures ValidClock(c)
  {
    SanitizeTwice(raw, default, default);
    ParseClock(SanitizeDailyTime(raw, default)).value
  }

  function TimeOfDay(c: Clock): int {
    (c.hour * 60 + c.minute) * MINUTE
  }

  /** local.replace(hour, minute, second=0, microsecond=0) */
  function AtClock(local: nat, c: Clock): nat {
    local / DAY * DAY + TimeOfDay(c)
  }

  /** compute_next_daily_run_at, on local instants. */
  function NextDailyLocal(time: string, reference: nat): nat {
    var candidate := AtClock(reference, SanitizedClock(time, Clock(2, 0)));
    if candidate <= reference then candidate + DAY else candidate
  }

  function WeekdayOf(day: int): int {
    day % 7
  }

  function Clamp(x: int, low: int, high: int): int
    requires low <= high
  {
    if x < low then low else if x > high then high else x
  }

  datatype Rule = Daily | Weekly(weekday: int) | Monthly(day: int)

  predicate ValidRule(rule: Rule) {
    match rule
    case Daily => true
    case Weekly(weekday) => 0 <= weekday <= 6
    case Monthly(day) => 1 <= day <= 31
  }

  /** The rule a schedule stands for: unknown frequencies are daily, missing or wild days are filled in and clamped. */
  function RuleOf(frequency: string, dayOfWeek: Option<int>, dayOfMonth: Option<int>, reference: nat): (rule: Rule)
    ensures ValidRule(rule)
  {
    var f := Lower(Strip(if frequency != "" then frequency else "daily"));
    if f == "weekly" then
      Weekly(Clamp(if dayOfWeek.Some? then dayOfWeek.value else WeekdayOf(reference / DAY), 0, 6))
    else if f == "monthly" then
      Monthly(Clamp(if dayOfMonth.Some? && dayOfMonth.value != 0 then dayOfMonth.value else 1, 1, 31))
    else Daily
  }

  function MonthDay(year: int, month: int, target: int): Date {
    var last := DaysIn(year, month);
    Date(year, month, if target < last then target else last)
  }

  /** The branches of compute_next_run_at, on local instants. */
  function NextByRule(rule: Rule, clock: Clock, reference: nat): int
    requires ValidRule(rule) && ValidClock(clock)
  {
    match rule
    case Weekly(weekday) =>
      var today := AtClock(reference, clock);
      var candidate := today + (weekday - WeekdayOf(today / DAY)) % 7 * DAY;
      if candidate <= reference then candidate + 7 * DAY else candidate
    case Monthly(target) =>
      var date := DateOf(reference / DAY);
      var candidate := DayNumber(MonthDay(date.year, date.month, target)) * DAY + TimeOfDay(clock);
      if candidate <= reference then
        var next := NextMonth(date.year, date.month);
        DayNumber(MonthDay(next.0, next.1, target)) * DAY + TimeOfDay(clock)
      else candidate
    case Daily => NextDailyLocal(ClockText(clock), reference)
  }

  function NextMonth(year: int, month: int): (r: (int, int))
    requires 1 <= month <= 12
    ensures 1 <= r.1 <= 12
  {
    if month + 1 > 12 then (year + 1, 1) else (year, month + 1)
  }

  /** compute_next_run_at, on local instants. */
  function NextRunLocal(time: string, frequency: string, dayOfWeek: Option<int>, dayOfMonth: Option<int>,
                        reference: nat): int
  {
    NextByRule(RuleOf(frequency, dayOfWeek, dayOfMonth, reference), SanitizedClock(time, Clock(0, 0)), reference)
  }

  /** A UTC reference in the zone `offset` microseconds ahead of UTC. */
  function NextByRuleUtc(rule: Rule, clock: Clock, reference: int, offset: int): int
    requires ValidRule(rule) && ValidClock(clock) && reference + offset >= 0
  {
    NextByRule(rule, clock, reference + offset) - offset
  }

  /** compute_next_run_at for a UTC reference. */
  function NextRunUtc(time: string, frequency: string, dayOfWeek: Option<int>, dayOfMonth: Option<int>,
                      reference: int, offset: int): int
    requires reference + offset >= 0
  {
    NextByRuleUtc(RuleOf(frequency, dayOfWeek, dayOfMonth, reference + offset), SanitizedClock(time, Clock(0, 0)),
                  reference, offset)
  }

  // ---------------------------------------------------------------- it is the first one

  /** The target day, or the last of a month that is shorter. */
  predicate OnMonthDay(date: Date, target: int) {
    date.day == target || (date.day == DaysIn(date.year, date.month) && date.day < target)
  }

  /** The local instants a schedule names. */
  ghost predicate Fits(rule: Rule, c: Clock, x: int) {
    && x >= 0 && x % DAY == TimeOfDay(c)
    && match rule
       case Daily => true
       case Weekly(weekday) => WeekdayOf(x / DAY) == weekday
       case Monthly(target) => OnMonthDay(DateOf(x / DAY), target)
  }

  /** r is the first instant after the reference that the rule names. */
  ghost predicate IsFirst(rule: Rule, c: Clock, reference: int, r: int) {
    && Fits(rule, c, r) && reference < r
    && forall x | reference < x < r :: !Fits(rule, c, x)
  }

  /** A day and a time of day make an instant, and only one. */
  lemma AtDay(day: int, tod: int)
    requires 0 <= tod < DAY
    ensures (day * DAY + tod) / DAY == day && (day * DAY + tod) % DAY == tod
  {
  }

  lemma DayOf(x: int)
    ensures x == x / DAY * DAY + x % DAY && 0 <= x % DAY < DAY
  {
  }

  lemma TimeInDay(c: Clock)
    requires ValidClock(c)
    ensures 0 <= TimeOfDay(c) < DAY
  {
  }

  /** Two instants at one time of day lie whole days apart. */
  lemma WholeDays(x: int, day: int, tod: int)
    requires 0 <= tod < DAY && x % DAY == tod
    ensures x == x / DAY * DAY + tod
    ensures x > day * DAY + tod <==> x / DAY > day
    ensures x < day * DAY + tod <==> x / DAY < day
  {
    DayOf(x);
    var d := x / DAY;
    assert d > day ==> d * DAY >= (day + 1) * DAY;
    assert d < day ==> (d + 1) * DAY <= day * DAY;
  }

  lemma NoneBetweenDays(day: int, tod: int, c: Clock, x: int)
    requires 0 <= tod < DAY && tod == TimeOfDay(c)
    requires day * DAY + tod < x < (day + 1) * DAY + tod
    ensures x % DAY != tod
  {
    if x % DAY == tod {
      WholeDays(x, day, tod);
      WholeDays(x, day + 1, tod);
    }
  }

  lemma DailyIsFirst(time: string, reference: nat)
    ensures var c := SanitizedClock(time, Clock(2, 0));
            var r := NextDailyLocal(time, reference);
            IsFirst(Daily, c, reference, r) && r <= reference + DAY
  {
    var c := SanitizedClock(time, Clock(2, 0));
    FirstAtClock(c, reference, NextDailyLocal(time, reference));
  }

  lemma FirstAtClock(c: Clock, reference: nat, r: int)
    requires ValidClock(c)
    requires r == var candidate := AtClock(reference, c); if candidate <= reference then candidate + DAY else candidate
    ensures IsFirst(Daily, c, reference, r) && r <= reference + DAY
  {
    var day, tod := reference / DAY, TimeOfDay(c);
    TimeInDay(c);
    DayOf(reference);
    var last := if r == day * DAY + tod then day else day + 1;
    assert (day + 1) * DAY + tod == day * DAY + tod + DAY && (last - 1) * DAY + tod == r - DAY;
    AtDay(last, tod);
    forall x | reference < x < r ensures !Fits(Daily, c, x) {
      NoneBetweenDays(last - 1, tod, c, x);
    }
  }

  predicate DayFits(rule: Rule, day: nat) {
    match rule
    case Daily => true
    case Weekly(weekday) => WeekdayOf(day) == weekday
    case Monthly(target) => OnMonthDay(DateOf(day), target)
  }

  /** It is enough that the chosen day fits and that no earlier day whose instant is still to come does. */
  lemma FirstOfDays(rule: Rule, c: Clock, reference: nat, target: nat)
    requires ValidClock(c) && DayFits(rule, target) && reference < target * DAY + TimeOfDay(c)
    requires forall d: nat | reference / DAY <= d < target && d * DAY + TimeOfDay(c) > reference :: !DayFits(rule, d)
    ensures IsFirst(rule, c, reference, target * DAY + TimeOfDay(c))
  {
    var tod := TimeOfDay(c);
    TimeInDay(c);
    DayOf(reference);
    AtDay(target, tod);
    forall x | reference < x < target * DAY + tod ensures !Fits(rule, c, x) {
      if x % DAY == tod {
        WholeDays(x, reference / DAY, tod);
        WholeDays(x, target, tod);
        DaysRise(x, reference);
        var d: nat := x / DAY;
        assert d * DAY + tod == x && !DayFits(rule, d);
      }
    }
  }

  lemma DaysRise(x: int, reference: int)
    requires x >= reference
    ensures x / DAY >= reference / DAY
  {
  }

  lemma AheadIsFirst(day: int, weekday: int, ahead: int)
    requires 0 <= weekday <= 6 && ahead == (weekday - day % 7) % 7
    ensures 0 <= ahead <= 6 && (day + ahead) % 7 == weekday && (day + ahead + 7) % 7 == weekday
    ensures forall d | day <= d < day + ahead + 7 && d != day + ahead :: d % 7 != weekday
  {
  }

  lemma WeeklyIsFirst(c: Clock, weekday: int, reference: nat)
    requires ValidClock(c) && 0 <= weekday <= 6
    ensures var today := AtClock(reference, c);
            var candidate := today + (weekday - WeekdayOf(today / DAY)) % 7 * DAY;
            var r := if candidate <= reference then candidate + 7 * DAY else candidate;
            IsFirst(Weekly(weekday), c, reference, r) && r <= reference + 7 * DAY
  {
    var day: nat, tod := reference / DAY, TimeOfDay(c);
    TimeInDay(c);
    DayOf(reference);
    AtDay(day, tod);
    var ahead := (weekday - day % 7) % 7;
    AheadIsFirst(day, weekday, ahead);
    var late := day * DAY + tod + ahead * DAY <= reference;
    var target: nat := if late then day + ahead + 7 else day + ahead;
    assert target * DAY + tod == day * DAY + tod + ahead * DAY + (if late then 7 * DAY else 0);
    assert (day + ahead) * DAY + tod == day * DAY + tod + ahead * DAY;
    FirstOfDays(Weekly(weekday), c, reference, target);
  }

  // ---------------------------------------------------------------- months

  function FirstDay(year: int, month: int): int
    requires 1 <= month <= 12
  {
    DayNumber(Date(year, month, 1))
  }

  /** Within a month the day numbers and the dates run in step. */
  lemma InMonth(year: int, month: int, d: int)
    requires 1 <= year && 1 <= month <= 12 && FirstDay(year, month) <= d < FirstDay(year, month) + DaysIn(year, month)
    ensures d >= 0 && DateOf(d) == Date(year, month, d - FirstDay(year, month) + 1)
  {
    DateOfNumber(Date(year, month, d - FirstDay(year, month) + 1));
  }

  lemma InOwnMonth(day: nat)
    ensures var date := DateOf(day);
            FirstDay(date.year, date.month) <= day < FirstDay(date.year, date.month) + DaysIn(date.year, date.month)
  {
    NumberOfDate(day);
  }

  /** In each month the rule names one day. */
  lemma OnceAMonth(year: int, month: int, target: int, d: nat)
    requires 1 <= year && 1 <= month <= 12 && 1 <= target
    requires FirstDay(year, month) <= d < FirstDay(year, month) + DaysIn(year, month)
    ensures DayFits(Monthly(target), d) <==> d == DayNumber(MonthDay(year, month, target))
  {
    InMonth(year, month, d);
  }

  lemma NextMonthFollows(year: int, month: int)
    requires 1 <= year && 1 <= month <= 12
    ensures var next := NextMonth(year, month);
            1 <= next.0 && FirstDay(next.0, next.1) == FirstDay(year, month) + DaysIn(year, month)
  {
    NextDayNumber(Date(year, month, DaysIn(year, month)));
  }

  lemma MonthDayWithin(year: int, month: int, target: int)
    requires 1 <= year && 1 <= month <= 12 && 1 <= target
    ensures FirstDay(year, month) <= DayNumber(MonthDay(year, month, target))
                                   < FirstDay(year, month) + DaysIn(year, month)
  {
  }

  /** Up to the named day of the next month, no day but the named ones fits. */
  lemma TwoMonths(date: Date, next: (int, int), target: int, d: nat)
    requires Valid(date) && 1 <= target && next == NextMonth(date.year, date.month)
    requires FirstDay(date.year, date.month) <= d <= DayNumber(MonthDay(next.0, next.1, target))
    ensures DayFits(Monthly(target), d) <==> || d == DayNumber(MonthDay(date.year, date.month, target))
                                             || d == DayNumber(MonthDay(next.0, next.1, target))
  {
    NextMonthFollows(date.year, date.month);
    MonthDayWithin(date.year, date.month, target);
    MonthDayWithin(next.0, next.1, target);
    if d < FirstDay(next.0, next.1) {
      OnceAMonth(date.year, date.month, target, d);
    } else {
      OnceAMonth(next.0, next.1, target, d);
    }
  }

  /** Where only two days fit, the first whose instant is still to come is the one. */
  lemma FirstOfTwo(rule: Rule, c: Clock, reference: nat, here: nat, there: nat)
    requires ValidClock(c) && reference / DAY < there && here < there
    requires DayFits(rule, here) && DayFits(rule, there)
    requires forall d: nat | reference / DAY <= d < there && d != here :: !DayFits(rule, d)
    ensures IsFirst(rule, c, reference,
                    (if here * DAY + TimeOfDay(c) <= reference then there else here) * DAY + TimeOfDay(c))
  {
    TimeInDay(c);
    if here * DAY + TimeOfDay(c) <= reference {
      LaterDay(reference, reference / DAY, there, TimeOfDay(c));
      FirstOfDays(rule, c, reference, there);
    } else {
      FirstOfDays(rule, c, reference, here);
    }
  }

  /** The day the rule names in the month of `day` and the one in the month after it. */
  lemma NamedDays(day: nat, target: int) returns (here: nat, there: nat)
    requires 1 <= target
    ensures var date := DateOf(day);
            var next := NextMonth(date.year, date.month);
            && here == DayNumber(MonthDay(date.year, date.month, target))
            && there == DayNumber(MonthDay(next.0, next.1, target))
    ensures day < there && here < there
    ensures DayFits(Monthly(target), here) && DayFits(Monthly(target), there)
    ensures forall d: nat | day <= d < there && d != here :: !DayFits(Monthly(target), d)
  {
    var date := DateOf(day);
    var next := NextMonth(date.year, date.month);
    InOwnMonth(day);
    NextMonthFollows(date.year, date.month);
    MonthDayWithin(date.year, date.month, target);
    MonthDayWithin(next.0, next.1, target);
    InMonth(date.year, date.month, DayNumber(MonthDay(date.year, date.month, target)));
    here, there := DayNumber(MonthDay(date.year, date.month, target)), DayNumber(MonthDay(next.0, next.1, target));
    TwoMonths(date, next, target, here);
    TwoMonths(date, next, target, there);
    forall d: nat | day <= d < there && d != here ensures !DayFits(Monthly(target), d) {
      TwoMonths(date, next, target, d);
    }
  }

  lemma MonthlyByDays(c: Clock, target: int, reference: nat, here: int, there: int)
    requires ValidClock(c) && 1 <= target <= 31
    requires var date := DateOf(reference / DAY);
             var next := NextMonth(date.year, date.month);
             && here == DayNumber(MonthDay(date.year, date.month, target))
             && there == DayNumber(MonthDay(next.0, next.1, target))
    ensures NextByRule(Monthly(target), c, reference)
         == (if here * DAY + TimeOfDay(c) <= reference then there else here) * DAY + TimeOfDay(c)
  {
  }

  /** The next monthly run falls on one of the two named days. */
  lemma NamedInstants(c: Clock, target: int, reference: nat) returns (here: nat, there: nat)
    requires ValidClock(c) && 1 <= target <= 31
    ensures reference / DAY < there && here < there
    ensures DayFits(Monthly(target), here) && DayFits(Monthly(target), there)
    ensures forall d: nat | reference / DAY <= d < there && d != here :: !DayFits(Monthly(target), d)
    ensures NextByRule(Monthly(target), c, reference)
         == (if here * DAY + TimeOfDay(c) <= reference then there else here) * DAY + TimeOfDay(c)
  {
    here, there := NamedDays(reference / DAY, target);
    MonthlyByDays(c, target, reference, here, there);
  }

  lemma MonthlyIsFirst(c: Clock, target: int, reference: nat)
    requires ValidClock(c) && 1 <= target <= 31
    ensures IsFirst(Monthly(target), c, reference, NextByRule(Monthly(target), c, reference))
  {
    var here, there := NamedInstants(c, target, reference);
    FirstOfTwo(Monthly(target), c, reference, here, there);
  }

  lemma LaterDay(reference: int, day: int, later: int, tod: int)
    requires day == reference / DAY && day < later && 0 <= tod
    ensures reference < later * DAY + tod
  {
    DayOf(reference);
    assert later * DAY >= (day + 1) * DAY;
  }

  lemma SanitizedAgain(c: Clock, default: Clock)
    requires ValidClock(c) && ValidClock(default)
    ensures SanitizedClock(ClockText(c), default) == c
  {
    ClockRoundTrip(c);
  }

  lemma NextByRuleIsFirst(rule: Rule, c: Clock, reference: nat)
    requires ValidRule(rule) && ValidClock(c)
    ensures var r := NextByRule(rule, c, reference);
            && IsFirst(rule, c, reference, r)
            && (rule.Daily? ==> r <= reference + DAY)
            && (rule.Weekly? ==> r <= reference + 7 * DAY)
  {
    match rule
    case Weekly(weekday) => WeeklyIsFirst(c, weekday, reference);
    case Monthly(target) => MonthlyIsFirst(c, target, reference);
    case Daily =>
      SanitizedAgain(c, Clock(2, 0));
      DailyIsFirst(ClockText(c), reference);
  }

  /** compute_next_run_at returns the first instant after the reference that the schedule names. */
  lemma NextRunIsFirst(time: string, frequency: string, dayOfWeek: Option<int>, dayOfMonth: Option<int>, reference: nat)
    ensures var rule := RuleOf(frequency, dayOfWeek, dayOfMonth, reference);
            var r := NextRunLocal(time, frequency, dayOfWeek, dayOfMonth, reference);
            && IsFirst(rule, SanitizedClock(time, Clock(0, 0)), reference, r)
            && (rule.Daily? ==> r <= reference + DAY)
            && (rule.Weekly? ==> r <= reference + 7 * DAY)
  {
    NextByRuleIsFirst(RuleOf(frequency, dayOfWeek, dayOfMonth, reference), SanitizedClock(time, Clock(0, 0)),
                      reference);
  }

  /** The first UTC instant after the reference that the rule names in the zone. */
  ghost predicate IsFirstUtc(rule: Rule, c: Clock, reference: int, offset: int, r: int) {
    && Fits(rule, c, r + offset) && reference < r
    && forall local | reference < local - offset < r :: !Fits(rule, c, local)
  }

  lemma ShiftedFirst(rule: Rule, c: Clock, local: int, r: int, reference: int, offset: int, utc: int)
    requires IsFirst(rule, c, local, r) && local == reference + offset && r == utc + offset
    ensures IsFirstUtc(rule, c, reference, offset, utc)
  {
  }

  lemma NextByRuleUtcIsFirst(rule: Rule, c: Clock, reference: int, offset: int)
    requires ValidRule(rule) && ValidClock(c) && reference + offset >= 0
    ensures var r := NextByRuleUtc(rule, c, reference, offset);
            && IsFirstUtc(rule, c, reference, offset, r)
            && (rule.Daily? ==> r <= reference + DAY)
            && (rule.Weekly? ==> r <= reference + 7 * DAY)
  {
    var r := NextByRule(rule, c, reference + offset);
    NextByRuleIsFirst(rule, c, reference + offset);
    ShiftedFirst(rule, c, reference + offset, r, reference, offset, NextByRuleUtc(rule, c, reference, offset));
  }

  /** compute_next_run_at in UTC. */
  lemma NextRunUtcIsFirst(time: string, frequency: string, dayOfWeek: Option<int>, dayOfMonth: Option<int>,
                          reference: int, offset: int)
    requires reference + offset >= 0
    ensures var rule := RuleOf(frequency, dayOfWeek, dayOfMonth, reference + offset);
            var r := NextRunUtc(time, frequency, dayOfWeek, dayOfMonth, reference, offset);
            && IsFirstUtc(rule, SanitizedClock(time, Clock(0, 0)), reference, offset, r)
            && (rule.Daily? ==> r <= reference + DAY)
            && (rule.Weekly? ==> r <= reference + 7 * DAY)
  {
    NextByRuleUtcIsFirst(RuleOf(frequency, dayOfWeek, dayOfMonth, reference + offset),
                         SanitizedClock(time, Clock(0, 0)), reference, offset);
  }

  // ---------------------------------------------------------------- what the parameters mean

  /** The frequency's text, in any case and padding, and the days that are filled in and clamped. */
  lemma RuleExactly(frequency: string, dayOfWeek: Option<int>, dayOfMonth: Option<int>, reference: nat)
    ensures var f := Lower(Strip(frequency));
            var rule := RuleOf(frequency, dayOfWeek, dayOfMonth, reference);
            && (rule.Weekly? <==> f == "weekly")
            && (rule.Monthly? <==> f == "monthly")
            && (rule.Weekly? && dayOfWeek.None? ==> rule.weekday == reference / DAY % 7)
            && (rule.Weekly? && dayOfWeek.Some? ==>
                  (0 <= dayOfWeek.value <= 6 ==> rule.weekday == dayOfWeek.value)
                  && (dayOfWeek.value < 0 ==> rule.weekday == 0) && (dayOfWeek.value > 6 ==> rule.weekday == 6))
            && (rule.Monthly? && dayOfMonth.None? ==> rule.day == 1)
            && (rule.Monthly? && dayOfMonth.Some? ==>
                  (1 <= dayOfMonth.value <= 31 ==> rule.day == dayOfMonth.value)
                  && (dayOfMonth.value < 1 ==> rule.day == 1) && (dayOfMonth.value > 31 ==> rule.day == 31))
  {
    assert Lower(Strip("")) == "";
  }

  /** The microseconds of an instant at this time of day show its hour and its minute. */
  lemma TimeShows(c: Clock)
    requires ValidClock(c)
    ensures MINUTE == 60 * 1_000_000 && DAY == 24 * 60 * MINUTE
    ensures TimeOfDay(c) / (60 * MINUTE) == c.hour && TimeOfDay(c) / MINUTE % 60 == c.minute
    ensures TimeOfDay(c) % MINUTE == 0
  {
    assert TimeOfDay(c) / MINUTE == c.hour * 60 + c.minute;
    assert (c.hour * 60 + c.minute) * MINUTE == c.hour * (60 * MINUTE) + c.minute * MINUTE;
  }

  lemma {:induction false} DigitsAreDigits(s: string)
    requires AllDigits(s)
    ensures OnlyDigits(s) == s
    decreases |s|
  {
    if s != [] {
      DigitsAreDigits(s[..|s| - 1]);
    }
  }

  lemma NumberRead(s: string)
    requires AllDigits(s) && s != []
    ensures PyInt(s) == Some(NatValue(s))
  {
    StripSolid(s);
    DigitsAreDigits(s);
    DigitsGroup(s);
  }

  lemma DigitsGroup(s: string)
    requires AllDigits(s) && s != []
    ensures DigitGroups(s) && s[0] != '-' && s[0] != '+'
  {
    forall i | 0 <= i < |s| ensures IsDigit(s[i]) && s[i] != '_' {
    }
  }

  lemma PartsRead(raw: string, a: string, b: string, x: nat, y: nat)
    requires SplitColon(Strip(raw)) == [a, b] && PyInt(a) == Some(x) && PyInt(b) == Some(y)
    ensures ParseClock(raw) == if x <= 23 && y <= 59 then Some(Clock(x, y)) else None
  {
  }

  /** A text of two numbers and a colon is that time when it is one, and no time otherwise. */
  lemma ClockRead(hours: string, minutes: string)
    requires AllDigits(hours) && AllDigits(minutes) && hours != [] && minutes != []
    ensures ParseClock(hours + ":" + minutes)
         == if NatValue(hours) <= 23 && NatValue(minutes) <= 59 then Some(Clock(NatValue(hours), NatValue(minutes)))
            else None
  {
    StripSolid(hours + ":" + minutes);
    SplitAtColon(hours, minutes);
    NumberRead(hours);
    NumberRead(minutes);
    PartsRead(hours + ":" + minutes, hours, minutes, NatValue(hours), NatValue(minutes));
  }

  /** A text that is no time stands for the default. */
  lemma UnreadableIsDefault(raw: string, default: Clock)
    requires ValidClock(default)
    ensures SanitizedClock(raw, default) == if ParseClock(raw).Some? then ParseClock(raw).value else default
    ensures ':' !in raw ==> SanitizedClock(raw, default) == default
  {
    var c := ParseClock(raw);
    ClockRoundTrip(if c.Some? then c.value else default);
    if ':' !in raw {
      var a, b := StripShape(raw);
      assert raw == a + Strip(raw) + b;
      assert forall x | x in Strip(raw) :: x in raw;
      SplitNoColon(Strip(raw));
    }
  }

  /** 1 January 2000 was a Saturday, and 29 February 2000 and 2024 exist, but not in 1900 or 2023. */
  lemma KnownDates()
    ensures WeekdayOf(DayNumber(Date(2000, 1, 1))) == 5
    ensures Valid(Date(2000, 2, 29)) && Valid(Date(2024, 2, 29))
    ensures !Valid(Date(1900, 2, 29)) && !Valid(Date(2023, 2, 29))
  {
    assert DaysBeforeMonth(2000, 1) == 0;
  }
}
