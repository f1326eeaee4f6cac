/**
 Finding the next fire time (pkg/jobdb/schedule_trigger.go) in UTC.  Instants are nanoseconds
 since the start of year 1 and never negative; a minute is its number since then.
 */
module Calendar {
  import opened Numbers

  datatype Date = Date(year: nat, month: nat, day: nat)

  predicate Leap(year: nat) {
    year % 4 == 0 && (year % 100 != 0 || year % 400 == 0)
  }

  function DaysIn(year: nat, month: nat): nat {
    if month == 2 then (if Leap(year) then 29 else 28)
    else if month == 4 || month == 6 || month == 9 || month == 11 then 30 else 31
  }

  predicate Valid(d: Date) {
    d.year >= 1 && 1 <= d.month <= 12 && 1 <= d.day <= DaysIn(d.year, d.month)
  }

  function NextDay(d: Date): Date {
    if d.day < DaysIn(d.year, d.month) then d.(day := d.day + 1)
    else if d.month < 12 then Date(d.year, d.month + 1, 1)
    else Date(d.year + 1, 1, 1)
  }

  /** Day 0 is 1 January of year 1, a Monday. */
  function DateOf(n: nat): (d: Date)
    ensures Valid(d)
  {
    if n == 0 then Date(1, 1, 1) else NextDay(DateOf(n - 1))
  }

  /** Sunday is 0. */
  function Weekday(n: nat): nat {
    (n + 1) % 7
  }

  function DaysBeforeMonth(year: nat, month: nat): nat {
    if month <= 1 then 0 else DaysBeforeMonth(year, month - 1) + DaysIn(year, month - 1)
  }

  /** The day number of a date by the leap-year rule, counted in closed form over the years. */
  function DayNumber(d: Date): int
    requires Valid(d)
  {
    var y := d.year - 1;
    365 * y + y / 4 - y / 100 + y / 400 + DaysBeforeMonth(d.year, d.month) + d.day - 1
  }

  /** The Unix epoch, 1 January 1970, is day 719162 and a Thursday. */
  lemma UnixEpoch()
    ensures DayNumber(Date(1970, 1, 1)) == 719162 && Weekday(719162) == 4
  {
  }

  /** The weekdays follow each other from Sunday, 0, to Saturday, 6, and around; with the epoch a
      Thursday, day n has the weekday of its distance from it. */
  lemma WeekdaysFollow(n: nat)
    ensures Weekday(n) < 7 && Weekday(n + 1) == if Weekday(n) == 6 then 0 else Weekday(n) + 1
    ensures n >= 719162 ==> Weekday(n) == (n - 719162 + 4) % 7
  {
  }

  /** The length of every month. */
  lemma MonthLengths(year: nat)
    ensures forall m :: m in {1, 3, 5, 7, 8, 10, 12} ==> DaysIn(year, m) == 31
    ensures forall m :: m in {4, 6, 9, 11} ==> DaysIn(year, m) == 30
    ensures DaysIn(year, 2) ==
      if year % 400 == 0 then 29 else if year % 100 == 0 then 28 else if year % 4 == 0 then 29 else 28
  {
    assert year % 400 == 0 ==> year % 4 == 0 by { MultiplesNest(year); }
  }

  /** A day later: the next of the month, the first of the next month, or New Year. */
  lemma DaysFollow(d: Date)
    requires Valid(d)
    ensures Valid(NextDay(d))
    ensures NextDay(d) ==
      if d.month == 12 && d.day == 31 then Date(d.year + 1, 1, 1)
      else if d.day == DaysIn(d.year, d.month) then Date(d.year, d.month + 1, 1)
      else Date(d.year, d.month, d.day + 1)
  {
  }

  lemma YearLength(year: nat)
    ensures DaysBeforeMonth(year, 12) + 31 == if Leap(year) then 366 else 365
  {
    assert DaysBeforeMonth(year, 2) == 31;
    assert DaysBeforeMonth(year, 3) == 31 + DaysIn(year, 2);
    assert DaysBeforeMonth(year, 4) == 62 + DaysIn(year, 2);
    assert DaysBeforeMonth(year, 5) == 92 + DaysIn(year, 2);
    assert DaysBeforeMonth(year, 6) == 123 + DaysIn(year, 2);
    assert DaysBeforeMonth(year, 7) == 153 + DaysIn(year, 2);
    assert DaysBeforeMonth(year, 8) == 184 + DaysIn(year, 2);
    assert DaysBeforeMonth(year, 9) == 215 + DaysIn(year, 2);
    assert DaysBeforeMonth(year, 10) == 245 + DaysIn(year, 2);
    assert DaysBeforeMonth(year, 11) == 276 + DaysIn(year, 2);
    assert DaysBeforeMonth(year, 12) == 306 + DaysIn(year, 2);
  }

  lemma MultiplesNest(n: nat)
    ensures n % 400 == 0 ==> n % 100 == 0
    ensures n % 100 == 0 ==> n % 4 == 0
  {
    assert n % 400 == 0 ==> n == 100 * (4 * (n / 400));
    assert n % 100 == 0 ==> n == 4 * (25 * (n / 100));
  }

  lemma LeapDays(year: nat)
    requires year >= 1
    ensures
      var y := year - 1;
      year / 4 - year / 100 + year / 400 - (y / 4 - y / 100 + y / 400) == if Leap(year) then 1 else 0
  {
    MultiplesNest(year);
    var a, b, c := year / 4 - (year - 1) / 4, year / 100 - (year - 1) / 100, year / 400 - (year - 1) / 400;
    assert a == if year % 4 == 0 then 1 else 0 by { Multiples(year, 4); }
    assert b == if year % 100 == 0 then 1 else 0 by { Multiples(year, 100); }
    assert c == if year % 400 == 0 then 1 else 0 by { Multiples(year, 400); }
  }

  /** One more multiple of k exactly at the multiples of k. */
  lemma Multiples(n: nat, k: nat)
    requires n >= 1 && k >= 1
    ensures n / k - (n - 1) / k == if n % k == 0 then 1 else 0
  {
    var q, r := n / k, n % k;
    assert n == q * k + r;
    if r == 0 {
      assert n - 1 == (q - 1) * k + (k - 1);
      DivUnique(n - 1, k, q - 1, k - 1);
    } else {
      DivUnique(n - 1, k, q, r - 1);
    }
  }

  lemma NextDayIsNext(d: Date)
    requires Valid(d)
    ensures DayNumber(NextDay(d)) == DayNumber(d) + 1
  {
    if d.day == DaysIn(d.year, d.month) && d.month == 12 {
      YearLength(d.year);
      LeapDays(d.year);
    }
  }

  /** Walking the calendar a day at a time and counting days by the leap-year rule agree. */
  lemma {:induction false} CalendarRoundTrip(n: nat)
    ensures DayNumber(DateOf(n)) == n
  {
    if n > 0 {
      CalendarRoundTrip(n - 1);
      NextDayIsNext(DateOf(n - 1));
    }
  }

  /** The day before. */
  function DayBefore(d: Date): Date
    requires Valid(d) && d != Date(1, 1, 1)
  {
    if d.day > 1 then d.(day := d.day - 1)
    else if d.month > 1 then Date(d.year, d.month - 1, DaysIn(d.year, d.month - 1))
    else Date(d.year - 1, 12, 31)
  }

  lemma FirstDay()
    ensures DayNumber(Date(1, 1, 1)) == 0
  {
  }

  lemma DayBeforeIsBefore(d: Date)
    requires Valid(d) && d != Date(1, 1, 1)
    ensures Valid(DayBefore(d)) && NextDay(DayBefore(d)) == d
  {
  }

  /** Every date is the date of its day number. */
  lemma {:induction false} DateIsOfItsNumber(d: Date)
    requires Valid(d)
    ensures DayNumber(d) >= 0 && DateOf(DayNumber(d)) == d
    decreases d.year, d.month, d.day
  {
    hide NextDay, DayNumber, DaysBeforeMonth, DaysIn;
    if d == Date(1, 1, 1) {
      FirstDay();
    } else {
      var before := DayBefore(d);
      DayBeforeIsBefore(d);
      DateIsOfItsNumber(before);
      NextDayIsNext(before);
    }
  }
}

module CronSearch {
  import opened Retry
  import opened Numbers
  import opened Calendar
  import opened CronFields

  const MINUTE := 60_000_000_000
  const WINDOW := 366 * 24 * 60 * 5

  datatype CronSpec = CronSpec(minutes: set<int>, hours: set<int>, days: set<int>, months: set<int>, weekdays: set<int>)

  datatype Trigger =
    | Interval(every: int, startAt: Option<nat>, endAt: Option<nat>)
    | Cron(expression: string, startAt: Option<nat>, endAt: Option<nat>)

  function ParseSpec(expression: string): Option<CronSpec> {
    var fields := Words(expression);
    if |fields| != 5 then None
    else match (FieldSet(fields[0], 0, 59, false), FieldSet(fields[1], 0, 23, false), FieldSet(fields[2], 1, 31, false),
                FieldSet(fields[3], 1, 12, false), FieldSet(fields[4], 0, 7, true))
      case (Some(minutes), Some(hours), Some(days), Some(months), Some(weekdays)) =>
        Some(CronSpec(minutes, hours, days, months, weekdays))
      case _ => None
  }

  /** All five fields must hold: a restricted day of the month and a restricted weekday are not
      alternatives. */
  predicate Matches(spec: CronSpec, minute: nat) {
    var day := minute / 1440;
    && minute % 60 in spec.minutes
    && minute / 60 % 24 in spec.hours
    && DateOf(day).day in spec.days
    && DateOf(day).month in spec.months
    && Weekday(day) in spec.weekdays
  }

  /** A minute named by its date and its time of day matches exactly if the expression names its
      minute, its hour, its day, its month and its weekday. */
  lemma MatchesByDate(spec: CronSpec, d: Date, hour: nat, minute: nat)
    requires Valid(d) && hour < 24 && minute < 60
    ensures DayNumber(d) >= 0
    ensures Matches(spec, (DayNumber(d) * 24 + hour) * 60 + minute) <==>
      && minute in spec.minutes && hour in spec.hours && d.day in spec.days && d.month in spec.months
      && Weekday(DayNumber(d)) in spec.weekdays
  {
    hide DateOf, DayNumber, Weekday, Valid;
    DateIsOfItsNumber(d);
    TimeOfDay(DayNumber(d), hour, minute);
  }

  lemma TimeOfDay(day: nat, hour: nat, minute: nat)
    requires hour < 24 && minute < 60
    ensures
      var t := (day * 24 + hour) * 60 + minute;
      t / 1440 == day && t % 60 == minute && t / 60 % 24 == hour
  {
    var t := (day * 24 + hour) * 60 + minute;
    DivUnique(t, 1440, day, hour * 60 + minute);
    DivUnique(t, 60, day * 24 + hour, minute);
    DivUnique(day * 24 + hour, 24, day, hour);
  }

  datatype Fire = At(instant: nat) | Never | BadTrigger | NotFound

  /** A whole minute the search may answer: after `after`, and not before the minute StartAt is in. */
  predicate Eligible(minute: nat, after: nat, startAt: Option<nat>) {
    minute * MINUTE > after && (startAt.Some? ==> minute >= startAt.value / MINUTE)
  }

  function FirstMinute(after: nat, startAt: Option<nat>): nat {
    var cursor := after / MINUTE + 1;
    if startAt.Some? && cursor * MINUTE < startAt.value then startAt.value / MINUTE else cursor
  }

  lemma MinuteBounds(instant: nat)
    ensures instant / MINUTE * MINUTE <= instant < (instant / MINUTE + 1) * MINUTE
  {
  }

  /** A minute in nanoseconds, and the reach of a search: five leap years. */
  lemma SearchReach()
    ensures MINUTE == 60 * 1_000_000_000 && WINDOW * 60 == 5 * 366 * 86_400
  {
  }

  /** The search starts at the earliest eligible minute. */
  lemma FirstIsEarliest(after: nat, startAt: Option<nat>, minute: nat)
    ensures Eligible(minute, after, startAt) <==> minute >= FirstMinute(after, startAt)
  {
    MinuteBounds(after);
    if startAt.Some? {
      MinuteBounds(startAt.value);
      if (after / MINUTE + 1) * MINUTE >= startAt.value {
        assert startAt.value / MINUTE <= after / MINUTE + 1;
      }
    }
  }

  predicate Ended(minute: nat, endAt: Option<nat>) {
    endAt.Some? && minute * MINUTE > endAt.value
  }

  /** What the answer must be: the earliest eligible matching minute that is not past EndAt, if
      the search window holds one. */
  ghost predicate Answers(spec: CronSpec, after: nat, startAt: Option<nat>, endAt: Option<nat>, r: Fire) {
    match r
    case At(instant) =>
      instant % MINUTE == 0
      && var m := instant / MINUTE;
         && Eligible(m, after, startAt) && Matches(spec, m) && !Ended(m, endAt)
         && m < FirstMinute(after, startAt) + WINDOW
         && forall n: nat :: n < m && Eligible(n, after, startAt) ==> !Matches(spec, n)
    case Never =>
      && (exists last: nat ::
            Eligible(last, after, startAt) && Ended(last, endAt) && last < FirstMinute(after, startAt) + WINDOW)
      && forall n: nat :: Eligible(n, after, startAt) && !Ended(n, endAt) ==> !Matches(spec, n)
    case NotFound =>
      forall n: nat :: Eligible(n, after, startAt) && n < FirstMinute(after, startAt) + WINDOW ==>
        !Matches(spec, n) && !Ended(n, endAt)
    case BadTrigger => false
  }

  method SearchMinutes(spec: CronSpec, after: nat, startAt: Option<nat>, endAt: Option<nat>) returns (r: Fire)
    ensures Answers(spec, after, startAt, endAt, r)
  {
    ghost var first := FirstMinute(after, startAt);
    forall n: nat ensures Eligible(n, after, startAt) <==> n >= first {
      FirstIsEarliest(after, startAt, n);
    }
    var cursor := after / MINUTE + 1;
    if startAt.Some? && cursor * MINUTE < startAt.value {
      cursor := startAt.value / MINUTE;
    }
    for i := 0 to WINDOW
      invariant cursor == first + i
      invariant forall n: nat :: first <= n < cursor ==> !Matches(spec, n) && !Ended(n, endAt)
    {
      if endAt.Some? && cursor * MINUTE > endAt.value {
        assert Eligible(cursor, after, startAt) && Ended(cursor, endAt);
        EndedStays(cursor, endAt);
        return Never;
      }
      if Matches(spec, cursor) {
        assert cursor * MINUTE / MINUTE == cursor && cursor * MINUTE % MINUTE == 0;
        return At(cursor * MINUTE);
      }
      cursor := cursor + 1;
    }
    return NotFound;
  }

  lemma EndedStays(minute: nat, endAt: Option<nat>)
    requires Ended(minute, endAt)
    ensures forall n: nat :: n >= minute ==> Ended(n, endAt)
  {
    forall n: nat | n >= minute ensures n * MINUTE >= minute * MINUTE {}
  }

  method NextScheduleFire(trigger: Trigger, after: nat) returns (r: Fire)
    ensures trigger.Interval? && trigger.every <= 0 ==> r == BadTrigger
    ensures trigger.Interval? && trigger.every > 0 ==>
      var next :=
        if trigger.startAt.Some? && after + trigger.every < trigger.startAt.value then trigger.startAt.value
        else after + trigger.every;
      r == if trigger.endAt.Some? && next > trigger.endAt.value then Never else At(next)
    ensures trigger.Cron? && ParseSpec(trigger.expression).None? ==> r == BadTrigger
    ensures trigger.Cron? && ParseSpec(trigger.expression).Some? ==>
      Answers(ParseSpec(trigger.expression).value, after, trigger.startAt, trigger.endAt, r)
  {
    match trigger
    case Interval(every, startAt, endAt) =>
      if every <= 0 { return BadTrigger; }
      var next := after + every;
      if startAt.Some? && next < startAt.value {
        next := startAt.value;
      }
      if endAt.Some? && next > endAt.value { return Never; }
      return At(next);
    case Cron(expression, startAt, endAt) =>
      var spec := ParseCronSpec(expression);
      if spec.None? { return BadTrigger; }
      r := SearchMinutes(spec.value, after, startAt, endAt);
  }

  method ParseCronSpec(expression: string) returns (spec: Option<CronSpec>)
    ensures spec == ParseSpec(expression)
  {
    var fields := Words(expression);
    if |fields| != 5 { return None; }
    var minutes := ParseCronField(fields[0], 0, 59, false);
    if minutes.None? { return None; }
    var hours := ParseCronField(fields[1], 0, 23, false);
    if hours.None? { return None; }
    var days := ParseCronField(fields[2], 1, 31, false);
    if days.None? { return None; }
    var months := ParseCronField(fields[3], 1, 12, false);
    if months.None? { return None; }
    var weekdays := ParseCronField(fields[4], 0, 7, true);
    if weekdays.None? { return None; }
    return Some(CronSpec(minutes.value, hours.value, days.value, months.value, weekdays.value));
  }
}
