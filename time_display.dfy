/** The time label of src/components/TimeDisplay.tsx: a friendly Korean description of how long
    ago a memo was written (just now, today or yesterday with the time of day, a few days ago, a
    part of a month, a month, last year's month, or year and month), and a click that toggles
    between it and the exact time. Both instants are given as epoch milliseconds together with
    their local calendar fields; the time zone that relates the two is outside the model. */
module TimeDisplay {
  import opened Js

  /** A calendar day in the proleptic Gregorian calendar. */
  datatype Day = Day(year: int, month: int, day: int)

  predicate IsLeapYear(y: int) {
    y % 4 == 0 && (y % 100 != 0 || y % 400 == 0)
  }

  function DaysInMonth(y: int, m: int): int {
    if m == 2 then (if IsLeapYear(y) then 29 else 28)
    else if m == 4 || m == 6 || m == 9 || m == 11 then 30
    else 31
  }

  predicate ValidDay(d: Day) {
    1 <= d.month <= 12 && 1 <= d.day <= DaysInMonth(d.year, d.month)
  }

  /** `setDate(getDate() - 1)`: the calendar day before, across month and year ends. */
  function PrevDay(d: Day): Day {
    if d.day > 1 then d.(day := d.day - 1)
    else if d.month > 1 then Day(d.year, d.month - 1, DaysInMonth(d.year, d.month - 1))
    else Day(d.year - 1, 12, 31)
  }

  /** The calendar day after. */
  function NextDay(d: Day): Day {
    if d.day < DaysInMonth(d.year, d.month) then d.(day := d.day + 1)
    else if d.month < 12 then Day(d.year, d.month + 1, 1)
    else Day(d.year + 1, 1, 1)
  }

  /** Going back a day stays in the calendar, and the next day of the day before is the day itself:
      yesterday is the one day whose next day is today. */
  lemma PrevDayInverse(d: Day)
    requires ValidDay(d)
    ensures ValidDay(PrevDay(d)) && NextDay(PrevDay(d)) == d && PrevDay(NextDay(d)) == d
    ensures forall e :: ValidDay(e) && NextDay(e) == d ==> e == PrevDay(d)
  {
    forall e | ValidDay(e) && NextDay(e) == d ensures e == PrevDay(d) {
      assert PrevDay(NextDay(e)) == e;
    }
  }

  /** An instant: epoch milliseconds and the local calendar day and hour it falls on. */
  datatype Instant = Instant(ms: int, date: Day, hour: int)

  /** `getTimeOfDay`. */
  function TimeOfDay(h: int): string {
    if 5 <= h < 12 then "아침"
    else if 12 <= h < 18 then "오후"
    else if 18 <= h < 22 then "저녁"
    else "밤"
  }

  /** The four names partition the hours: morning is [5, 12), afternoon [12, 18), evening
      [18, 22), and night every other hour. */
  lemma TimeOfDayPartition(h: int)
    ensures TimeOfDay(h) == "아침" <==> 5 <= h < 12
    ensures TimeOfDay(h) == "오후" <==> 12 <= h < 18
    ensures TimeOfDay(h) == "저녁" <==> 18 <= h < 22
    ensures TimeOfDay(h) == "밤" <==> h < 5 || 22 <= h
  {
  }

  const HourMs: int := 1000 * 60 * 60
  const DayMs: int := HourMs * 24

  /** The kinds of label, before rendering. */
  datatype Friendly =
    | JustNow
    | Today(timeOfDay: string)
    | Yesterday(timeOfDay: string)
    | FewDaysAgo
    | PartOfMonth(month: int, period: string)
    | Month(month: int)
    | LastYearMonth(month: int)
    | YearMonth(year: int, month: int)

  /** `초순` for days 1-10, `중순` for 11-20, `말` after. */
  function Period(day: int): string {
    if day <= 10 then "초순" else if day <= 20 then "중순" else "말"
  }

  /** The decisions of `formatFriendlyTime`, in its order. `diffMs / h < 1` on reals is
      `diffMs < h` for a positive `h`, and likewise for days. */
  function Classify(date: Instant, now: Instant): Friendly {
    var diffMs := now.ms - date.ms;
    if diffMs < HourMs then JustNow
    else if date.date == now.date then Today(TimeOfDay(date.hour))
    else if date.date == PrevDay(now.date) then Yesterday(TimeOfDay(date.hour))
    else if diffMs < 4 * DayMs then FewDaysAgo
    else if diffMs < 28 * DayMs then PartOfMonth(date.date.month, Period(date.date.day))
    else if date.date.year == now.date.year then Month(date.date.month)
    else if date.date.year == now.date.year - 1 then LastYearMonth(date.date.month)
    else YearMonth(date.date.year, date.date.month)
  }

  /** `${n}` for an integer. */
  function IntText(n: int): string {
    if n >= 0 then NatToString(n) else "-" + NatToString(-n)
  }

  function Render(f: Friendly): string {
    match f
    case JustNow => "방금 전"
    case Today(t) => "오늘 " + t
    case Yesterday(t) => "어제 " + t
    case FewDaysAgo => "며칠 전"
    case PartOfMonth(m, p) => IntText(m) + "월 " + p
    case Month(m) => IntText(m) + "월"
    case LastYearMonth(m) => "작년 " + IntText(m) + "월"
    case YearMonth(y, m) => IntText(y) + "년 " + IntText(m) + "월"
  }

  /** `formatFriendlyTime`. */
  function FormatFriendlyTime(date: Instant, now: Instant): string {
    Render(Classify(date, now))
  }

  /** Less than an hour ago, and any instant in the future, is `방금 전` whatever the calendar says. */
  lemma RecentIsJustNow(date: Instant, now: Instant)
    requires now.ms - date.ms < HourMs
    ensures FormatFriendlyTime(date, now) == "방금 전"
  {
  }

  /** `오늘` and `어제` go exactly to an hour or more ago on today's and on the previous calendar day,
      followed by the time of day of the memo's hour; `어제` needs valid days, so that the previous
      day is the one whose next day is today. */
  lemma TodayAndYesterday(date: Instant, now: Instant)
    requires ValidDay(date.date) && ValidDay(now.date)
    ensures Classify(date, now).Today? <==> now.ms - date.ms >= HourMs && date.date == now.date
    ensures Classify(date, now).Yesterday? <==> now.ms - date.ms >= HourMs && NextDay(date.date) == now.date
    ensures Classify(date, now).Today? || Classify(date, now).Yesterday? ==>
      Classify(date, now).timeOfDay == TimeOfDay(date.hour)
  {
    PrevDayInverse(now.date);
    if NextDay(date.date) == now.date {
      assert date.date != now.date by {
        PrevDayInverse(date.date);
      }
    }
  }

  /** Past the first two days, the label depends on the elapsed time: under four days it is
      `며칠 전`, under four weeks the memo's month and its part, and from four weeks on the month,
      with the year only when it is not this year or last year. */
  lemma OlderLabels(date: Instant, now: Instant)
    requires now.ms - date.ms >= HourMs && date.date != now.date && date.date != PrevDay(now.date)
    ensures now.ms - date.ms < 4 * DayMs ==> FormatFriendlyTime(date, now) == "며칠 전"
    ensures 4 * DayMs <= now.ms - date.ms < 28 * DayMs ==>
      FormatFriendlyTime(date, now) == IntText(date.date.month) + "월 " + Period(date.date.day)
    ensures 28 * DayMs <= now.ms - date.ms ==>
      FormatFriendlyTime(date, now) ==
        if date.date.year == now.date.year then IntText(date.date.month) + "월"
        else if date.date.year == now.date.year - 1 then "작년 " + IntText(date.date.month) + "월"
        else IntText(date.date.year) + "년 " + IntText(date.date.month) + "월"
  {
  }

  /** The month part names the days 1-10, 11-20 and 21 on. */
  lemma PeriodPartition(day: int)
    ensures Period(day) == "초순" <==> day <= 10
    ensures Period(day) == "중순" <==> 10 < day <= 20
    ensures Period(day) == "말" <==> 20 < day
  {
  }

  /** The label and its click toggle. */
  class TimeLabel {
    var showExactTime: bool

    constructor ()
      ensures !showExactTime
    {
      showExactTime := false;
    }

    /** What the label shows, `exact` being `formatExactTime`'s locale text. */
    function Shown(date: Instant, now: Instant, exact: string): string
      reads this
    {
      if showExactTime then exact else FormatFriendlyTime(date, now)
    }

    /** `handleClick`. */
    method Click()
      modifies this
      ensures showExactTime == !old(showExactTime)
    {
      showExactTime := !showExactTime;
    }
  }

  /** Two clicks restore what the label showed. */
  method TwoClicksRestore(t: TimeLabel, date: Instant, now: Instant, exact: string)
    modifies t
    ensures t.Shown(date, now, exact) == old(t.Shown(date, now, exact))
  {
    t.Click();
    t.Click();
  }
}
