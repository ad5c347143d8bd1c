/**
 * Calendar arithmetic of the bot: Python `date`/`datetime` values as integer
 * fields, `relativedelta(months=k)`, the renewal date and the billing period.
 */
module Calendar {
  import opened Wrappers

  /** `settings.RENEWAL_DAY`: the day of the month on which subscriptions renew. */
  const RENEWAL_DAY: int := 25

  /** The year range of Python's `date` (`datetime.MINYEAR`, `datetime.MAXYEAR`). */
  const MIN_YEAR: int := 1
  const MAX_YEAR: int := 9999

  /** Microseconds in a day; a time of day is a count of microseconds since midnight. */
  const MICROS_PER_DAY: int := 86_400_000_000
  /** 23:59:59.999999 as microseconds since midnight. */
  const LAST_MICRO: int := 86_399_999_999

  datatype Date = Date(year: int, month: int, day: int)

  /** A naive `datetime`: a date and the microseconds elapsed since its midnight. */
  datatype DateTime = DateTime(date: Date, micros: int)

  predicate IsLeapYear(y: int) {
    y % 4 == 0 && (y % 100 != 0 || y % 400 == 0)
  }

  function DaysInMonth(y: int, m: int): (n: int)
    ensures 28 <= n <= 31
    ensures n == 29 <==> m == 2 && IsLeapYear(y)
  {
    if m == 2 then (if IsLeapYear(y) then 29 else 28)
    else if m == 4 || m == 6 || m == 9 || m == 11 then 30
    else 31
  }

  predicate ValidDate(d: Date) {
    MIN_YEAR <= d.year <= MAX_YEAR && 1 <= d.month <= 12 && 1 <= d.day <= DaysInMonth(d.year, d.month)
  }

  predicate ValidDateTime(t: DateTime) {
    ValidDate(t.date) && 0 <= t.micros < MICROS_PER_DAY
  }

  /** The number of months from January of year 0 to the month of `d`. */
  function MonthIndex(d: Date): int {
    d.year * 12 + d.month - 1
  }

  /** Chronological order of dates. */
  predicate DateLt(a: Date, b: Date) {
    a.year < b.year
    || (a.year == b.year && (a.month < b.month || (a.month == b.month && a.day < b.day)))
  }

  /** Chronological order of date-times (what `<=` on naive `datetime` compares). */
  predicate Le(a: DateTime, b: DateTime) {
    DateLt(a.date, b.date) || (a.date == b.date && a.micros <= b.micros)
  }

  function Min(a: int, b: int): int {
    if a <= b then a else b
  }

  /** Midnight of a date, as `datetime.combine(d, datetime.min.time())` gives it. */
  function Midnight(d: Date): (t: DateTime)
    ensures t.date == d && t.micros == 0
  {
    DateTime(d, 0)
  }

  /** For months 1..12, the month index determines year and month, and orders them. */
  lemma MonthIndexOrder(a: Date, b: Date)
    requires 1 <= a.month <= 12 && 1 <= b.month <= 12
    ensures MonthIndex(a) == MonthIndex(b) <==> a.year == b.year && a.month == b.month
    ensures MonthIndex(a) < MonthIndex(b) <==> a.year < b.year || (a.year == b.year && a.month < b.month)
  {
    if a.year < b.year {
      assert a.year * 12 + 12 <= b.year * 12;
    } else if b.year < a.year {
      assert b.year * 12 + 12 <= a.year * 12;
    }
  }

  /** On valid dates, chronological order is the order of month index, then of day. */
  lemma DateLtByMonthIndex(a: Date, b: Date)
    requires ValidDate(a) && ValidDate(b)
    ensures DateLt(a, b) <==> MonthIndex(a) < MonthIndex(b) || (MonthIndex(a) == MonthIndex(b) && a.day < b.day)
  {
    MonthIndexOrder(a, b);
  }

  /**
   * `d + relativedelta(months=k)` for |k| <= 12: the month moves by k with the
   * year carried, the day is clipped to the length of the new month, and a year
   * outside MIN_YEAR..MAX_YEAR makes `date.replace` raise (None).
   */
  function AddMonths(d: Date, k: int): (r: Option<Date>)
    requires ValidDate(d) && -12 <= k <= 12
    ensures r.None? <==> !(MIN_YEAR <= (MonthIndex(d) + k) / 12 <= MAX_YEAR)
    ensures r.Some? ==> ValidDate(r.value) && MonthIndex(r.value) == MonthIndex(d) + k
    ensures r.Some? ==> r.value.day == Min(d.day, DaysInMonth(r.value.year, r.value.month))
  {
    var index := MonthIndex(d) + k;
    var y := index / 12;
    var m := index % 12 + 1;
    if MIN_YEAR <= y <= MAX_YEAR then Some(Date(y, m, Min(d.day, DaysInMonth(y, m)))) else None
  }

  /**
   * `calculate_renewal_date`: one month after today, with the day then replaced
   * by RENEWAL_DAY. `today` is the value `date.today()` returns.
   */
  function RenewalDate(today: Date): (r: Option<Date>)
    requires ValidDate(today)
    ensures r.None? <==> today.year == MAX_YEAR && today.month == 12
    ensures r.Some? ==> ValidDate(r.value) && r.value.day == RENEWAL_DAY
    ensures r.Some? ==> MonthIndex(r.value) == MonthIndex(today) + 1 && DateLt(today, r.value)
  {
    match AddMonths(today, 1)
    case None => None
    case Some(next) =>
      var renewal := next.(day := RENEWAL_DAY);
      DateLtByMonthIndex(today, renewal);
      Some(renewal)
  }

  /**
   * The renewal date is day 25 of the month after today's, December wrapping to
   * January of the next year, whatever the day of today.
   */
  lemma RenewalDateNextMonth(today: Date)
    requires ValidDate(today)
    ensures RenewalDate(today) ==
      if today.month == 12 then
        (if today.year == MAX_YEAR then None else Some(Date(today.year + 1, 1, RENEWAL_DAY)))
      else Some(Date(today.year, today.month + 1, RENEWAL_DAY))
  {
    var r := RenewalDate(today);
    if r.Some? {
      var expected := if today.month == 12 then Date(today.year + 1, 1, RENEWAL_DAY)
                      else Date(today.year, today.month + 1, RENEWAL_DAY);
      assert MonthIndex(expected) == MonthIndex(today) + 1;
      MonthIndexOrder(r.value, expected);
    }
  }

  /** Two days of the same month renew on the same date. */
  lemma RenewalDateIgnoresDay(a: Date, b: Date)
    requires ValidDate(a) && ValidDate(b) && a.year == b.year && a.month == b.month
    ensures RenewalDate(a) == RenewalDate(b)
  {
    RenewalDateNextMonth(a);
    RenewalDateNextMonth(b);
  }

  /** The example of the repository's own test: 10 June 2025 renews on 25 July 2025. */
  lemma RenewalDateExample()
    ensures RenewalDate(Date(2025, 6, 10)) == Some(Date(2025, 7, 25))
    ensures RenewalDate(Date(2025, 6, 30)) == Some(Date(2025, 7, 25))
  {
    RenewalDateNextMonth(Date(2025, 6, 10));
    RenewalDateNextMonth(Date(2025, 6, 30));
  }

  /**
   * The start of the billing period of `now`: this month's RENEWAL_DAY at
   * midnight when today is on or after it, otherwise last month's.
   */
  function PeriodStart(now: DateTime): (r: Option<DateTime>)
    requires ValidDateTime(now)
    ensures r.None? <==> now.date.year == MIN_YEAR && now.date.month == 1 && now.date.day < RENEWAL_DAY
    ensures r.Some? ==> ValidDateTime(r.value) && r.value.date.day == RENEWAL_DAY && r.value.micros == 0
    ensures r.Some? ==> Le(r.value, now)
  {
    var thisMonth := now.date.(day := RENEWAL_DAY);
    if now.date.day < RENEWAL_DAY then
      match AddMonths(thisMonth, -1)
      case None => None
      case Some(previous) =>
        DateLtByMonthIndex(previous, now.date);
        Some(Midnight(previous))
    else
      Some(Midnight(thisMonth))
  }

  /** The end of the billing period of `now`: the same day at 23:59:59.999999. */
  function PeriodEnd(now: DateTime): (r: DateTime)
    requires ValidDateTime(now)
    ensures r.date == now.date && r.micros == LAST_MICRO
    ensures ValidDateTime(r) && Le(now, r)
    ensures forall t :: ValidDateTime(t) && t.date == now.date ==> Le(t, r)
  {
    DateTime(now.date, LAST_MICRO)
  }

  /** `now` lies in its own billing period. */
  lemma NowInPeriod(now: DateTime)
    requires ValidDateTime(now) && PeriodStart(now).Some?
    ensures Le(PeriodStart(now).value, now) && Le(now, PeriodEnd(now))
  {
  }

  /**
   * The period starts at the latest RENEWAL_DAY midnight that is not after
   * `now`: the start is such a midnight, and any other such midnight is not
   * later than the start.
   */
  lemma PeriodStartIsLatestRenewal(now: DateTime, d: Date)
    requires ValidDateTime(now) && PeriodStart(now).Some?
    requires ValidDate(d) && d.day == RENEWAL_DAY && Le(Midnight(d), now)
    ensures Le(Midnight(d), PeriodStart(now).value)
  {
    var start := PeriodStart(now).value;
    DateLtByMonthIndex(d, now.date);
    DateLtByMonthIndex(d, start.date);
    DateLtByMonthIndex(start.date, now.date);
    if now.date.day < RENEWAL_DAY {
      assert MonthIndex(start.date) == MonthIndex(now.date) - 1;
    } else {
      assert start.date == now.date.(day := RENEWAL_DAY);
    }
    MonthIndexOrder(d, start.date);
  }
}
