/** Fiscal years and quarters, computed twice in the program: by the API's time buckets and by the
    web application's date presets, both on the month overflow of ECMAScript dates (section 21.4.1
    of ECMA-262). Dates are civil dates. */
module FiscalCalendar {
  import opened Wrappers

  // ---- civil dates and day numbers

  /** Months count from zero, as in ECMAScript. */
  datatype Civil = Civil(year: int, month: int, day: int)

  predicate Every(n: int, y: int)
    requires n > 0
  {
    y % n == 0
  }

  predicate Leap(y: int) { Every(4, y) && (!Every(100, y) || Every(400, y)) }

  function MonthLength(y: int, m: int): int
    requires 0 <= m < 12
  {
    if m == 1 then (if Leap(y) then 29 else 28)
    else if m == 3 || m == 5 || m == 8 || m == 10 then 30
    else 31
  }

  predicate Valid(c: Civil) { 0 <= c.month < 12 && 1 <= c.day <= MonthLength(c.year, c.month) }

  /** The number of the first day of year y, from 1 January 1970. */
  function DayFromYear(y: int): int {
    365 * (y - 1970) + Since(1969, 4, y) - Since(1901, 100, y) + Since(1601, 400, y)
  }

  /** How many years that n divides have passed, counted from a year after one. */
  function Since(first: int, n: int, y: int): int
    requires n > 0
  {
    (y - first) / n
  }

  const DAYS_BEFORE := [0, 31, 59, 90, 120, 151, 181, 212, 243, 273, 304, 334, 365]

  /** The days of year y before month m. */
  function DaysBefore(y: int, m: int): int
    requires 0 <= m <= 12
  {
    DAYS_BEFORE[m] + if m > 1 && Leap(y) then 1 else 0
  }

  function DayNumber(c: Civil): int
    requires 0 <= c.month < 12
  {
    DayFromYear(c.year) + DaysBefore(c.year, c.month) + c.day - 1
  }

  // ---- months counted from the beginning of year zero

  function MonthIndex(c: Civil): int { 12 * c.year + c.month }

  /** The number of the first day of a month. */
  function FirstOf(k: int): int { DayNumber(Civil(k / 12, k % 12, 1)) }

  lemma SinceStep(y: int)
    ensures Since(1969, 4, y + 1) == Since(1969, 4, y) + if Every(4, y) then 1 else 0
    ensures Since(1901, 100, y + 1) == Since(1901, 100, y) + if Every(100, y) then 1 else 0
    ensures Since(1601, 400, y + 1) == Since(1601, 400, y) + if Every(400, y) then 1 else 0
  {
    hide Since, Every;
    SinceStep4(y);
    SinceStep100(y);
    SinceStep400(y);
  }

  lemma SinceStep4(y: int)
    ensures Since(1969, 4, y + 1) == Since(1969, 4, y) + if Every(4, y) then 1 else 0
  {}

  lemma SinceStep100(y: int)
    ensures Since(1901, 100, y + 1) == Since(1901, 100, y) + if Every(100, y) then 1 else 0
  {}

  lemma SinceStep400(y: int)
    ensures Since(1601, 400, y + 1) == Since(1601, 400, y) + if Every(400, y) then 1 else 0
  {}

  lemma CenturiesAreFourfold(y: int)
    ensures Every(400, y) ==> Every(100, y)
    ensures Every(100, y) ==> Every(4, y)
  {}

  lemma YearStep(y: int)
    ensures DayFromYear(y + 1) == DayFromYear(y) + DaysBefore(y, 12)
  {
    hide Since, Every;
    SinceStep(y);
    CenturiesAreFourfold(y);
  }

  /** Months follow one another without a gap, over the end of a year and in leap years too. */
  lemma MonthStep(k: int)
    ensures FirstOf(k + 1) == FirstOf(k) + MonthLength(k / 12, k % 12)
  {
    var y, m := k / 12, k % 12;
    if m == 11 {
      YearStep(y);
      assert (k + 1) / 12 == y + 1 && (k + 1) % 12 == 0;
    } else {
      assert (k + 1) / 12 == y && (k + 1) % 12 == m + 1;
      assert DaysBefore(y, m + 1) == DaysBefore(y, m) + MonthLength(y, m);
    }
  }

  lemma {:induction false} LaterMonths(j: int, k: int)
    requires j <= k
    ensures FirstOf(j) <= FirstOf(k)
    decreases k - j
  {
    if j < k {
      MonthStep(k - 1);
      LaterMonths(j, k - 1);
    }
  }

  lemma InItsMonth(c: Civil)
    requires Valid(c)
    ensures FirstOf(MonthIndex(c)) <= DayNumber(c) < FirstOf(MonthIndex(c) + 1)
  {
    MonthStep(MonthIndex(c));
    assert MonthIndex(c) / 12 == c.year && MonthIndex(c) % 12 == c.month;
  }

  /** A window of whole months holds exactly the dates of those months. */
  lemma WindowHolds(a: int, b: int, c: Civil)
    requires Valid(c)
    ensures FirstOf(a) <= DayNumber(c) <= FirstOf(b) - 1 <==> a <= MonthIndex(c) < b
  {
    hide FirstOf, DayNumber;
    var k := MonthIndex(c);
    InItsMonth(c);
    if a <= k { LaterMonths(a, k); } else { LaterMonths(k + 1, a); }
    if k < b { LaterMonths(k + 1, b); } else { LaterMonths(b, k); }
  }

  // ---- ECMAScript dates

  /** MakeDay: month overflow goes into the year, and the day counts on from the first. */
  function MakeDay(year: int, month: int, date: int): int { FirstOf(12 * year + month) + date - 1 }

  /** Both date constructors read a year from 0 to 99 as one of the 1900s. */
  function FullYear(year: int): int { if 0 <= year <= 99 then 1900 + year else year }

  /** The date `date` days into month k, counting on from its first day in either direction. */
  function Normal(k: int, date: int): (c: Civil)
    ensures Valid(c) && DayNumber(c) == FirstOf(k) + date - 1
    ensures 1 <= date <= MonthLength(k / 12, k % 12) ==> c == Civil(k / 12, k % 12, date) && MonthIndex(c) == k
    ensures date == 0 ==> MonthIndex(c) == k - 1
    ensures date == 1 ==> MonthIndex(c) == k && c.day == 1
    decreases if date < 1 then 1 - date else if date <= MonthLength(k / 12, k % 12) then 0 else date
  {
    if date < 1 then
      MonthStep(k - 1);
      Normal(k - 1, date + MonthLength((k - 1) / 12, (k - 1) % 12))
    else if date <= MonthLength(k / 12, k % 12) then Civil(k / 12, k % 12, date)
    else
      MonthStep(k);
      Normal(k + 1, date - MonthLength(k / 12, k % 12))
  }

  /** `new Date(year, month, date)` and `Date.UTC(year, month, date)`. */
  function Make(year: int, month: int, date: int): (c: Civil)
    ensures Valid(c) && DayNumber(c) == MakeDay(FullYear(year), month, date)
    ensures date == 0 || date == 1 ==>
      MonthIndex(c) == 12 * FullYear(year) + month - if date == 0 then 1 else 0
    ensures date == 1 ==> c.day == 1
  {
    Normal(12 * FullYear(year) + month, date)
  }

  lemma MonthIndexInjective(c: Civil, d: Civil)
    requires Valid(c) && Valid(d) && MonthIndex(c) == MonthIndex(d)
    ensures c.year == d.year && c.month == d.month
  {}

  // ---- the web application's helpers

  /** The calendar year in which d's fiscal year starts. */
  function FiscalYearOf(d: Civil, fiscalYearStart: int): int {
    if d.month >= fiscalYearStart - 1 then d.year else d.year - 1
  }

  function StartOfFiscalYear(d: Civil, fiscalYearStart: int): (s: Civil)
    requires Valid(d)
    ensures Valid(s)
  {
    Make(FiscalYearOf(d, fiscalYearStart), fiscalYearStart - 1, 1)
  }

  function EndOfFiscalYear(d: Civil, fiscalYearStart: int): (e: Civil)
    requires Valid(d)
    ensures Valid(e)
  {
    var fyStart := StartOfFiscalYear(d, fiscalYearStart);
    Make(fyStart.year, fyStart.month + 12, 0)
  }

  function QuarterIndex(month: int, startMonth: int): int { (month - startMonth + 12) % 12 / 3 }

  function StartOfFiscalQuarter(d: Civil, fiscalYearStart: int): (s: Civil)
    requires Valid(d)
    ensures Valid(s)
  {
    var fyStart := StartOfFiscalYear(d, fiscalYearStart);
    Make(fyStart.year, fyStart.month + QuarterIndex(d.month, fyStart.month) * 3, 1)
  }

  function PrevFiscalQuarterStart(d: Civil, fiscalYearStart: int): (s: Civil)
    requires Valid(d)
    ensures Valid(s)
  {
    var qStart := StartOfFiscalQuarter(d, fiscalYearStart);
    Make(qStart.year, qStart.month - 3, 1)
  }

  datatype Range = Range(start: Civil, end: Civil)

  /** The `last-year` preset: the complete previous fiscal year. */
  function LastFiscalYear(today: Civil, fiscalYearStart: int): Range
    requires Valid(today)
  {
    var fyStart := StartOfFiscalYear(today, fiscalYearStart);
    Range(Make(fyStart.year, fyStart.month - 12, 1), Make(fyStart.year, fyStart.month, 0))
  }

  // ---- the API's time buckets

  datatype PeriodType = Yearly | Quarterly | Monthly | Weekly | Daily

  datatype Bucket = Bucket(
    start: Civil, end: Civil, fiscalYear: int, fiscalQuarter: Option<int>, fiscalMonth: Option<int>,
    fiscalWeek: Option<int>)
  {
    function Window(): Range { Range(start, end) }
  }

  predicate StartMonth(fs: int) { 1 <= fs <= 12 }

  predicate Holds(r: Range, d: Civil)
    requires Valid(d) && Valid(r.start) && Valid(r.end)
  {
    DayNumber(r.start) <= DayNumber(d) <= DayNumber(r.end)
  }

  /** The years a two-digit reading does not touch. */
  predicate Plain(year: int) { !(0 <= year <= 99) }

  /** The tenant's start month, April where there is none. */
  function StartOr(tenantStart: Option<int>): int { if tenantStart.Some? then tenantStart.value else 4 }

  /** Days since Monday; the first of January 1970 was a Thursday. */
  function SinceMonday(d: Civil): int
    requires Valid(d)
  {
    (DayNumber(d) + 3) % 7
  }

  /** The year whose reading decides where the bucket of d lies. */
  function DecidingYear(d: Civil, period: PeriodType, fs: int): int {
    if period == Yearly || period == Quarterly then FiscalYearOf(d, fs) else d.year
  }

  /** c lies in the period of d: the same fiscal year, quarter, month, week from Monday on, or day,
      of the year that d's year is read as. */
  predicate InPeriod(c: Civil, d: Civil, period: PeriodType, fs: int)
    requires Valid(c) && Valid(d)
  {
    match period
    case Yearly => FiscalYearOf(c, fs) == FullYear(FiscalYearOf(d, fs))
    case Quarterly =>
      && FiscalYearOf(c, fs) == FullYear(FiscalYearOf(d, fs))
      && QuarterIndex(c.month, fs - 1) == QuarterIndex(d.month, fs - 1)
    case Monthly => c.year == FullYear(d.year) && c.month == d.month
    case Weekly => 0 <= DayNumber(c) - MakeDay(FullYear(d.year), d.month, d.day) + SinceMonday(d) <= 6
    case Daily => DayNumber(c) == MakeDay(FullYear(d.year), d.month, d.day)
  }

  /** `ensureBucket`: the switch that fills the row. */
  function BucketOf(d: Civil, period: PeriodType, fs: int): Bucket
    requires Valid(d)
  {
    var m0 := fs - 1;
    var fyYear := FiscalYearOf(d, fs);
    var q := QuarterIndex(d.month, m0);
    match period
    case Yearly => Bucket(Make(fyYear, m0, 1), Make(fyYear, m0 + 12, 0), fyYear, None, None, None)
    case Quarterly =>
      Bucket(Make(fyYear, m0 + q * 3, 1), Make(fyYear, m0 + q * 3 + 3, 0), fyYear, Some(q + 1), None, None)
    case Monthly =>
      Bucket(Make(d.year, d.month, 1), Make(d.year, d.month + 1, 0), fyYear, Some(q + 1), Some(d.month + 1), None)
    case Weekly =>
      var start := Make(d.year, d.month, d.day - SinceMonday(d));
      Bucket(start, Normal(MonthIndex(start), start.day + 6), d.year, None, None, Some(WeekOfYear(d)))
    case Daily =>
      var day := Make(d.year, d.month, d.day);
      Bucket(day, day, d.year, None, None, None)
  }

  /** `getWeekOfYear`: stretches of seven days from what is read as the first of January. */
  function WeekOfYear(d: Civil): int
    requires Valid(d)
  {
    (DayNumber(d) - MakeDay(FullYear(d.year), 0, 1)) / 7 + 1
  }

  /** The windows hold whole periods: every date of the period and no other. */
  lemma WindowIsThePeriod(d: Civil, c: Civil, period: PeriodType, fs: int)
    requires Valid(d) && Valid(c) && StartMonth(fs)
    ensures var b := BucketOf(d, period, fs);
      Valid(b.start) && Valid(b.end) && (Holds(b.Window(), c) <==> InPeriod(c, d, period, fs))
  {
    hide DayNumber, FirstOf, Normal, Valid, MonthLength;
    var b, full := BucketOf(d, period, fs), FullYear(FiscalYearOf(d, fs));
    var q := QuarterIndex(d.month, fs - 1);
    match period {
      case Yearly =>
        WindowHolds(12 * full + fs - 1, 12 * full + fs - 1 + 12, c);
        YearIsMonths(c, full, fs);
      case Quarterly =>
        WindowHolds(12 * full + fs - 1 + q * 3, 12 * full + fs - 1 + q * 3 + 3, c);
        QuarterIsMonths(c, full, q, fs);
        QuarterIndexRange(d, fs);
      case Monthly =>
        WindowHolds(12 * FullYear(d.year) + d.month, 12 * FullYear(d.year) + d.month + 1, c);
        MonthIsIndex(c, d, FullYear(d.year));
      case Weekly => WeekEnds(d, fs);
      case Daily =>
    }
  }

  /** The bucket holds its own date exactly unless the year that decides about it is read as one of
      the 1900s. */
  lemma OwnPeriod(d: Civil, period: PeriodType, fs: int)
    requires Valid(d) && StartMonth(fs)
    ensures InPeriod(d, d, period, fs) <==> Plain(DecidingYear(d, period, fs))
  {
    hide DayNumber, MakeDay, QuarterIndex;
    CenturiesLater(d);
  }

  lemma WeekEnds(d: Civil, fs: int)
    requires Valid(d)
    ensures var b, first := BucketOf(d, Weekly, fs), MakeDay(FullYear(d.year), d.month, d.day) - SinceMonday(d);
      && Valid(b.start) && Valid(b.end)
      && DayNumber(b.start) == first && DayNumber(b.end) == first + 6
  {
    hide FirstOf, Normal;
    var start := Make(d.year, d.month, d.day - SinceMonday(d));
    OnItsDay(start);
  }

  lemma OnItsDay(c: Civil)
    requires Valid(c)
    ensures DayNumber(c) == FirstOf(MonthIndex(c)) + c.day - 1
  {
    assert MonthIndex(c) / 12 == c.year && MonthIndex(c) % 12 == c.month;
  }

  /** A date of the years 0 to 99 lies more than a week before the same date of the 1900s. */
  lemma CenturiesLater(d: Civil)
    requires Valid(d)
    ensures Plain(d.year) ==> MakeDay(FullYear(d.year), d.month, d.day) == DayNumber(d)
    ensures !Plain(d.year) ==> MakeDay(FullYear(d.year), d.month, d.day) > DayNumber(d) + 6
  {
    hide FirstOf, DayNumber, Leap;
    var k, j := MonthIndex(d), 12 * FullYear(d.year) + d.month;
    OnItsDay(d);
    if !Plain(d.year) {
      InItsMonth(d);
      MonthStep(k + 1);
      assert MonthLength((k + 1) / 12, (k + 1) % 12) >= 28;
      LaterMonths(k + 2, j);
    }
  }

  lemma YearIsMonths(c: Civil, full: int, fs: int)
    requires Valid(c) && StartMonth(fs)
    ensures 12 * full + fs - 1 <= MonthIndex(c) < 12 * full + fs - 1 + 12 <==> FiscalYearOf(c, fs) == full
  {}

  lemma MonthIsIndex(c: Civil, d: Civil, full: int)
    requires Valid(c) && Valid(d)
    ensures MonthIndex(c) == 12 * full + d.month <==> c.year == full && c.month == d.month
  {}

  lemma QuarterIsMonths(c: Civil, full: int, q: int, fs: int)
    requires Valid(c) && StartMonth(fs) && 0 <= q <= 3
    ensures 12 * full + fs - 1 + q * 3 <= MonthIndex(c) < 12 * full + fs - 1 + q * 3 + 3
      <==> FiscalYearOf(c, fs) == full && QuarterIndex(c.month, fs - 1) == q
  {
    QuarterWithinYear(c, fs);
  }

  /** A week's window is seven days from a Monday, the fifth of January 1970 being one, around its date,
      and its number counts the stretches of seven days since the first of January that have begun. */
  lemma WeekIsFromMonday(d: Civil)
    requires Valid(d) && Plain(d.year)
    ensures var b := BucketOf(d, Weekly, 4);
      && Valid(b.start) && Valid(b.end)
      && (DayNumber(b.start) - DayNumber(Civil(1970, 0, 5))) % 7 == 0
      && DayNumber(b.start) <= DayNumber(d) <= DayNumber(b.end) == DayNumber(b.start) + 6
      && b.fiscalWeek.Some?
      && 7 * (b.fiscalWeek.value - 1) <= DayNumber(d) - DayNumber(Civil(d.year, 0, 1)) < 7 * b.fiscalWeek.value
  {
    hide DayNumber, MakeDay, Make, Normal, Valid, SinceMonday, WeekOfYear;
    WeekEnds(d, 4);
    DayOfPlain(d);
    WeeksSinceMonday(d);
    WeeksOfYear(d);
    hide BucketOf;
  }

  lemma DayOfPlain(d: Civil)
    requires Valid(d)
    ensures MakeDay(d.year, d.month, d.day) == DayNumber(d)
  {
    OnItsDay(d);
    hide DayNumber, FirstOf;
  }

  lemma WeeksSinceMonday(d: Civil)
    requires Valid(d)
    ensures (DayNumber(d) - SinceMonday(d) - DayNumber(Civil(1970, 0, 5))) % 7 == 0 && 0 <= SinceMonday(d) <= 6
  {
    hide DayNumber;
    FirstMonday();
    Sevens(DayNumber(d));
  }

  lemma FirstMonday()
    ensures DayNumber(Civil(1970, 0, 5)) == 4
  {}

  lemma Sevens(n: int)
    ensures (n - (n + 3) % 7 - 4) % 7 == 0
  {
    assert n + 3 == 7 * ((n + 3) / 7) + (n + 3) % 7;
  }

  lemma WeeksOfYear(d: Civil)
    requires Valid(d) && Plain(d.year)
    ensures 7 * (WeekOfYear(d) - 1) <= DayNumber(d) - DayNumber(Civil(d.year, 0, 1)) < 7 * WeekOfYear(d)
  {
    DayOfPlain(Civil(d.year, 0, 1));
    hide DayNumber, MakeDay;
  }

  /** The switch of `ensureBucket`. */
  method FillBucket(d: Civil, period: PeriodType, tenantStart: Option<int>) returns (bucket: Bucket)
    requires Valid(d)
    ensures bucket == BucketOf(d, period, StartOr(tenantStart))
  {
    hide Make, Normal, FirstOf, DayNumber, QuarterIndex, SinceMonday, WeekOfYear;
    var year, month := d.year, d.month;
    var bucketStart, bucketEnd := d, d;
    var fiscalYear := year;
    var fiscalQuarter: Option<int> := None;
    var fiscalMonth: Option<int> := None;
    var fiscalWeek: Option<int> := None;
    var fyStartMonth0 := 3;
    if period == Yearly || period == Quarterly || period == Monthly {
      fyStartMonth0 := StartOr(tenantStart) - 1;
    }
    match period {
      case Yearly =>
        var fyYear := if month >= fyStartMonth0 then year else year - 1;
        fiscalYear := fyYear;
        bucketStart := Make(fyYear, fyStartMonth0, 1);
        bucketEnd := Make(fyYear, fyStartMonth0 + 12, 0);
      case Quarterly =>
        var fyYear := if month >= fyStartMonth0 then year else year - 1;
        fiscalYear := fyYear;
        var qIndex := QuarterIndex(month, fyStartMonth0);
        fiscalQuarter := Some(qIndex + 1);
        bucketStart := Make(fyYear, fyStartMonth0 + qIndex * 3, 1);
        bucketEnd := Make(fyYear, fyStartMonth0 + qIndex * 3 + 3, 0);
      case Monthly =>
        var fyYear := if month >= fyStartMonth0 then year else year - 1;
        fiscalYear := fyYear;
        fiscalQuarter := Some(QuarterIndex(month, fyStartMonth0) + 1);
        fiscalMonth := Some(month + 1);
        bucketStart := Make(year, month, 1);
        bucketEnd := Make(year, month + 1, 0);
      case Weekly =>
        var dayOfWeek := (DayNumber(d) + 4) % 7;
        var mondayOffset := if dayOfWeek == 0 then -6 else 1 - dayOfWeek;
        MondayOffset(d);
        bucketStart := Make(year, month, d.day + mondayOffset);
        bucketEnd := Normal(MonthIndex(bucketStart), bucketStart.day + 6);
        fiscalWeek := Some(WeekOfYear(d));
      case Daily =>
        bucketStart := Make(year, month, d.day);
        bucketEnd := bucketStart;
    }
    bucket := Bucket(bucketStart, bucketEnd, fiscalYear, fiscalQuarter, fiscalMonth, fiscalWeek);
  }

  /** `ensureBucket`, up to the row: for a valid start month the window is the date's whole period
      and holds the date exactly unless the deciding year is one of 0 to 99. */
  method EnsureBucket(d: Civil, period: PeriodType, tenantStart: Option<int>) returns (bucket: Bucket)
    requires Valid(d)
    ensures bucket == BucketOf(d, period, StartOr(tenantStart))
    ensures bucket == BucketOf(d, period, match tenantStart case Some(start) => start case None => 4)
    ensures Valid(bucket.start) && Valid(bucket.end)
    ensures StartMonth(StartOr(tenantStart)) || period in {Monthly, Weekly, Daily} ==>
      && (forall c | Valid(c) :: Holds(bucket.Window(), c) <==> InPeriod(c, d, period, StartOr(tenantStart)))
      && (Holds(bucket.Window(), d) <==> Plain(DecidingYear(d, period, StartOr(tenantStart))))
  {
    bucket := FillBucket(d, period, tenantStart);
    BucketIsThePeriod(d, period, tenantStart);
  }

  /** Sunday counts as zero in `getUTCDay`. */
  lemma MondayOffset(d: Civil)
    requires Valid(d)
    ensures var dayOfWeek := (DayNumber(d) + 4) % 7;
      (if dayOfWeek == 0 then -6 else 1 - dayOfWeek) == -SinceMonday(d)
  {
    hide DayNumber;
  }

  lemma BucketIsThePeriod(d: Civil, period: PeriodType, tenantStart: Option<int>)
    requires Valid(d)
    ensures var b, fs := BucketOf(d, period, StartOr(tenantStart)), StartOr(tenantStart);
      && Valid(b.start) && Valid(b.end)
      && (StartMonth(fs) || period in {Monthly, Weekly, Daily} ==>
        && (forall c | Valid(c) :: Holds(b.Window(), c) <==> InPeriod(c, d, period, fs))
        && (Holds(b.Window(), d) <==> Plain(DecidingYear(d, period, fs))))
  {
    hide Make, Normal, FirstOf, DayNumber, QuarterIndex, SinceMonday, WeekOfYear, Holds, InPeriod, Valid;
    var b, fs := BucketOf(d, period, StartOr(tenantStart)), StartOr(tenantStart);
    if period in {Monthly, Weekly, Daily} {
      // the start month has no say in these windows
      WindowIsThePeriod(d, d, period, 4);
      OwnPeriod(d, period, 4);
      forall c | Valid(c) ensures Holds(b.Window(), c) <==> InPeriod(c, d, period, fs) {
        WindowIsThePeriod(d, c, period, 4);
        StartMonthIrrelevant(d, c, period, fs, 4);
      }
      StartMonthIrrelevant(d, d, period, fs, 4);
    } else if StartMonth(fs) {
      OwnPeriod(d, period, fs);
      forall c | Valid(c) ensures Holds(b.Window(), c) <==> InPeriod(c, d, period, fs) {
        WindowIsThePeriod(d, c, period, fs);
      }
    }
  }

  lemma StartMonthIrrelevant(d: Civil, c: Civil, period: PeriodType, fs: int, other: int)
    requires Valid(d) && Valid(c) && period in {Monthly, Weekly, Daily}
    ensures BucketOf(d, period, fs).Window() == BucketOf(d, period, other).Window()
    ensures InPeriod(c, d, period, fs) <==> InPeriod(c, d, period, other)
  {
    hide Make, Normal, FirstOf, DayNumber, QuarterIndex, SinceMonday, WeekOfYear, Valid;
  }

  // ---- what both promise

  predicate Adjacent(e: Civil, s: Civil)
    requires Valid(e) && Valid(s)
  {
    DayNumber(s) == DayNumber(e) + 1
  }

  /** The fiscal year holds its date, for every date and start month, exactly unless the year it
      starts in is one that the date constructors take for a year of the 1900s. */
  lemma FiscalYearHolds(d: Civil, fs: int)
    requires Valid(d) && StartMonth(fs)
    ensures Holds(Range(StartOfFiscalYear(d, fs), EndOfFiscalYear(d, fs)), d) <==> Plain(FiscalYearOf(d, fs))
  {
    hide DayNumber;
    var full := FullYear(FiscalYearOf(d, fs));
    YearEnds(d, fs);
    WindowHolds(12 * full + fs - 1, 12 * full + fs - 1 + 12, d);
  }

  /** Start and end in month indices. */
  lemma YearEnds(d: Civil, fs: int)
    requires Valid(d) && StartMonth(fs)
    ensures var k := 12 * FullYear(FiscalYearOf(d, fs)) + fs - 1;
      && MonthIndex(StartOfFiscalYear(d, fs)) == k && StartOfFiscalYear(d, fs).month == fs - 1
      && StartOfFiscalYear(d, fs).year == FullYear(FiscalYearOf(d, fs)) && StartOfFiscalYear(d, fs).day == 1
      && DayNumber(StartOfFiscalYear(d, fs)) == FirstOf(k)
      && DayNumber(EndOfFiscalYear(d, fs)) == FirstOf(k + 12) - 1
  {
    hide DayNumber, FirstOf, Normal, MonthLength, Leap;
  }

  /** The same for the API's yearly and quarterly buckets: they are the web helpers' windows. */
  lemma BucketsAreTheHelpers(d: Civil, fs: int)
    requires Valid(d) && StartMonth(fs)
    ensures BucketOf(d, Yearly, fs).start == StartOfFiscalYear(d, fs)
    ensures BucketOf(d, Yearly, fs).end == EndOfFiscalYear(d, fs)
    ensures BucketOf(d, Quarterly, fs).start == StartOfFiscalQuarter(d, fs)
  {
    hide DayNumber, FirstOf, Normal, MakeDay, Valid, MonthLength;
    YearEnds(d, fs);
  }

  lemma QuarterWithinYear(d: Civil, fs: int)
    requires Valid(d) && StartMonth(fs)
    ensures var q, k := QuarterIndex(d.month, fs - 1), 12 * FiscalYearOf(d, fs) + fs - 1;
      0 <= q <= 3 && k + 3 * q <= MonthIndex(d) < k + 3 * q + 3
  {
    var into := (d.month - (fs - 1) + 12) % 12;
    assert into == MonthIndex(d) - (12 * FiscalYearOf(d, fs) + fs - 1);
  }

  /** The fiscal quarter holds its date under the same condition. */
  lemma QuarterHolds(d: Civil, fs: int)
    requires Valid(d) && StartMonth(fs)
    ensures var b := BucketOf(d, Quarterly, fs);
      Holds(b.Window(), d) <==> Plain(FiscalYearOf(d, fs))
  {
    hide DayNumber, FirstOf;
    var full, q := FullYear(FiscalYearOf(d, fs)), QuarterIndex(d.month, fs - 1);
    QuarterWithinYear(d, fs);
    WindowHolds(12 * full + fs - 1 + 3 * q, 12 * full + fs - 1 + 3 * q + 3, d);
  }

  /** The month bucket holds its date unless its own year reads as one of the 1900s. */
  lemma MonthHolds(d: Civil, fs: int)
    requires Valid(d)
    ensures var b := BucketOf(d, Monthly, fs); Holds(b.Window(), d) <==> Plain(d.year)
  {
    hide DayNumber, FirstOf;
    var full := FullYear(d.year);
    WindowHolds(12 * full + d.month, 12 * full + d.month + 1, d);
  }

  /** The q-th quarter of the fiscal year that starts in a year, as the buckets compute it. */
  function Quarter(fyYear: int, fs: int, q: int): Range {
    Range(Make(fyYear, fs - 1 + q * 3, 1), Make(fyYear, fs - 1 + q * 3 + 3, 0))
  }

  function Year(fyYear: int, fs: int): Range { Range(Make(fyYear, fs - 1, 1), Make(fyYear, fs - 1 + 12, 0)) }

  /** Four quarters tile the year: the first starts it, each starts the day after the one before
      ends, and the last ends it. */
  lemma QuartersTileTheYear(fyYear: int, fs: int)
    ensures Quarter(fyYear, fs, 0).start == Year(fyYear, fs).start
    ensures forall q :: 0 <= q < 3 ==> Adjacent(Quarter(fyYear, fs, q).end, Quarter(fyYear, fs, q + 1).start)
    ensures Quarter(fyYear, fs, 3).end == Year(fyYear, fs).end
  {
    hide DayNumber, FirstOf;
  }

  /** Consecutive fiscal years tile the calendar, leap years included: the next one starts the day
      after, exactly where both years are read plainly or neither is. */
  lemma YearsTileTheCalendar(fyYear: int, fs: int)
    ensures Adjacent(Year(fyYear, fs).end, Year(fyYear + 1, fs).start) <==> Plain(fyYear) == Plain(fyYear + 1)
  {
    hide DayNumber, FirstOf;
    var k := 12 * FullYear(fyYear) + fs - 1 + 12;
    var j := 12 * FullYear(fyYear + 1) + fs - 1;
    if j < k { MonthAfter(j, k); } else if k < j { MonthAfter(k, j); }
  }

  lemma MonthAfter(j: int, k: int)
    requires j < k
    ensures FirstOf(j) < FirstOf(k)
  {
    hide FirstOf;
    MonthStep(j);
    LaterMonths(j + 1, k);
  }

  /** Every date of a plainly read fiscal year has that year's window, so the windows of two dates
      are the same or apart. */
  lemma SameYearSameWindow(d: Civil, c: Civil, fs: int)
    requires Valid(d) && Valid(c) && StartMonth(fs) && Plain(FiscalYearOf(d, fs))
    requires Holds(Range(StartOfFiscalYear(d, fs), EndOfFiscalYear(d, fs)), c)
    ensures StartOfFiscalYear(c, fs) == StartOfFiscalYear(d, fs) && EndOfFiscalYear(c, fs) == EndOfFiscalYear(d, fs)
  {
    hide DayNumber, FirstOf;
    var y := FiscalYearOf(d, fs);
    YearEnds(d, fs);
    WindowHolds(12 * y + fs - 1, 12 * y + fs - 1 + 12, c);
    assert FiscalYearOf(c, fs) == y;
  }

  /** The last-year preset is the fiscal year of the day before this one starts, for every date
      except those of fiscal year 100: there the day before is in the year 99. */
  lemma LastYearIsThePreviousYear(d: Civil, fs: int)
    requires Valid(d) && StartMonth(fs)
    ensures var r := LastFiscalYear(d, fs);
      && Adjacent(r.end, StartOfFiscalYear(d, fs))
      && (r.start == StartOfFiscalYear(r.end, fs) && r.end == EndOfFiscalYear(r.end, fs)
          <==> FiscalYearOf(d, fs) != 100)
  {
    hide DayNumber, FirstOf, Normal, MonthLength, MakeDay;
    var r, y := LastFiscalYear(d, fs), FullYear(FiscalYearOf(d, fs));
    YearEnds(d, fs);
    assert MonthIndex(r.end) == 12 * y + fs - 2;
    assert FiscalYearOf(r.end, fs) == y - 1;
    YearEnds(r.end, fs);
    assert MonthIndex(r.start) == 12 * (y - 1) + fs - 1;
    assert MonthIndex(StartOfFiscalYear(r.end, fs)) == 12 * FullYear(y - 1) + fs - 1;
    if y != 100 {
      MonthIndexInjective(r.start, StartOfFiscalYear(r.end, fs));
    }
  }

  /** And the previous quarter starts the quarter of the day before this one does, exactly where the
      fiscal year of that day and the year this quarter starts in are read alike. */
  lemma PreviousQuarterIsAdjacent(d: Civil, before: Civil, fs: int)
    requires Valid(d) && Valid(before) && StartMonth(fs)
    requires Adjacent(before, StartOfFiscalQuarter(d, fs))
    ensures StartOfFiscalQuarter(before, fs) == PrevFiscalQuarterStart(d, fs)
      <==> Plain(FiscalYearOf(before, fs)) == Plain(StartOfFiscalQuarter(d, fs).year)
  {
    hide DayNumber, FirstOf, Make, QuarterIndex, FiscalYearOf, Valid;
    var y, q := FullYear(FiscalYearOf(d, fs)), QuarterIndex(d.month, fs - 1);
    var y', q' := FiscalYearOf(before, fs), QuarterIndex(before.month, fs - 1);
    var k, j := 12 * y + fs - 1 + 3 * q, 12 * y' + fs - 1 + 3 * q';
    QuarterStartsAt(d, fs);
    DayBeforeIsInMonthBefore(before, k);
    QuarterWithinYear(d, fs);
    QuarterWithinYear(before, fs);
    WholeQuartersApart(k, j, 4 * (y - y') + q - q');
    QuarterStartsAt(before, fs);
    var start := StartOfFiscalQuarter(d, fs);
    assert MonthIndex(PrevFiscalQuarterStart(d, fs)) == 12 * FullYear(start.year) + start.month - 3;
    SameDay(StartOfFiscalQuarter(before, fs), PrevFiscalQuarterStart(d, fs));
  }

  lemma SameDay(a: Civil, b: Civil)
    requires Valid(a) && Valid(b) && a.day == b.day
    ensures a == b <==> MonthIndex(a) == MonthIndex(b)
  {
    if MonthIndex(a) == MonthIndex(b) { MonthIndexInjective(a, b); }
  }

  lemma WholeQuartersApart(k: int, j: int, n: int)
    requires k - j == 3 * n && j <= k - 1 < j + 3
    ensures j == k - 3
  {}

  lemma QuarterStartsAt(d: Civil, fs: int)
    requires Valid(d) && StartMonth(fs)
    ensures var k := 12 * FullYear(FiscalYearOf(d, fs)) + fs - 1 + 3 * QuarterIndex(d.month, fs - 1);
      && MonthIndex(StartOfFiscalQuarter(d, fs)) == k && DayNumber(StartOfFiscalQuarter(d, fs)) == FirstOf(k)
      && StartOfFiscalQuarter(d, fs).day == 1
  {
    hide DayNumber, FirstOf, QuarterIndex;
    YearEnds(d, fs);
  }

  lemma DayBeforeIsInMonthBefore(before: Civil, k: int)
    requires Valid(before) && FirstOf(k) == DayNumber(before) + 1
    ensures MonthIndex(before) == k - 1
  {
    hide DayNumber, FirstOf;
    MonthAfter(k - 1, k);
    WindowHolds(k - 1, k, before);
  }

  /** The labels of a bucket name its window: the quarterly bucket is the quarter its number says of
      the year its label says, and the monthly bucket of the same date has the same labels. */
  lemma LabelsNameTheWindow(d: Civil, fs: int)
    requires Valid(d) && StartMonth(fs)
    ensures var y, q, m := BucketOf(d, Yearly, fs), BucketOf(d, Quarterly, fs), BucketOf(d, Monthly, fs);
      && q.fiscalQuarter.Some? && 1 <= q.fiscalQuarter.value <= 4
      && y.Window() == Year(y.fiscalYear, fs) && q.fiscalYear == y.fiscalYear
      && q.Window() == Quarter(q.fiscalYear, fs, q.fiscalQuarter.value - 1)
      && m.fiscalYear == q.fiscalYear && m.fiscalQuarter == q.fiscalQuarter && m.fiscalMonth == Some(d.month + 1)
  {
    hide Valid, MonthLength, MakeDay, FullYear, MonthIndex, DayNumber, FirstOf, Make, QuarterIndex;
    QuarterIndexRange(d, fs);
  }

  lemma QuarterIndexRange(d: Civil, fs: int)
    requires Valid(d) && StartMonth(fs)
    ensures 0 <= QuarterIndex(d.month, fs - 1) <= 3
  {
    QuarterWithinYear(d, fs);
  }
}
