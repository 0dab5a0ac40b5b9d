/** The bucket rows of one tenant and one kind of period: found by a key built from calendar fields,
    created on first use with the window of the date that came first. */
module TimeBuckets {
  import opened FiscalCalendar
  import opened Wrappers

  /** `buildPeriodKey`, before it is printed. */
  datatype Key =
    | YearKey(year: int)
    | QuarterKey(year: int, quarter: int)
    | MonthKey(year: int, month: int)
    | WeekKey(year: int, week: int)
    | DayKey(day: Civil)

  type Rows = map<Key, Bucket>

  function KeyOf(d: Civil, period: PeriodType): Key
    requires Valid(d)
  {
    match period
    case Yearly => YearKey(d.year)
    case Quarterly => QuarterKey(d.year, d.month / 3 + 1)
    case Monthly => MonthKey(d.year, d.month + 1)
    case Weekly => WeekKey(d.year, WeekOfYear(d))
    case Daily => DayKey(d)
  }

  /** The rows after a request. */
  function Requested(rows: Rows, d: Civil, period: PeriodType, fs: int): Rows
    requires Valid(d)
  {
    var key := KeyOf(d, period);
    if key in rows then rows else rows[key := BucketOf(d, period, fs)]
  }

  /** `getBucketOrThrow`, up to the check for frozen periods. */
  class TimeBucketService {
    var rows: Rows
    const period: PeriodType
    const tenantStart: Option<int>

    constructor (period: PeriodType, tenantStart: Option<int>)
      ensures rows == map[] && this.period == period && this.tenantStart == tenantStart
    {
      this.period, this.tenantStart, rows := period, tenantStart, map[];
    }

    method GetBucket(d: Civil) returns (bucket: Bucket)
      requires Valid(d)
      modifies this`rows
      ensures rows == Requested(old(rows), d, period, StartOr(tenantStart))
      ensures KeyOf(d, period) in rows && bucket == rows[KeyOf(d, period)]
    {
      var periodKey := KeyOf(d, period);
      if periodKey in rows {
        bucket := rows[periodKey];
      } else {
        bucket := EnsureBucket(d, period, tenantStart);
        rows := rows[periodKey := bucket];
      }
    }
  }

  // ---- runs

  /** Years that no reading touches, the fiscal year before included. */
  predicate Modern(d: Civil) { Valid(d) && d.year > 100 }

  predicate Requests(dates: seq<Civil>) { forall d :: d in dates ==> Modern(d) }

  /** The rows after a sequence of requests. */
  function RowsAfter(dates: seq<Civil>, period: PeriodType, fs: int): Rows
    requires Requests(dates)
  {
    if dates == [] then map[]
    else
      var before := RowsAfter(dates[..|dates| - 1], period, fs);
      assert dates[|dates| - 1] in dates;
      Requested(before, dates[|dates| - 1], period, fs)
  }

  /** Every row was made for a date with its key. */
  ghost predicate FirstCome(rows: Rows, period: PeriodType, fs: int) {
    forall k :: k in rows ==> exists first :: MadeFor(rows[k], k, first, period, fs)
  }

  ghost predicate MadeFor(b: Bucket, k: Key, first: Civil, period: PeriodType, fs: int) {
    Modern(first) && KeyOf(first, period) == k && b == BucketOf(first, period, fs)
  }

  lemma {:induction false} RowsAreFirstCome(dates: seq<Civil>, period: PeriodType, fs: int)
    requires Requests(dates)
    ensures FirstCome(RowsAfter(dates, period, fs), period, fs)
  {
    hide BucketOf, KeyOf;
    if dates != [] {
      var d := dates[|dates| - 1];
      var before := RowsAfter(dates[..|dates| - 1], period, fs);
      RowsAreFirstCome(dates[..|dates| - 1], period, fs);
      assert d in dates;
      assert MadeFor(BucketOf(d, period, fs), KeyOf(d, period), d, period, fs);
      forall k | k in RowsAfter(dates, period, fs)
        ensures exists first :: MadeFor(RowsAfter(dates, period, fs)[k], k, first, period, fs)
      {
        if k in before { assert RowsAfter(dates, period, fs)[k] == before[k]; }
      }
    }
  }

  /** The bucket a date gets after the earlier requests. */
  function Answer(earlier: seq<Civil>, d: Civil, period: PeriodType, fs: int): Bucket
    requires Requests(earlier) && Modern(d)
  {
    Requested(RowsAfter(earlier, period, fs), d, period, fs)[KeyOf(d, period)]
  }

  /** In every run, every date gets a bucket that holds it. */
  ghost predicate AlwaysHeld(period: PeriodType, fs: int) {
    forall earlier: seq<Civil>, d: Civil | Requests(earlier) && Modern(d) :: Held(earlier, d, period, fs)
  }

  ghost predicate Held(earlier: seq<Civil>, d: Civil, period: PeriodType, fs: int)
    requires Requests(earlier) && Modern(d)
  {
    var b := Answer(earlier, d, period, fs);
    Valid(b.start) && Valid(b.end) && Holds(b.Window(), d)
  }

  /** The start months whose fiscal periods are calendar periods. */
  predicate KeysFit(period: PeriodType, fs: int) {
    match period
    case Yearly => fs == 1
    case Quarterly => fs % 3 == 1
    case Weekly => false
    case Monthly => true
    case Daily => true
  }

  /** Where keys fit, dates of one key lie in one period. */
  lemma SameKeySamePeriod(first: Civil, d: Civil, period: PeriodType, fs: int)
    requires Modern(first) && Modern(d) && StartMonth(fs) && KeysFit(period, fs)
    requires KeyOf(first, period) == KeyOf(d, period)
    ensures InPeriod(d, first, period, fs)
  {
    hide DayNumber, MakeDay, WeekOfYear, QuarterIndex, MonthLength;
    match period {
      case Yearly =>
      case Quarterly => SameCalendarQuarter(first, d, fs);
      case Monthly =>
      case Daily => CenturiesLater(d);
    }
  }

  lemma SameCalendarQuarter(first: Civil, d: Civil, fs: int)
    requires Modern(first) && Modern(d) && StartMonth(fs) && fs % 3 == 1
    requires first.year == d.year && first.month / 3 == d.month / 3
    ensures FiscalYearOf(d, fs) == FiscalYearOf(first, fs)
    ensures QuarterIndex(d.month, fs - 1) == QuarterIndex(first.month, fs - 1)
  {
    hide MonthLength, QuarterIndex;
    var h := (fs - 1) / 3;
    assert fs - 1 == 3 * h && 0 <= h < 4;
    QuarterOfMonth(first.month, h);
    QuarterOfMonth(d.month, h);
  }

  /** A month's fiscal quarter where fiscal quarters are calendar quarters. */
  lemma QuarterOfMonth(month: int, h: int)
    requires 0 <= month < 12 && 0 <= h < 4
    ensures month >= 3 * h <==> month / 3 >= h
    ensures QuarterIndex(month, 3 * h) == if month / 3 >= h then month / 3 - h else month / 3 - h + 4
  {
    var g, r := month / 3, month % 3;
    assert month == 3 * g + r;
    if g >= h {
      assert (month - 3 * h + 12) % 12 == 3 * (g - h) + r;
    } else {
      assert (month - 3 * h + 12) % 12 == 3 * (g - h + 4) + r;
    }
  }

  /** Elsewhere two dates of one key lie in different periods. */
  lemma SameKeyOtherPeriod(period: PeriodType, fs: int) returns (first: Civil, d: Civil)
    requires StartMonth(fs) && !KeysFit(period, fs)
    ensures Modern(first) && Modern(d) && KeyOf(first, period) == KeyOf(d, period)
    ensures !InPeriod(d, first, period, fs)
  {
    match period {
      case Yearly => first, d := Civil(2025, 0, 15), Civil(2025, 11, 15);
      case Quarterly => first, d := Civil(2025, 3, 15), Civil(2025, 5, 15);
      case Weekly =>
        first, d := Civil(2026, 0, 1), Civil(2026, 0, 5);
        NewYear2026();
    }
  }

  /** A Thursday. */
  lemma NewYear2026()
    ensures DayNumber(Civil(2026, 0, 1)) == 20454 && DayNumber(Civil(2026, 0, 5)) == 20458
    ensures MakeDay(2026, 0, 1) == 20454
  {}

  /** Every date is sure of a bucket that holds it if and only if the keys follow the fiscal periods:
      always for months and days, for years that start in January, for quarters that are calendar
      quarters, and never for weeks. Otherwise the first date to ask fixes the window for all dates
      with its key, those of another fiscal period included. */
  lemma AlwaysHeldExactly(period: PeriodType, fs: int)
    requires StartMonth(fs)
    ensures AlwaysHeld(period, fs) <==> KeysFit(period, fs)
  {
    hide BucketOf, KeyOf, Holds, InPeriod, Modern;
    if KeysFit(period, fs) {
      forall earlier: seq<Civil>, d: Civil | Requests(earlier) && Modern(d) ensures Held(earlier, d, period, fs) {
        FittingKeysHold(earlier, d, period, fs);
      }
    } else {
      var first, d := SameKeyOtherPeriod(period, fs);
      SecondComerNotHeld(first, d, period, fs);
    }
  }

  lemma FittingKeysHold(earlier: seq<Civil>, d: Civil, period: PeriodType, fs: int)
    requires StartMonth(fs) && KeysFit(period, fs) && Requests(earlier) && Modern(d)
    ensures Held(earlier, d, period, fs)
  {
    hide BucketOf, KeyOf, Holds, InPeriod;
    var rows, k := RowsAfter(earlier, period, fs), KeyOf(d, period);
    RowsAreFirstCome(earlier, period, fs);
    var first := d;
    if k in rows {
      first :| MadeFor(rows[k], k, first, period, fs);
    }
    SameKeySamePeriod(first, d, period, fs);
    WindowIsThePeriod(first, d, period, fs);
  }

  lemma SecondComerNotHeld(first: Civil, d: Civil, period: PeriodType, fs: int)
    requires StartMonth(fs) && Modern(first) && Modern(d) && KeyOf(first, period) == KeyOf(d, period)
    requires !InPeriod(d, first, period, fs)
    ensures Requests([first]) && !Held([first], d, period, fs)
  {
    hide BucketOf, KeyOf, Holds, InPeriod;
    assert RowsAfter([first][..0], period, fs) == map[];
    WindowIsThePeriod(first, d, period, fs);
  }
}
