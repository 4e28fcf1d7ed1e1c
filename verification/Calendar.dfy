/** Periods of the campaign dashboard: the day, the Monday-to-Sunday week and the calendar
    month of a date, the period before it, the trend window, and the reference date of the
    previous snapshot. A date is its proleptic Gregorian day number (Python's toordinal),
    from 0001-01-01 to 9999-12-31; months are numbered through, month m of year y being
    12 y + m - 1. CivilRoundTrip ties day numbers to year, month and day. */
module Calendar {
  import opened Wrappers

  const LAST := 3652059 // 9999-12-31
  const OUT_OF_RANGE := "date value out of range"

  type Day = n: int | 1 <= n <= LAST witness 1

  /** Routes turn every other period name into "daily". */
  datatype Period = Daily | Weekly | Monthly

  datatype Range = Range(from: Day, to: Day)

  // ---------- months ----------

  predicate Leap(y: int) {
    y % 4 == 0 && (y % 100 != 0 || y % 400 == 0)
  }

  function LengthOf(y: int, m: int): (n: int)
    ensures 28 <= n <= 31
  {
    if m == 2 then (if Leap(y) then 29 else 28)
    else if m == 4 || m == 6 || m == 9 || m == 11 then 30
    else 31
  }

  function MonthLength(month: int): (n: int)
    ensures 28 <= n <= 31
  {
    LengthOf(month / 12, month % 12 + 1)
  }

  /** Day number of a month's first day: the lengths of the months since January of year 1. */
  function MonthStart(month: int): int {
    if month <= 12 then 1 else MonthStart(month - 1) + MonthLength(month - 1)
  }

  lemma {:induction false} MonthsAscend(a: int, b: int)
    requires 12 <= a <= b
    ensures MonthStart(a) + 28 * (b - a) <= MonthStart(b)
    decreases b - a
  {
    if a < b {
      MonthsAscend(a + 1, b);
    }
  }

  function MonthFrom(month: int, n: int): (r: int)
    requires 12 <= month && MonthStart(month) <= n
    ensures month <= r && MonthStart(r) <= n < MonthStart(r + 1)
    decreases n - MonthStart(month)
  {
    if n < MonthStart(month + 1) then month else MonthFrom(month + 1, n)
  }

  /** The month a day lies in. */
  function MonthOf(n: Day): (month: int)
    ensures 12 <= month && MonthStart(month) <= n < MonthStart(month + 1)
  {
    MonthFrom(12, n)
  }

  lemma MonthIs(n: Day, month: int)
    requires 12 <= month && MonthStart(month) <= n < MonthStart(month + 1)
    ensures MonthOf(n) == month
  {
    if MonthOf(n) < month {
      MonthsAscend(MonthOf(n) + 1, month);
    } else if month < MonthOf(n) {
      MonthsAscend(month + 1, MonthOf(n));
    }
  }

  // ---------- year, month, day ----------

  datatype Civil = Civil(year: int, month: int, day: int)

  predicate IsDate(c: Civil) {
    1 <= c.year <= 9999 && 1 <= c.month <= 12 && 1 <= c.day <= LengthOf(c.year, c.month)
  }

  function DaysBeforeYear(y: int): int {
    (y - 1) * 365 + (y - 1) / 4 - (y - 1) / 100 + (y - 1) / 400
  }

  function DaysBeforeMonth(y: int, m: int): int
    requires 1 <= m <= 12
  {
    [0, 31, 59, 90, 120, 151, 181, 212, 243, 273, 304, 334][m - 1] + (if m > 2 && Leap(y) then 1 else 0)
  }

  /** The closed form of the Gregorian day count. */
  function ToOrdinal(c: Civil): int
    requires 1 <= c.month <= 12
  {
    DaysBeforeYear(c.year) + DaysBeforeMonth(c.year, c.month) + c.day
  }

  function ToCivil(n: Day): Civil {
    Civil(MonthOf(n) / 12, MonthOf(n) % 12 + 1, n - MonthStart(MonthOf(n)) + 1)
  }

  lemma DivisionSteps(y: int)
    ensures y / 4 - (y - 1) / 4 == if y % 4 == 0 then 1 else 0
    ensures y / 100 - (y - 1) / 100 == if y % 100 == 0 then 1 else 0
    ensures y / 400 - (y - 1) / 400 == if y % 400 == 0 then 1 else 0
  {
  }

  lemma Hundreds(y: int)
    requires y % 400 == 0
    ensures y % 100 == 0
  {
    var q := y / 400;
    assert y == 400 * q;
  }

  lemma Fours(y: int)
    requires y % 100 == 0
    ensures y % 4 == 0
  {
    var q := y / 100;
    assert y == 100 * q;
  }

  lemma YearLength(y: int)
    ensures DaysBeforeYear(y + 1) - DaysBeforeYear(y) == if Leap(y) then 366 else 365
  {
    DivisionSteps(y);
    if y % 100 == 0 {
      Fours(y);
    }
    if y % 400 == 0 {
      Hundreds(y);
    }
  }

  function FirstDay(month: int): Civil {
    Civil(month / 12, month % 12 + 1, 1)
  }

  /** One month on, the closed form grows by the month's length. */
  lemma FormStep(month: int)
    ensures ToOrdinal(FirstDay(month + 1)) == ToOrdinal(FirstDay(month)) + MonthLength(month)
  {
    if month % 12 == 11 {
      YearLength(month / 12);
      assert (month + 1) / 12 == month / 12 + 1 && (month + 1) % 12 == 0;
    } else {
      assert (month + 1) / 12 == month / 12 && (month + 1) % 12 == month % 12 + 1;
    }
  }

  lemma {:induction false} ClosedForm(month: int)
    requires month >= 12
    ensures MonthStart(month) == ToOrdinal(FirstDay(month))
  {
    if month > 12 {
      ClosedForm(month - 1);
      FormStep(month - 1);
    }
  }

  lemma CalendarEnds()
    ensures MonthStart(12) == 1 && MonthStart(120000) == LAST + 1
  {
    ClosedForm(120000);
    assert FirstDay(120000) == Civil(10000, 1, 1);
    assert DaysBeforeYear(10000) == LAST;
  }

  lemma MonthWithin(n: Day)
    ensures 12 <= MonthOf(n) < 120000 && MonthStart(MonthOf(n) + 1) - 1 <= LAST
  {
    CalendarEnds();
    if MonthOf(n) >= 120000 {
      MonthsAscend(120000, MonthOf(n));
    } else {
      MonthsAscend(MonthOf(n) + 1, 120000);
    }
  }

  /** Day numbers and calendar dates correspond one to one, in both directions. */
  lemma CivilRoundTrip(n: Day, c: Civil)
    requires IsDate(c)
    ensures IsDate(ToCivil(n)) && ToOrdinal(ToCivil(n)) == n
    ensures 1 <= ToOrdinal(c) <= LAST && ToCivil(ToOrdinal(c)) == c
  {
    MonthWithin(n);
    ClosedForm(MonthOf(n));
    CivilToDay(c);
  }

  lemma CivilToDay(c: Civil)
    requires IsDate(c)
    ensures 1 <= ToOrdinal(c) <= LAST && ToCivil(ToOrdinal(c)) == c
  {
    var month := 12 * c.year + c.month - 1;
    assert FirstDay(month) == Civil(c.year, c.month, 1);
    ClosedForm(month);
    CalendarEnds();
    MonthsAscend(12, month);
    MonthsAscend(month + 1, 120000);
    MonthIs(ToOrdinal(c), month);
  }

  // ---------- the source's period functions ----------

  function AddDays(d: Day, k: int): Result<Day> {
    if 1 <= d + k <= LAST then Ok(d + k) else Err(OUT_OF_RANGE)
  }

  function Weekday(d: Day): int {
    (d + 6) % 7
  }

  /** d.replace(day=1) */
  function FirstOfMonth(d: Day): Day {
    MonthsAscend(12, MonthOf(d));
    MonthStart(MonthOf(d))
  }

  /** d.replace(day=monthrange(...)[1]) */
  function LastOfMonth(d: Day): Day {
    MonthWithin(d);
    MonthStart(MonthOf(d)) + MonthLength(MonthOf(d)) - 1
  }

  function SummaryRange(d: Day, p: Period): Result<Range> {
    match p
    case Weekly =>
      (match AddDays(d, -Weekday(d))
       case Err(m) => Err(m)
       case Ok(monday) =>
         match AddDays(monday, 6)
         case Err(m) => Err(m)
         case Ok(sunday) => Ok(Range(monday, sunday)))
    case Monthly => Ok(Range(FirstOfMonth(d), LastOfMonth(d)))
    case Daily => Ok(Range(d, d))
  }

  function PreviousRange(r: Range, p: Period): Result<Range> {
    match AddDays(r.from, -1)
    case Err(m) => Err(m)
    case Ok(last) =>
      match p
      case Monthly => Ok(Range(FirstOfMonth(last), last))
      case Weekly =>
        (match AddDays(last, -(r.to - r.from))
         case Err(m) => Err(m)
         case Ok(first) => Ok(Range(first, last)))
      case Daily => Ok(Range(last, last))
  }

  function FactInclusiveEnd(anchor: Day, p: Period): Result<Day> {
    match SummaryRange(anchor, p)
    case Err(m) => Err(m)
    case Ok(r) => Ok(r.to)
  }

  function Clamp(d: Day, from: Day, to: Day): Day {
    if d < from then from else if d > to then to else d
  }

  function SnapshotEnd(r: Range, target: Day): Day {
    Clamp(target, r.from, r.to)
  }

  function SameDayPrevMonth(d: Day): Result<Day> {
    var month, day := MonthOf(d) - 1, d - MonthStart(MonthOf(d)) + 1;
    if month < 12 then Err(OUT_OF_RANGE)
    else
      MonthsAscend(12, month);
      Ok(MonthStart(month) + (if day < MonthLength(month) then day else MonthLength(month)) - 1)
  }

  function PrevSnapshotRef(d: Day, p: Period): Result<Day> {
    match p
    case Daily => AddDays(d, -1)
    case Weekly => AddDays(d, -7)
    case Monthly => SameDayPrevMonth(d)
  }

  function SnapshotPrevEnd(prev: Range, d: Day, p: Period): Result<Day> {
    match PrevSnapshotRef(d, p)
    case Err(m) => Err(m)
    case Ok(reference) => Ok(Clamp(reference, prev.from, prev.to))
  }

  /** The bucket SQL groups a date into: date_trunc of the period. */
  function Bucket(d: Day, p: Period): Day {
    match p
    case Daily => d
    case Weekly => d - Weekday(d)
    case Monthly => FirstOfMonth(d)
  }

  // ---------- a period is its range ----------

  predicate Within(d: Day, r: Range) {
    r.from <= d <= r.to
  }

  /** Last day of d's period; past LAST for the unfinished last week of 9999. */
  function Last(d: Day, p: Period): int {
    match p
    case Daily => d
    case Weekly => d - Weekday(d) + 6
    case Monthly => LastOfMonth(d)
  }

  lemma RangeParts(d: Day, p: Period)
    ensures Bucket(d, p) <= d <= Last(d, p)
    ensures SummaryRange(d, p) == if Last(d, p) <= LAST then Ok(Range(Bucket(d, p), Last(d, p))) else Err(OUT_OF_RANGE)
    ensures SummaryRange(d, p).Ok? <==> p != Weekly || d < LAST - 4
  {
    if p == Weekly {
      assert Weekday(d) < d;
    }
  }

  lemma SameWeek(a: int, b: int)
    ensures a - (a + 6) % 7 == b - (b + 6) % 7 <==> b - (b + 6) % 7 <= a <= b - (b + 6) % 7 + 6
  {
    assert a - (a + 6) % 7 == 7 * ((a + 6) / 7) - 6;
    assert b - (b + 6) % 7 == 7 * ((b + 6) / 7) - 6;
  }

  lemma EarlierMonth(x: Day, d: Day)
    requires MonthOf(x) < MonthOf(d)
    ensures x <= LastOfMonth(x) < FirstOfMonth(d) && FirstOfMonth(x) < FirstOfMonth(d)
  {
    MonthsAscend(MonthOf(x) + 1, MonthOf(d));
  }

  lemma SameMonth(x: Day, d: Day)
    ensures FirstOfMonth(x) == FirstOfMonth(d) <==> FirstOfMonth(d) <= x <= LastOfMonth(d)
    ensures FirstOfMonth(x) == FirstOfMonth(d) <==> MonthOf(x) == MonthOf(d)
  {
    if MonthOf(x) < MonthOf(d) {
      EarlierMonth(x, d);
    } else if MonthOf(d) < MonthOf(x) {
      EarlierMonth(d, x);
    }
  }

  lemma SameBucket(x: Day, d: Day, p: Period)
    ensures Bucket(x, p) == Bucket(d, p) <==> Bucket(d, p) <= x <= Last(d, p)
    ensures Bucket(x, p) == Bucket(d, p) ==> Last(x, p) == Last(d, p)
  {
    match p {
      case Daily =>
      case Weekly => SameWeek(x, d);
      case Monthly => SameMonth(x, d);
    }
  }

  /** A date lies in the summary range of d exactly when SQL puts both in one bucket, and then
      it has the same summary range: the periods partition the calendar. */
  lemma RangeIsBucket(d: Day, x: Day, p: Period)
    requires SummaryRange(d, p).Ok?
    ensures Within(x, SummaryRange(d, p).value) <==> Bucket(x, p) == Bucket(d, p)
    ensures Within(x, SummaryRange(d, p).value) ==> SummaryRange(x, p) == SummaryRange(d, p)
  {
    RangeParts(d, p);
    RangeParts(x, p);
    SameBucket(x, d, p);
  }

  /** Weeks run Monday to Sunday; the month of a date is every date of its year and month. */
  lemma RangeMeaning(d: Day, x: Day, p: Period)
    requires SummaryRange(d, p).Ok?
    ensures Within(d, SummaryRange(d, p).value)
    ensures p == Daily ==> (Within(x, SummaryRange(d, p).value) <==> x == d)
    ensures p == Weekly ==>
              var r := SummaryRange(d, p).value; Weekday(r.from) == 0 && Weekday(r.to) == 6 && r.to == r.from + 6
    ensures p == Monthly ==>
              (Within(x, SummaryRange(d, p).value) <==>
               ToCivil(x).year == ToCivil(d).year && ToCivil(x).month == ToCivil(d).month)
  {
    RangeParts(d, p);
    if p == Monthly {
      MonthMeaning(d, x);
    } else if p == Weekly {
      SundaySix(d);
    }
  }

  lemma MonthMeaning(d: Day, x: Day)
    ensures FirstOfMonth(d) <= x <= LastOfMonth(d) <==>
            ToCivil(x).year == ToCivil(d).year && ToCivil(x).month == ToCivil(d).month
  {
    SameMonth(x, d);
    YearAndMonth(MonthOf(x), MonthOf(d));
  }

  lemma YearAndMonth(a: int, b: int)
    ensures a == b <==> a / 12 == b / 12 && a % 12 + 1 == b % 12 + 1
  {
    assert a == 12 * (a / 12) + a % 12;
  }

  lemma SundaySix(n: int)
    ensures (n - (n + 6) % 7 + 6) % 7 == 0 && (n - (n + 6) % 7 + 6 + 6) % 7 == 6
  {
    assert n - (n + 6) % 7 == 7 * ((n + 6) / 7) - 6;
  }

  // ---------- the period before ----------

  lemma WeekBefore(n: int)
    requires n - (n + 6) % 7 > 1
    ensures n - (n + 6) % 7 >= 8 && (n - (n + 6) % 7 - 1 + 6) % 7 == 6
  {
    assert n - (n + 6) % 7 == 7 * ((n + 6) / 7) - 6;
  }

  lemma MonthBefore(d: Day)
    requires FirstOfMonth(d) > 1
    ensures MonthOf(FirstOfMonth(d) - 1) == MonthOf(d) - 1
  {
    MonthIs(FirstOfMonth(d) - 1, MonthOf(d) - 1);
  }

  /** The period of the day before a period ends on that day. */
  lemma EndsThere(d: Day, p: Period)
    requires Bucket(d, p) > 1
    ensures Last(Bucket(d, p) - 1, p) == Bucket(d, p) - 1
    ensures p == Weekly ==> Bucket(d, p) >= 8 && Bucket(Bucket(d, p) - 1, p) == Bucket(d, p) - 7
  {
    if p == Weekly {
      WeekBefore(d);
    } else if p == Monthly {
      MonthBefore(d);
    }
  }

  /** The previous range of a period is the summary range of the day before it; it is missing
      exactly for the period that opens the calendar. */
  lemma PreviousIsDayBefore(d: Day, p: Period)
    requires SummaryRange(d, p).Ok?
    ensures PreviousRange(SummaryRange(d, p).value, p) ==
            match AddDays(SummaryRange(d, p).value.from, -1)
            case Err(m) => Err(m)
            case Ok(before) => SummaryRange(before, p)
    ensures PreviousRange(SummaryRange(d, p).value, p).Ok? <==> Bucket(d, p) > 1
  {
    RangeParts(d, p);
    if Bucket(d, p) > 1 {
      EndsThere(d, p);
      RangeParts(Bucket(d, p) - 1, p);
    }
  }

  lemma CutToMonth(d: Day)
    requires SameDayPrevMonth(d).Ok?
    ensures var r, month := SameDayPrevMonth(d).value, MonthOf(d) - 1;
            && MonthOf(r) == month && ToCivil(d).day == d - MonthStart(MonthOf(d)) + 1
            && r == MonthStart(month) + Least(ToCivil(d).day, MonthLength(month)) - 1
  {
    MonthIs(SameDayPrevMonth(d).value, MonthOf(d) - 1);
  }

  function Least(a: int, b: int): int {
    if a < b then a else b
  }

  lemma DayInMonth(x: Day)
    ensures ToCivil(x).day <= MonthLength(MonthOf(x)) && x == MonthStart(MonthOf(x)) + ToCivil(x).day - 1
  {
  }

  /** The month-end cut: the latest date of the previous month whose day is not after d's day. */
  lemma SameDayPrevMonthMeaning(d: Day, x: Day)
    requires SameDayPrevMonth(d).Ok?
    ensures var r := SameDayPrevMonth(d).value;
            && MonthOf(r) == MonthOf(d) - 1 && ToCivil(r).day <= ToCivil(d).day
            && (MonthOf(x) == MonthOf(d) - 1 && ToCivil(x).day <= ToCivil(d).day ==> x <= r)
  {
    CutToMonth(d);
    DayInMonth(SameDayPrevMonth(d).value);
    DayInMonth(x);
  }

  lemma ReferenceWithin(d: Day, p: Period)
    ensures PrevSnapshotRef(d, p).Ok? <==> Bucket(d, p) > 1
    ensures Bucket(d, p) > 1 ==> Bucket(Bucket(d, p) - 1, p) <= PrevSnapshotRef(d, p).value <= Bucket(d, p) - 1
  {
    match p {
      case Daily =>
      case Weekly =>
        assert d - 7 >= 1 <==> d - (d + 6) % 7 > 1 by {
          assert d - (d + 6) % 7 == 7 * ((d + 6) / 7) - 6;
        }
        if Bucket(d, p) > 1 {
          EndsThere(d, p);
        }
      case Monthly =>
        if MonthOf(d) > 12 {
          MonthsAscend(12, MonthOf(d) - 1);
          MonthBefore(d);
        }
    }
  }

  /** Leap years, month ends and January included, the reference date of the previous snapshot
      lies in the previous range, so clamping never moves it; it is missing exactly when that
      range is. */
  lemma ReferenceNeedsNoClamp(d: Day, p: Period)
    requires SummaryRange(d, p).Ok?
    ensures PrevSnapshotRef(d, p).Ok? <==> PreviousRange(SummaryRange(d, p).value, p).Ok?
    ensures PreviousRange(SummaryRange(d, p).value, p).Ok? ==>
              var prev := PreviousRange(SummaryRange(d, p).value, p).value;
              && Within(PrevSnapshotRef(d, p).value, prev)
              && SnapshotPrevEnd(prev, d, p) == PrevSnapshotRef(d, p)
  {
    PreviousIsDayBefore(d, p);
    RangeParts(d, p);
    ReferenceWithin(d, p);
    if Bucket(d, p) > 1 {
      EndsThere(d, p);
      RangeParts(Bucket(d, p) - 1, p);
    }
  }

  /** The snapshot date of the current period is the anchor itself. */
  lemma AnchorNeedsNoClamp(d: Day, p: Period)
    requires SummaryRange(d, p).Ok?
    ensures SnapshotEnd(SummaryRange(d, p).value, d) == d
  {
    RangeParts(d, p);
  }

  // ---------- the trend window ----------

  /** The first day of the period k before d's, stepping to the day before each time. */
  function StartBack(d: Day, p: Period, k: nat): Result<Day>
    decreases k
  {
    if k == 0 then Ok(Bucket(d, p))
    else if Bucket(d, p) == 1 then Err(OUT_OF_RANGE)
    else StartBack(Bucket(d, p) - 1, p, k - 1)
  }

  /** The k-th range before a range, by repeating PreviousRange. */
  function RangeBack(r: Range, p: Period, k: nat): Result<Range>
    decreases k
  {
    if k == 0 then Ok(r)
    else
      match PreviousRange(r, p)
      case Err(m) => Err(m)
      case Ok(prev) => RangeBack(prev, p, k - 1)
  }

  lemma {:induction false} DaysBack(d: Day, k: nat)
    ensures StartBack(d, Daily, k) == AddDays(d, 0 - k)
    decreases k
  {
    if k > 0 && d > 1 {
      DaysBack(d - 1, k - 1);
    }
  }

  lemma {:induction false} WeeksBack(d: Day, k: nat)
    ensures StartBack(d, Weekly, k) == AddDays(Bucket(d, Weekly), -7 * k)
    decreases k
  {
    if k > 0 && Bucket(d, Weekly) > 1 {
      EndsThere(d, Weekly);
      WeeksBack(Bucket(d, Weekly) - 1, k - 1);
    }
  }

  /** The last of the steps back can be taken on its own. */
  lemma {:induction false} OneMoreBack(d: Day, p: Period, k: nat)
    ensures StartBack(d, p, k + 1) ==
            if StartBack(d, p, k).Err? || StartBack(d, p, k).value == 1 then Err(OUT_OF_RANGE)
            else Ok(Bucket(StartBack(d, p, k).value - 1, p))
    decreases k
  {
    if k == 0 {
      assert Bucket(d, p) > 1 ==> StartBack(Bucket(d, p) - 1, p, 0) == Ok(Bucket(Bucket(d, p) - 1, p));
    } else if Bucket(d, p) > 1 {
      OneMoreBack(Bucket(d, p) - 1, p, k - 1);
    }
  }

  lemma {:induction false} StaysOut(d: Day, p: Period, k: nat, n: nat)
    requires k <= n && StartBack(d, p, k) == Err(OUT_OF_RANGE)
    ensures StartBack(d, p, n) == Err(OUT_OF_RANGE)
    decreases n
  {
    if k < n {
      StaysOut(d, p, k, n - 1);
      OneMoreBack(d, p, n - 1);
    }
  }

  lemma {:induction false} StartsMonth(d: Day, k: nat)
    requires StartBack(d, Monthly, k).Ok?
    ensures FirstOfMonth(StartBack(d, Monthly, k).value) == StartBack(d, Monthly, k).value
    decreases k
  {
    if k == 0 {
      MonthIs(FirstOfMonth(d), MonthOf(d));
    } else {
      StartsMonth(FirstOfMonth(d) - 1, k - 1);
    }
  }

  lemma OneMonthMore(d: Day, k: nat)
    requires StartBack(d, Monthly, k).Ok?
    ensures var s := StartBack(d, Monthly, k).value;
            && FirstOfMonth(s) == s
            && StartBack(d, Monthly, k + 1) == if s == 1 then Err(OUT_OF_RANGE) else Ok(FirstOfMonth(s - 1))
  {
    StartsMonth(d, k);
    OneMoreBack(d, Monthly, k);
  }

  /** trend_multi_window_start */
  method TrendWindowStart(end: Day, p: Period, days: nat, count: nat) returns (r: Result<Day>)
    requires days >= 1 && count >= 1
    ensures r == StartBack(end, p, (if p == Daily then days else count) - 1)
  {
    match p {
      case Monthly =>
        var start := FirstOfMonth(end);
        var i := 0;
        while i < count - 1
          invariant 0 <= i <= count - 1
          invariant StartBack(end, p, i) == Ok(start)
        {
          OneMonthMore(end, i);
          var before := AddDays(FirstOfMonth(start), -1);
          if before.Err? {
            StaysOut(end, p, i + 1, count - 1);
            return before;
          }
          start := FirstOfMonth(before.value);
          i := i + 1;
        }
        r := Ok(start);
      case Weekly =>
        WeeksBack(end, count - 1);
        r := AddDays(end - Weekday(end), -7 * (count - 1));
      case Daily =>
        DaysBack(end, days - 1);
        r := AddDays(end, -(days - 1));
    }
  }

  lemma StepBack(d: Day, p: Period)
    requires SummaryRange(d, p).Ok? && Bucket(d, p) > 1
    ensures SummaryRange(Bucket(d, p) - 1, p).Ok? && Last(Bucket(d, p) - 1, p) == Bucket(d, p) - 1
    ensures PreviousRange(SummaryRange(d, p).value, p) == SummaryRange(Bucket(d, p) - 1, p)
    ensures Bucket(Bucket(d, p) - 1, p) < Bucket(d, p)
  {
    PreviousIsDayBefore(d, p);
    EndsThere(d, p);
    RangeParts(d, p);
    RangeParts(Bucket(d, p) - 1, p);
  }

  lemma NoStepBack(d: Day, p: Period)
    requires SummaryRange(d, p).Ok? && Bucket(d, p) == 1
    ensures PreviousRange(SummaryRange(d, p).value, p).Err?
  {
    PreviousIsDayBefore(d, p);
  }

  lemma BucketOpensRange(d: Day, p: Period)
    requires SummaryRange(d, p).Ok?
    ensures SummaryRange(Bucket(d, p), p) == SummaryRange(d, p) && SummaryRange(d, p).value.from == Bucket(d, p)
  {
    RangeParts(d, p);
    RangeIsBucket(d, Bucket(d, p), p);
  }

  lemma {:induction false} StartBelow(d: Day, p: Period, k: nat)
    requires SummaryRange(d, p).Ok? && StartBack(d, p, k).Ok?
    ensures StartBack(d, p, k).value <= Bucket(d, p)
    decreases k
  {
    if k > 0 {
      StepBack(d, p);
      StartBelow(Bucket(d, p) - 1, p, k - 1);
    }
  }

  ghost predicate OpensRange(s: Day, p: Period) {
    SummaryRange(s, p).Ok? && SummaryRange(s, p).value.from == s
  }

  lemma RangeBackStep(d: Day, p: Period, k: nat)
    requires SummaryRange(d, p).Ok? && Bucket(d, p) > 1 && k > 0
    ensures SummaryRange(Bucket(d, p) - 1, p).Ok?
    ensures StartBack(d, p, k) == StartBack(Bucket(d, p) - 1, p, k - 1)
    ensures RangeBack(SummaryRange(d, p).value, p, k) == RangeBack(SummaryRange(Bucket(d, p) - 1, p).value, p, k - 1)
  {
    StepBack(d, p);
  }

  /** The period k before d's is the k-th previous range, whole, and it opens the window. */
  lemma {:induction false} WindowIsRanges(d: Day, p: Period, k: nat)
    requires SummaryRange(d, p).Ok?
    ensures match StartBack(d, p, k)
            case Err(_) => RangeBack(SummaryRange(d, p).value, p, k).Err?
            case Ok(s) => OpensRange(s, p) && RangeBack(SummaryRange(d, p).value, p, k) == SummaryRange(s, p)
    decreases k
  {
    if k == 0 {
      BucketOpensRange(d, p);
    } else if Bucket(d, p) > 1 {
      RangeBackStep(d, p, k);
      WindowIsRanges(Bucket(d, p) - 1, p, k - 1);
    } else {
      NoStepBack(d, p);
    }
  }

  lemma InsideOrBefore(d: Day, p: Period, x: Day)
    requires SummaryRange(d, p).Ok? && x <= Last(d, p)
    ensures SummaryRange(x, p).Ok? && Last(x, p) <= Last(d, p)
    ensures x >= Bucket(d, p) ==> Bucket(x, p) == Bucket(d, p)
  {
    RangeParts(d, p);
    RangeParts(x, p);
    SameBucket(x, d, p);
    SameBucket(d, x, p);
  }

  lemma {:induction false} BucketInWindow(d: Day, p: Period, k: nat, x: Day)
    requires SummaryRange(d, p).Ok? && StartBack(d, p, k).Ok?
    requires StartBack(d, p, k).value <= x <= Last(d, p)
    ensures StartBack(d, p, k).value <= Bucket(x, p)
    decreases k
  {
    InsideOrBefore(d, p, x);
    if x >= Bucket(d, p) {
      StartBelow(d, p, k);
    } else if k > 0 {
      StepBack(d, p);
      BucketInWindow(Bucket(d, p) - 1, p, k - 1, x);
    }
  }

  /** The window consists of whole periods: with any of its dates it holds that date's entire
      summary range. */
  lemma WindowHoldsWholePeriods(d: Day, p: Period, k: nat, x: Day)
    requires SummaryRange(d, p).Ok? && StartBack(d, p, k).Ok?
    requires StartBack(d, p, k).value <= x <= Last(d, p)
    ensures SummaryRange(x, p).Ok?
    ensures StartBack(d, p, k).value <= Bucket(x, p) && Last(x, p) <= Last(d, p)
  {
    InsideOrBefore(d, p, x);
    BucketInWindow(d, p, k, x);
  }

  /** Size of the window that ends with d's period: k + 1 days, k + 1 weeks, or k + 1 months. */
  lemma WindowSize(d: Day, p: Period, k: nat)
    requires StartBack(d, p, k).Ok?
    ensures p == Daily ==> Last(d, p) - StartBack(d, p, k).value + 1 == k + 1
    ensures p == Weekly ==> Last(d, p) - StartBack(d, p, k).value + 1 == 7 * (k + 1)
    ensures p == Monthly ==>
              StartBack(d, p, k).value == MonthStart(MonthOf(d) - k) && Last(d, p) + 1 == MonthStart(MonthOf(d) + 1)
  {
    match p {
      case Daily => DaysBack(d, k);
      case Weekly => WeeksBack(d, k);
      case Monthly => MonthsBack(d, k);
    }
  }

  lemma MonthsBackStep(d: Day, k: nat)
    requires k > 0 && StartBack(d, Monthly, k).Ok?
    ensures FirstOfMonth(d) > 1 && StartBack(d, Monthly, k) == StartBack(FirstOfMonth(d) - 1, Monthly, k - 1)
    ensures MonthOf(FirstOfMonth(d) - 1) == MonthOf(d) - 1
  {
    MonthBefore(d);
  }

  lemma {:induction false} MonthsBack(d: Day, k: nat)
    requires StartBack(d, Monthly, k).Ok?
    ensures StartBack(d, Monthly, k).value == MonthStart(MonthOf(d) - k)
    decreases k
  {
    if k > 0 {
      MonthsBackStep(d, k);
      MonthsBack(FirstOfMonth(d) - 1, k - 1);
    }
  }
}
