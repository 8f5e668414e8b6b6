/** Daily attendance metrics merged into report periods, and the trend series built from them
    (report-api: MergeTrendsIntoPeriods, GetAttendanceTrends, the summary fold of GetSummary). */
module Trends {
  import opened Options
  import opened Calendar
  import opened Tally
  import opened Buckets
  import opened Periods

  datatype Metric = Metric(periodStart: string, periodEnd: string, avgHours: real, lateRate: real, lateCount: int,
                           headcount: int)

  function MetricSum(m: Metric): Sum {
    Sum(0, 0, 0, m.lateCount, m.headcount, m.avgHours, 1)
  }

  /** The day a metric belongs to, for metrics whose date parses. */
  function DayOf(m: Metric): nat
    requires ParseDay(m.periodStart).Some?
  {
    ParseDay(m.periodStart).value
  }

  /** What the daily query returns: one metric for each date that has one. */
  ghost predicate OnePerDay(daily: seq<Metric>) {
    && (forall m <- daily :: ParseDay(m.periodStart).Some?)
    && (forall i, j :: 0 <= i < j < |daily| ==> daily[i].periodStart != daily[j].periodStart)
  }

  function MetricItems(daily: seq<Metric>): seq<Item>
    requires forall m <- daily :: ParseDay(m.periodStart).Some?
  {
    seq(|daily|, i requires 0 <= i < |daily| => Item(DayOf(daily[i]), MetricSum(daily[i])))
  }

  /** One metric more at the end. */
  lemma MetricsSnoc(daily: seq<Metric>)
    requires OnePerDay(daily) && daily != []
    ensures var (init, m) := (daily[..|daily| - 1], daily[|daily| - 1]);
            && m in daily && OnePerDay(init) && (forall x <- init :: x in daily && x.periodStart != m.periodStart)
            && MetricItems(daily) == MetricItems(init) + [Item(DayOf(m), MetricSum(m))]
  {
    InitialMetrics(daily);
  }

  lemma InitialMetrics(daily: seq<Metric>)
    requires OnePerDay(daily) && daily != []
    ensures var (init, m) := (daily[..|daily| - 1], daily[|daily| - 1]);
            m in daily && OnePerDay(init) && forall x <- init :: x in daily && x.periodStart != m.periodStart
  {
    var init := daily[..|daily| - 1];
    forall x | x in init ensures x in daily && x.periodStart != daily[|daily| - 1].periodStart {
      var i :| 0 <= i < |init| && init[i] == x;
      assert daily[i] == x;
    }
  }

  // ---------------------------------------------------------------------------
  // Merging.
  // ---------------------------------------------------------------------------

  /** The day map; a later metric of the same date replaces an earlier one. */
  function DayMap(daily: seq<Metric>): map<string, Metric>
    decreases |daily|
  {
    if daily == [] then map[]
    else DayMap(daily[..|daily| - 1])[daily[|daily| - 1].periodStart := daily[|daily| - 1]]
  }

  /** What the day loop of the merge accumulates from `first` to `last`; `text` prints a day. */
  function SumDays(text: nat -> string, days: map<string, Metric>, first: nat, last: int): Sum
    decreases last - first
  {
    if last < first then ZERO
    else
      var before := SumDays(text, days, first, last - 1);
      if text(last) in days then Plus(before, MetricSum(days[text(last)])) else before
  }

  /** time.Parse's result when it fails is the zero time, 0001-01-01. */
  const ZERO_TIME: nat := 366

  function ParseOrZero(s: string): nat {
    if ParseDay(s).Some? then ParseDay(s).value else ZERO_TIME
  }

  lemma ZeroTimeIsYearOne()
    ensures DayNumber(Date(1, 1, 1)) == ZERO_TIME
  {
    DaysBeforeYearIs(1);
  }

  predicate ByRange(granularity: string) {
    granularity == "yearly" || granularity == "quarterly" || granularity == "monthly" || granularity == "weekly"
  }

  /** LateRate and AvgHours of a period; each stays as it was if there is nothing to divide by. */
  function WithRates(p: PeriodReport, sum: Sum): PeriodReport {
    p.(lateRate := if sum.head > 0 then sum.late as real / sum.head as real else p.lateRate,
       avgHours := if sum.days > 0 then sum.hours / sum.days as real else p.avgHours)
  }

  function MergeOne(p: PeriodReport, days: map<string, Metric>, byRange: bool): PeriodReport {
    if byRange then WithRates(p, SumDays(FormatDay, days, ParseOrZero(p.periodStart), ParseOrZero(p.periodEnd)))
    else if p.periodStart in days then p.(lateRate := days[p.periodStart].lateRate,
                                          avgHours := days[p.periodStart].avgHours)
    else p
  }

  function Merged(periods: seq<PeriodReport>, daily: seq<Metric>, granularity: string): seq<PeriodReport> {
    if periods == [] || daily == [] then periods
    else seq(|periods|, i requires 0 <= i < |periods| => MergeOne(periods[i], DayMap(daily), ByRange(granularity)))
  }

  method BuildDayMap(daily: seq<Metric>) returns (days: map<string, Metric>)
    ensures days == DayMap(daily)
  {
    days := map[];
    for i := 0 to |daily|
      invariant days == DayMap(daily[..i])
    {
      assert daily[..i + 1][..i] == daily[..i];
      days := days[daily[i].periodStart := daily[i]];
    }
    assert daily[..|daily|] == daily;
  }

  /** The accumulators of the day loop. */
  method SumRange(days: map<string, Metric>, start: nat, end: nat)
    returns (sumLate: int, sumHead: int, sumHours: real, count: int)
    ensures Sum(0, 0, 0, sumLate, sumHead, sumHours, count) == SumDays(FormatDay, days, start, end)
  {
    sumLate, sumHead, sumHours, count := 0, 0, 0.0, 0;
    var d := start;
    while d <= end
      invariant start <= d && (d <= end + 1 || d == start)
      invariant Sum(0, 0, 0, sumLate, sumHead, sumHours, count) == SumDays(FormatDay, days, start, d - 1)
      decreases end + 1 - d
    {
      var key := FormatDay(d);
      if key in days {
        var m := days[key];
        sumLate := sumLate + m.lateCount;
        sumHead := sumHead + m.headcount;
        sumHours := sumHours + m.avgHours;
        count := count + 1;
      }
      d := Advance(d, 1);
    }
    EmptyRange(days, start, end, d);
  }

  lemma EmptyRange(days: map<string, Metric>, start: nat, end: nat, d: nat)
    requires start <= d && end < d && (d <= end + 1 || d == start)
    ensures SumDays(FormatDay, days, start, d - 1) == SumDays(FormatDay, days, start, end)
  {
    if d > end + 1 {
      assert SumDays(FormatDay, days, start, d - 1) == ZERO == SumDays(FormatDay, days, start, end);
    }
  }

  /** The periods are updated in place. */
  method MergeTrendsIntoPeriods(periods: array<PeriodReport>, daily: seq<Metric>, granularity: string)
    modifies periods
    ensures periods[..] == Merged(old(periods[..]), daily, granularity)
  {
    if periods.Length == 0 || |daily| == 0 {
      return;
    }
    var days := BuildDayMap(daily);
    ghost var was := periods[..];
    ghost var byRange := ByRange(granularity);
    for i := 0 to periods.Length
      invariant forall k :: 0 <= k < i ==> periods[k] == MergeOne(was[k], days, byRange)
      invariant forall k :: i <= k < periods.Length ==> periods[k] == was[k]
    {
      periods[i] := MergePeriod(periods[i], days, granularity);
    }
  }

  /** One turn of the merge loop. */
  method MergePeriod(p: PeriodReport, days: map<string, Metric>, granularity: string) returns (q: PeriodReport)
    ensures q == MergeOne(p, days, ByRange(granularity))
  {
    if granularity == "yearly" || granularity == "quarterly" || granularity == "monthly" {
      q := MergeRange(p, days);
    } else if granularity == "weekly" {
      q := MergeRange(p, days);
    } else {
      q := p;
      if p.periodStart in days {
        q := q.(lateRate := days[p.periodStart].lateRate, avgHours := days[p.periodStart].avgHours);
      }
    }
  }

  method MergeRange(p: PeriodReport, days: map<string, Metric>) returns (q: PeriodReport)
    ensures q == WithRates(p, SumDays(FormatDay, days, ParseOrZero(p.periodStart), ParseOrZero(p.periodEnd)))
  {
    var sumLate, sumHead, sumHours, count := SumRange(days, ParseOrZero(p.periodStart), ParseOrZero(p.periodEnd));
    q := p;
    if sumHead > 0 {
      q := q.(lateRate := sumLate as real / sumHead as real);
    }
    if count > 0 {
      q := q.(avgHours := sumHours / count as real);
    }
  }

  // ---------------------------------------------------------------------------
  // The day loop meets each metric in its range exactly once.
  // ---------------------------------------------------------------------------

  lemma {:induction false} DayMapKeys(daily: seq<Metric>)
    ensures forall key :: key in DayMap(daily) <==> exists m :: m in daily && m.periodStart == key
    decreases |daily|
  {
    if daily != [] {
      var init, last := daily[..|daily| - 1], daily[|daily| - 1];
      assert daily == init + [last];
      DayMapKeys(init);
      forall key ensures key in DayMap(daily) <==> exists m :: m in daily && m.periodStart == key {
        if key in DayMap(init) {
          var m :| m in init && m.periodStart == key;
          assert m in daily;
        }
        if exists m :: m in daily && m.periodStart == key {
          var m :| m in daily && m.periodStart == key;
          assert m in init || m == last;
        }
      }
    }
  }

  /** Entering one new date changes the sum of a range by that date's metric or not at all. */
  lemma {:induction false} SumDaysInsert(text: nat -> string, days: map<string, Metric>, m: Metric, day: nat,
                                         first: nat, last: int)
    requires m.periodStart !in days && forall n: nat :: text(n) == m.periodStart <==> n == day
    ensures SumDays(text, days[m.periodStart := m], first, last) ==
            if first <= day <= last then Plus(SumDays(text, days, first, last), MetricSum(m))
            else SumDays(text, days, first, last)
    decreases last - first
  {
    if first <= last {
      SumDaysInsert(text, days, m, day, first, last - 1);
      assert text(last) == m.periodStart <==> last == day;
    }
  }

  lemma TextIsDay(m: Metric, n: nat)
    requires ParseDay(m.periodStart).Some?
    ensures FormatDay(n) == m.periodStart <==> n == DayOf(m)
  {
    FormatParse(m.periodStart);
    if FormatDay(n) == m.periodStart {
      TextNamesOneDay(n, DayOf(m));
    }
  }

  lemma TextNamesOneDay(a: nat, b: nat)
    requires Nameable(b) && FormatDay(a) == FormatDay(b)
    ensures a == b
  {
    if Nameable(a) {
      ParseFormat(a);
      ParseFormat(b);
    } else {
      LongYear(a);
      ShortYear(b);
    }
  }

  lemma LongNumber(n: nat, digits: nat)
    requires n >= 10 && |Decimal(n / 10)| >= digits
    ensures |Decimal(n)| >= digits + 1
  {
  }

  lemma LongYear(a: nat)
    requires !Nameable(a)
    ensures |FormatDay(a)| > 10
  {
    CivilCounts(a);
    FiveDigits(Civil(a).year);
  }

  lemma FiveDigits(year: nat)
    requires year >= 10000
    ensures |Decimal(year)| >= 5
  {
    var d1 := year / 10;
    var d2 := d1 / 10;
    var d3 := d2 / 10;
    DecimalLength(d3 / 10);
    LongNumber(d3, 1);
    LongNumber(d2, 2);
    LongNumber(d1, 3);
    LongNumber(year, 4);
  }

  lemma ShortYear(b: nat)
    requires Nameable(b)
    ensures |FormatDay(b)| == 10
  {
    CivilCounts(b);
  }

  /** `text` prints exactly one day as the date of `m`. */
  ghost predicate Prints(text: nat -> string, m: Metric)
    requires ParseDay(m.periodStart).Some?
  {
    forall n: nat :: text(n) == m.periodStart <==> n == DayOf(m)
  }

  lemma {:induction false} DayLoopIsSumBy(text: nat -> string, daily: seq<Metric>, first: nat, last: int)
    requires OnePerDay(daily) && forall m <- daily :: Prints(text, m)
    ensures SumDays(text, DayMap(daily), first, last) == SumIn(MetricItems(daily), Span(first, last))
    decreases |daily|
  {
    if daily == [] {
      EmptyDays(text, first, last);
    } else {
      var init, m := daily[..|daily| - 1], daily[|daily| - 1];
      MetricsSnoc(daily);
      DayLoopIsSumBy(text, init, first, last);
      assert m.periodStart !in DayMap(init) by {
        DayMapKeys(init);
      }
      assert Prints(text, m);
      SumDaysInsert(text, DayMap(init), m, DayOf(m), first, last);
      SumInSnoc(MetricItems(init), Item(DayOf(m), MetricSum(m)), Span(first, last));
    }
  }

  lemma FormatPrints(m: Metric)
    requires ParseDay(m.periodStart).Some?
    ensures Prints(FormatDay, m)
  {
    forall n: nat ensures FormatDay(n) == m.periodStart <==> n == DayOf(m) {
      TextIsDay(m, n);
    }
  }

  /** For one metric a day, the day-by-day loop and the sum over the metrics dated in the range
      are the same. */
  lemma DayLoopIsSum(daily: seq<Metric>, first: nat, last: int)
    requires OnePerDay(daily)
    ensures SumDays(FormatDay, DayMap(daily), first, last) == SumIn(MetricItems(daily), Span(first, last))
  {
    forall m | m in daily ensures Prints(FormatDay, m) {
      FormatPrints(m);
    }
    DayLoopIsSumBy(FormatDay, daily, first, last);
  }

  lemma {:induction false} EmptyDays(text: nat -> string, first: nat, last: int)
    ensures SumDays(text, map[], first, last) == ZERO
    decreases last - first
  {
    if first <= last {
      EmptyDays(text, first, last - 1);
    }
  }

  // ---------------------------------------------------------------------------
  // The trend series.
  // ---------------------------------------------------------------------------

  function TrendRow(m: Metric): AggregatedRow {
    AggregatedRow("", m.periodStart, 0, 0, 0, m.avgHours)
  }

  function TrendRows(daily: seq<Metric>): seq<AggregatedRow> {
    seq(|daily|, i requires 0 <= i < |daily| => TrendRow(daily[i]))
  }

  datatype Point = Point(periodStart: string, periodEnd: string, avgHours: real, lateRate: real)

  /** The series shows the bounds, the mean hours and the late rate of each period. */
  ghost predicate Shows(series: seq<Point>, periods: seq<PeriodReport>) {
    |series| == |periods| && forall i :: 0 <= i < |series| ==>
      && series[i].periodStart == periods[i].periodStart && series[i].periodEnd == periods[i].periodEnd
      && series[i].avgHours == periods[i].avgHours && series[i].lateRate == periods[i].lateRate
  }

  function TrendPeriods(daily: seq<Metric>, granularity: string, startDate: string,
                        endDate: string): seq<PeriodReport> {
    Merged(Built(TrendRows(daily), granularity, startDate, endDate), daily, granularity)
  }

  method CollectPoints(periods: array<PeriodReport>) returns (series: seq<Point>)
    ensures Shows(series, periods[..])
  {
    series := [];
    for i := 0 to periods.Length
      invariant Shows(series, periods[..i])
    {
      var p := periods[i];
      series := series + [Point(p.periodStart, p.periodEnd, p.avgHours, p.lateRate)];
    }
  }

  method BuildTrendRows(daily: seq<Metric>) returns (aggRows: seq<AggregatedRow>)
    ensures aggRows == TrendRows(daily)
  {
    aggRows := [];
    for i := 0 to |daily|
      invariant aggRows == TrendRows(daily[..i])
    {
      aggRows := aggRows + [TrendRow(daily[i])];
    }
    assert daily[..|daily|] == daily;
  }

  method MergeIntoNew(built: seq<PeriodReport>, daily: seq<Metric>, granularity: string) returns (series: seq<Point>)
    ensures Shows(series, Merged(built, daily, granularity))
  {
    var periods := new PeriodReport[|built|](i requires 0 <= i < |built| => built[i]);
    assert periods[..] == built;
    MergeTrendsIntoPeriods(periods, daily, granularity);
    series := CollectPoints(periods);
  }

  /** The range of the request, which the daily query respects. */
  ghost predicate InRange(daily: seq<Metric>, startDate: string, endDate: string) {
    && ParseDay(startDate).Some? && ParseDay(endDate).Some?
    && forall m <- daily ::
        ParseDay(m.periodStart).Some? && ParseDay(startDate).value <= DayOf(m) <= ParseDay(endDate).value
  }

  lemma TrendItemsSnoc(daily: seq<Metric>)
    requires daily != [] && forall m <- daily :: ParseDay(m.periodStart).Some?
    ensures var (init, m) := (daily[..|daily| - 1], daily[|daily| - 1]);
            && m in daily && (forall x <- init :: x in daily)
            && Items(TrendRows(daily)) == Items(TrendRows(init)) + [Item(DayOf(m), RowSum(TrendRow(m)))]
  {
    var init, m := daily[..|daily| - 1], daily[|daily| - 1];
    assert m in daily && forall x <- init :: x in daily;
    assert TrendRows(daily) == TrendRows(init) + [TrendRow(m)];
    ItemsSnoc(TrendRows(init), TrendRow(m));
  }

  lemma {:induction false} TrendItemDays(daily: seq<Metric>, i: nat)
    requires i < |daily| && forall m <- daily :: ParseDay(m.periodStart).Some?
    ensures |Items(TrendRows(daily))| == |daily|
    ensures Items(TrendRows(daily))[i].day == DayOf(daily[i])
    decreases |daily|
  {
    var init := daily[..|daily| - 1];
    TrendItemsSnoc(daily);
    if i < |init| {
      TrendItemDays(init, i);
    } else if |init| > 0 {
      TrendItemDays(init, 0);
    }
  }

  lemma SameDaySameText(a: string, b: string)
    requires ParseDay(a).Some? && ParseDay(a) == ParseDay(b)
    ensures a == b
  {
    FormatParse(a);
    FormatParse(b);
  }

  function DaySpans(daily: seq<Metric>): seq<Span> {
    seq(|daily|, i requires 0 <= i < |daily| =>
        Span(ParseOrZero(daily[i].periodStart), ParseOrZero(daily[i].periodStart)))
  }

  lemma DaysDiffer(daily: seq<Metric>, i: nat, j: nat)
    requires OnePerDay(daily) && i < j < |daily|
    ensures ParseOrZero(daily[i].periodStart) != ParseOrZero(daily[j].periodStart)
  {
    assert daily[i] in daily && daily[j] in daily;
    if ParseDay(daily[i].periodStart) == ParseDay(daily[j].periodStart) {
      SameDaySameText(daily[i].periodStart, daily[j].periodStart);
    }
  }

  lemma DaySpansDisjoint(daily: seq<Metric>)
    requires OnePerDay(daily)
    ensures Disjoint(DaySpans(daily))
  {
    var spans := DaySpans(daily);
    forall i, j, day: int | 0 <= i < j < |spans| && Within(day, spans[i]) ensures !Within(day, spans[j]) {
      DaysDiffer(daily, i, j);
    }
  }

  lemma DaySpansCover(daily: seq<Metric>, i: nat)
    requires OnePerDay(daily) && i < |daily|
    ensures Covered(DayOf(daily[i]), DaySpans(daily))
  {
    assert daily[i] in daily;
    assert Within(DayOf(daily[i]), DaySpans(daily)[i]);
  }

  // ---------------------------------------------------------------------------
  // What each period reports.
  // ---------------------------------------------------------------------------

  lemma MergedUnit(unit: Unit, slot: nat, rows: seq<AggregatedRow>, daily: seq<Metric>)
    requires OnePerDay(daily) && NameableSlot(unit, slot) && (unit.Year? ==> slot >= 1000)
    ensures var p := SlotReport(By(unit), LabelsOf(unit), slot, Items(rows));
            MergeOne(p, DayMap(daily), true) == WithRates(p, SumIn(MetricItems(daily), SpanOf(By(unit), slot)))
  {
    PrintedBounds(unit, slot);
    SlotsAreAdjacent(unit, slot);
    DayLoopIsSum(daily, FirstDay(unit, slot), LastDay(unit, slot));
  }

  /** A year before 1000 gets nothing from its own days: the merge looks at 0001-01-01 only. */
  lemma EarlyYearsAreSkipped(slot: nat, p: PeriodReport, daily: seq<Metric>)
    requires slot < 1000 && p.periodStart == StartText(Year, slot) && p.periodEnd == EndText(Year, slot)
    requires OnePerDay(daily)
    ensures MergeOne(p, DayMap(daily), true) == WithRates(p, SumIn(MetricItems(daily), Span(ZERO_TIME, ZERO_TIME)))
  {
    PrintedBounds(Year, slot);
    DayLoopIsSum(daily, ZERO_TIME, ZERO_TIME);
  }

  lemma MergedWeek(span: Span, rows: seq<AggregatedRow>, daily: seq<Metric>)
    requires OnePerDay(daily) && 0 <= span.first <= span.last && Nameable(span.first) && Nameable(span.last)
    ensures var p := SpanReport(span, Items(rows));
            MergeOne(p, DayMap(daily), true) == WithRates(p, SumIn(MetricItems(daily), span))
  {
    ParseFormat(span.first);
    ParseFormat(span.last);
    DayLoopIsSum(daily, span.first, span.last);
  }

  function UnitName(unit: Unit): string {
    match unit
    case Month => "monthly"
    case Quarter => "quarterly"
    case Year => "yearly"
  }

  /** The year of every period is printed with four digits, or the granularity is not yearly. */
  predicate BoundsParse(unit: Unit, daily: seq<Metric>) {
    unit.Year? ==>
      forall m <- daily :: ParseDay(m.periodStart).Some? ==> Civil(ParseDay(m.periodStart).value).year >= 1000
  }

  /** A slot that occurs in the series comes from one of the metrics. */
  lemma SlotFromMetric(unit: Unit, daily: seq<Metric>, slot: nat) returns (m: Metric)
    requires forall x <- daily :: ParseDay(x.periodStart).Some?
    requires slot in Slots(By(unit), Items(TrendRows(daily)))
    ensures m in daily && slot == Slot(unit, DayOf(m))
  {
    var items := Items(TrendRows(daily));
    var x := SlotsOccur(By(unit), items, slot);
    var i :| 0 <= i < |items| && items[i] == x;
    TrendItemCount(daily);
    TrendItemDays(daily, i);
    m := daily[i];
  }

  lemma TrendItemCount(daily: seq<Metric>)
    requires forall m <- daily :: ParseDay(m.periodStart).Some?
    ensures |Items(TrendRows(daily))| == |daily|
  {
    if |daily| > 0 {
      TrendItemDays(daily, 0);
    }
  }

  lemma SlotIsPrintable(unit: Unit, daily: seq<Metric>, slot: nat)
    requires OnePerDay(daily) && BoundsParse(unit, daily)
    requires slot in Slots(By(unit), Items(TrendRows(daily)))
    ensures NameableSlot(unit, slot) && (unit.Year? ==> slot >= 1000)
  {
    var m := SlotFromMetric(unit, daily, slot);
    FormatParse(m.periodStart);
    SlotYear(unit, DayOf(m));
  }

  /** Every point of a monthly, quarterly or yearly series reports the metrics dated in its own
      month, quarter or year: their late count over their headcount, their mean hours. */
  lemma UnitSeriesReports(unit: Unit, daily: seq<Metric>, startDate: string, endDate: string, i: nat)
    requires OnePerDay(daily) && BoundsParse(unit, daily) && |daily| > 0
    requires i < |TrendPeriods(daily, UnitName(unit), startDate, endDate)|
    ensures var slots := Slots(By(unit), Items(TrendRows(daily)));
            && |TrendPeriods(daily, UnitName(unit), startDate, endDate)| == |slots|
            && TrendPeriods(daily, UnitName(unit), startDate, endDate)[i]
               == WithRates(SlotReport(By(unit), LabelsOf(unit), slots[i], Items(TrendRows(daily))),
                            SumIn(MetricItems(daily), SpanOf(By(unit), slots[i])))
  {
    var slots := Slots(By(unit), Items(TrendRows(daily)));
    SlotIsPrintable(unit, daily, slots[i]);
    MergedUnit(unit, slots[i], TrendRows(daily), daily);
  }

  /** The same for the weekly series. */
  lemma WeekSeriesReports(daily: seq<Metric>, startDate: string, endDate: string, i: nat)
    requires OnePerDay(daily) && InRange(daily, startDate, endDate) && |daily| > 0
    requires i < |TrendPeriods(daily, "weekly", startDate, endDate)|
    ensures var weeks := WeekSpans(ParseDay(startDate).value, ParseDay(endDate).value);
            && |TrendPeriods(daily, "weekly", startDate, endDate)| == |weeks|
            && 0 <= weeks[i].first <= weeks[i].last
            && TrendPeriods(daily, "weekly", startDate, endDate)[i]
               == WithRates(SpanReport(weeks[i], Items(TrendRows(daily))), SumIn(MetricItems(daily), weeks[i]))
  {
    var start, end := ParseDay(startDate).value, ParseDay(endDate).value;
    var weeks := WeekSpans(start, end);
    WeeksAreProper(start, end);
    assert daily[0] in daily;
    WeeksPartitionRange(start, end);
    FormatParse(endDate);
    EarlierIsNameable(weeks[i].first, end);
    EarlierIsNameable(weeks[i].last, end);
    MergedWeek(weeks[i], TrendRows(daily), daily);
  }

  lemma {:induction false} TrendDates(daily: seq<Metric>)
    requires OnePerDay(daily)
    ensures |Dates(TrendRows(daily))| == |daily|
    ensures forall i :: 0 <= i < |daily| ==> Dates(TrendRows(daily))[i] == daily[i].periodStart
    decreases |daily|
  {
    if daily != [] {
      var init := daily[..|daily| - 1];
      MetricsSnoc(daily);
      TrendDates(init);
      NewDate(daily);
    }
  }

  lemma NewDate(daily: seq<Metric>)
    requires OnePerDay(daily) && daily != []
    requires var (init, dates) := (daily[..|daily| - 1], Dates(TrendRows(daily[..|daily| - 1])));
             |dates| == |init| && forall i :: 0 <= i < |init| ==> dates[i] == init[i].periodStart
    ensures Dates(TrendRows(daily)) == Dates(TrendRows(daily[..|daily| - 1])) + [daily[|daily| - 1].periodStart]
  {
    var init, m, rows := daily[..|daily| - 1], daily[|daily| - 1], TrendRows(daily);
    assert rows[..|rows| - 1] == TrendRows(init) && rows[|rows| - 1].reportDate == m.periodStart;
    var dates := Dates(TrendRows(init));
    forall i | 0 <= i < |dates| ensures dates[i] != m.periodStart {
      assert daily[i] == init[i];
    }
  }

  lemma {:induction false} DayMapHolds(daily: seq<Metric>, i: nat)
    requires i < |daily| && OnePerDay(daily)
    ensures daily[i].periodStart in DayMap(daily) && DayMap(daily)[daily[i].periodStart] == daily[i]
    decreases |daily|
  {
    if i < |daily| - 1 {
      var init := daily[..|daily| - 1];
      assert forall x <- init :: x in daily;
      DayMapHolds(init, i);
    }
  }

  lemma {:induction false} DateReportBounds(date: string, rows: seq<AggregatedRow>)
    ensures DateReport(date, rows).periodStart == date && DateReport(date, rows).periodEnd == date
    decreases |rows|
  {
    if rows != [] {
      DateReportBounds(date, rows[..|rows| - 1]);
    }
  }

  /** Any other granularity string gives one point a metric, in order, with its own rates. */
  lemma DaySeriesReports(daily: seq<Metric>, granularity: string, startDate: string, endDate: string, i: nat)
    requires OnePerDay(daily) && !ByRange(granularity) && i < |daily|
    ensures var periods := TrendPeriods(daily, granularity, startDate, endDate);
            && |periods| == |daily|
            && periods[i].periodStart == periods[i].periodEnd == daily[i].periodStart
            && periods[i].lateRate == daily[i].lateRate && periods[i].avgHours == daily[i].avgHours
  {
    TrendDates(daily);
    DayMapHolds(daily, i);
    DateReportBounds(daily[i].periodStart, TrendRows(daily));
    assert Built(TrendRows(daily), granularity, startDate, endDate) == Daily(TrendRows(daily));
  }

  // ---------------------------------------------------------------------------
  // Sums, rates and bounds.
  // ---------------------------------------------------------------------------

  /** Counts of one day as the query computes them. */
  ghost predicate Coherent(daily: seq<Metric>) {
    forall m <- daily :: DayCoherent(m)
  }

  predicate DayCoherent(m: Metric) {
    && 0 <= m.lateCount <= m.headcount && m.lateRate * m.headcount as real == m.lateCount as real
    && (m.headcount == 0 ==> m.lateRate == 0.0)
  }

  datatype Summary = Summary(avgHoursPerDay: real, lateRate: real)

  function SummaryOf(daily: seq<Metric>): Summary
    requires forall m <- daily :: ParseDay(m.periodStart).Some?
  {
    RatesOf(SumAll(MetricItems(daily)), |daily|)
  }

  function RatesOf(all: Sum, n: int): Summary {
    Summary(if n > 0 then all.hours / n as real else 0.0,
            if all.head > 0 then all.late as real / all.head as real else 0.0)
  }

  /** Rates multiplied by their weights give back the sums. */
  ghost predicate WeighsBack(s: Summary, all: Sum, n: int) {
    s.lateRate * all.head as real == all.late as real && s.avgHoursPerDay * n as real == all.hours
  }

  lemma RatesWeighBack(all: Sum, n: int)
    requires SumSound(all) && all.days == n
    ensures WeighsBack(RatesOf(all, n), all, n)
  {
    RateTimesHead(all);
  }

  /** The fold of GetSummary over the trends. */
  method SummaryRates(daily: seq<Metric>) returns (summary: Summary)
    requires forall m <- daily :: ParseDay(m.periodStart).Some?
    ensures summary == SummaryOf(daily)
    ensures SumAll(MetricItems(daily)).head == 0 ==> summary.lateRate == 0.0
    ensures daily == [] ==> summary.avgHoursPerDay == 0.0
  {
    var sumHours, sumLate, sumHead := 0.0, 0, 0;
    for i := 0 to |daily|
      invariant forall m <- daily[..i] :: ParseDay(m.periodStart).Some?
      invariant Sum(0, 0, 0, sumLate, sumHead, sumHours, i) == SumAll(MetricItems(daily[..i]))
    {
      FoldStep(daily, i);
      sumHours := sumHours + daily[i].avgHours;
      sumLate := sumLate + daily[i].lateCount;
      sumHead := sumHead + daily[i].headcount;
    }
    assert daily[..|daily|] == daily;
    summary := Summary(0.0, 0.0);
    if |daily| > 0 {
      summary := summary.(avgHoursPerDay := sumHours / |daily| as real);
    }
    if sumHead > 0 {
      summary := summary.(lateRate := sumLate as real / sumHead as real);
    }
  }

  lemma FoldStep(daily: seq<Metric>, i: nat)
    requires i < |daily| && forall m <- daily :: ParseDay(m.periodStart).Some?
    ensures (forall m <- daily[..i + 1] :: m in daily) && (forall m <- daily[..i] :: m in daily)
    ensures SumAll(MetricItems(daily[..i + 1])) == Plus(SumAll(MetricItems(daily[..i])), MetricSum(daily[i]))
  {
    assert daily[i] in daily;
    assert MetricItems(daily[..i + 1]) == MetricItems(daily[..i]) + [Item(DayOf(daily[i]), MetricSum(daily[i]))];
    SumAllSnoc(MetricItems(daily[..i]), Item(DayOf(daily[i]), MetricSum(daily[i])));
  }

  function RateOf(sum: Sum): real {
    if sum.head > 0 then sum.late as real / sum.head as real else 0.0
  }

  function HoursOf(sum: Sum): real {
    if sum.days > 0 then sum.hours / sum.days as real else 0.0
  }

  predicate SumSound(sum: Sum) {
    0 <= sum.late <= sum.head && sum.days >= 0 && (sum.days == 0 ==> sum.hours == 0.0)
  }

  lemma SoundPlus(sum: Sum, m: Metric)
    requires SumSound(sum) && 0 <= m.lateCount <= m.headcount
    ensures SumSound(Plus(sum, MetricSum(m))) && Plus(sum, MetricSum(m)).days == sum.days + 1
  {
  }

  lemma {:induction false} MetricSumsSound(daily: seq<Metric>, span: Span)
    requires OnePerDay(daily) && Coherent(daily)
    ensures SumSound(SumIn(MetricItems(daily), span))
    decreases |daily|
  {
    if daily != [] {
      var init, m := daily[..|daily| - 1], daily[|daily| - 1];
      MetricsSnoc(daily);
      MetricSumsSound(init, span);
      SumInSnoc(MetricItems(init), Item(DayOf(m), MetricSum(m)), span);
      SoundPlus(SumIn(MetricItems(init), span), m);
    }
  }

  lemma RateTimesHead(sum: Sum)
    requires SumSound(sum)
    ensures RateOf(sum) * sum.head as real == sum.late as real && HoursOf(sum) * sum.days as real == sum.hours
  {
  }

  lemma {:induction false} SumAllDays(daily: seq<Metric>)
    requires OnePerDay(daily) && Coherent(daily)
    ensures SumAll(MetricItems(daily)).days == |daily| && SumSound(SumAll(MetricItems(daily)))
    decreases |daily|
  {
    if daily != [] {
      var init, m := daily[..|daily| - 1], daily[|daily| - 1];
      MetricsSnoc(daily);
      SumAllDays(init);
      SumAllSnoc(MetricItems(init), Item(DayOf(m), MetricSum(m)));
      SoundPlus(SumAll(MetricItems(init)), m);
    }
  }

  lemma SummaryWeighsBack(daily: seq<Metric>)
    requires OnePerDay(daily) && Coherent(daily)
    ensures WeighsBack(SummaryOf(daily), SumAll(MetricItems(daily)), |daily|)
  {
    SumAllDays(daily);
    RatesWeighBack(SumAll(MetricItems(daily)), |daily|);
  }

  predicate Bounded(x: Item, lo: real, hi: real, loHours: real, hiHours: real) {
    && lo * x.sum.head as real <= x.sum.late as real <= hi * x.sum.head as real
    && loHours * x.sum.days as real <= x.sum.hours <= hiHours * x.sum.days as real
  }

  lemma Distribute(a: real, m: int, n: int)
    ensures a * (m + n) as real == a * m as real + a * n as real
  {
    assert (m + n) as real == m as real + n as real;
  }

  lemma BoundedPlus(a: Sum, b: Sum, day: nat, lo: real, hi: real, loHours: real, hiHours: real)
    requires Bounded(Item(day, a), lo, hi, loHours, hiHours) && Bounded(Item(day, b), lo, hi, loHours, hiHours)
    ensures Bounded(Item(day, Plus(a, b)), lo, hi, loHours, hiHours)
  {
    Distribute(lo, a.head, b.head);
    Distribute(hi, a.head, b.head);
    Distribute(loHours, a.days, b.days);
    Distribute(hiHours, a.days, b.days);
    assert (a.late + b.late) as real == a.late as real + b.late as real;
  }

  /** Bounds on the items of a span bound its sums. */
  lemma {:induction false} SumsBounded(items: seq<Item>, span: Span, lo: real, hi: real, loHours: real, hiHours: real)
    requires forall x <- items :: Within(x.day, span) ==> Bounded(x, lo, hi, loHours, hiHours)
    ensures Bounded(Item(0, SumIn(items, span)), lo, hi, loHours, hiHours)
    decreases |items|
  {
    if items != [] {
      var init, x := items[..|items| - 1], items[|items| - 1];
      assert x in items && forall y <- init :: y in items;
      SumsBounded(init, span, lo, hi, loHours, hiHours);
      if Within(x.day, span) {
        assert Bounded(Item(0, x.sum), lo, hi, loHours, hiHours);
        BoundedPlus(SumIn(init, span), x.sum, 0, lo, hi, loHours, hiHours);
      }
    }
  }

  lemma Scale(a: real, b: real, n: real)
    requires a <= b && n >= 0.0
    ensures a * n <= b * n
  {
  }

  lemma MetricBounded(m: Metric, day: nat, lo: real, hi: real, loHours: real, hiHours: real)
    requires DayCoherent(m)
    requires lo <= m.lateRate <= hi && loHours <= m.avgHours <= hiHours
    ensures Bounded(Item(day, MetricSum(m)), lo, hi, loHours, hiHours)
  {
    Scale(lo, m.lateRate, m.headcount as real);
    Scale(m.lateRate, hi, m.headcount as real);
  }

  lemma DivideOrdered(a: real, b: real, n: real)
    requires n > 0.0 && a <= b
    ensures a / n <= b / n
  {
  }

  lemma Quotient(lo: real, value: real, hi: real, n: real)
    requires n > 0.0 && lo * n <= value <= hi * n
    ensures lo <= value / n <= hi
  {
    DivideOrdered(lo * n, value, n);
    DivideOrdered(value, hi * n, n);
    assert lo * n / n == lo && hi * n / n == hi;
  }

  /** The late rates and hours of a span's days lie within bounds. */
  ghost predicate BoundDays(daily: seq<Metric>, span: Span, lo: real, hi: real, loHours: real, hiHours: real)
    requires forall m <- daily :: ParseDay(m.periodStart).Some?
  {
    forall m <- daily :: Within(DayOf(m), span) ==> lo <= m.lateRate <= hi && loHours <= m.avgHours <= hiHours
  }

  /** The rate and mean hours of the metrics of a span lie between the least and the greatest of
      its days. */
  lemma SpanLiesBetweenItsDays(daily: seq<Metric>, span: Span, lo: real, hi: real, loHours: real, hiHours: real)
    requires OnePerDay(daily) && Coherent(daily)
    requires BoundDays(daily, span, lo, hi, loHours, hiHours)
    ensures var sum := SumIn(MetricItems(daily), span);
            && (sum.head > 0 ==> lo <= RateOf(sum) <= hi)
            && (sum.days > 0 ==> loHours <= HoursOf(sum) <= hiHours)
  {
    ItemsBounded(daily, span, lo, hi, loHours, hiHours);
    SumsBounded(MetricItems(daily), span, lo, hi, loHours, hiHours);
    BoundedQuotients(SumIn(MetricItems(daily), span), lo, hi, loHours, hiHours);
  }

  lemma ItemsBounded(daily: seq<Metric>, span: Span, lo: real, hi: real, loHours: real, hiHours: real)
    requires OnePerDay(daily) && Coherent(daily)
    requires BoundDays(daily, span, lo, hi, loHours, hiHours)
    ensures forall x <- MetricItems(daily) :: Within(x.day, span) ==> Bounded(x, lo, hi, loHours, hiHours)
  {
    var items := MetricItems(daily);
    forall x | x in items && Within(x.day, span) ensures Bounded(x, lo, hi, loHours, hiHours) {
      var i :| 0 <= i < |items| && items[i] == x;
      ItemBounded(daily, i, span, lo, hi, loHours, hiHours);
    }
  }

  lemma ItemBounded(daily: seq<Metric>, i: nat, span: Span, lo: real, hi: real, loHours: real, hiHours: real)
    requires OnePerDay(daily) && Coherent(daily) && i < |daily|
    requires BoundDays(daily, span, lo, hi, loHours, hiHours)
    ensures Within(MetricItems(daily)[i].day, span) ==> Bounded(MetricItems(daily)[i], lo, hi, loHours, hiHours)
  {
    var m := daily[i];
    assert m in daily && MetricItems(daily)[i] == Item(DayOf(m), MetricSum(m));
    if Within(DayOf(m), span) {
      MetricBounded(m, DayOf(m), lo, hi, loHours, hiHours);
    }
  }

  lemma BoundedQuotients(sum: Sum, lo: real, hi: real, loHours: real, hiHours: real)
    requires Bounded(Item(0, sum), lo, hi, loHours, hiHours)
    ensures sum.head > 0 ==> lo <= RateOf(sum) <= hi
    ensures sum.days > 0 ==> loHours <= HoursOf(sum) <= hiHours
  {
    if sum.head > 0 {
      Quotient(lo, sum.late as real, hi, sum.head as real);
    }
    if sum.days > 0 {
      Quotient(loHours, sum.hours, hiHours, sum.days as real);
    }
  }
}
