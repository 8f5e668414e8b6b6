/** What the points of an attendance series say, for every granularity string: each day counts
    once, the summary is the mean of the points, and each point lies between its days
    (report-api: GetAttendanceTrends, MergeTrendsIntoPeriods, the summary fold of GetSummary). */
module Series {
  import opened Options
  import opened Calendar
  import opened Tally
  import opened Buckets
  import opened Periods
  import opened Trends

  // ---------------------------------------------------------------------------
  // Two readings of a point.
  // ---------------------------------------------------------------------------

  /** The days the merge loop visits for a period: from its printed start to its printed end, or
      the zero time for a bound that does not parse. */
  function LoopSpan(p: PeriodReport): Span {
    Span(ParseOrZero(p.periodStart), ParseOrZero(p.periodEnd))
  }

  function Loops(periods: seq<PeriodReport>): seq<Span> {
    seq(|periods|, i requires 0 <= i < |periods| => LoopSpan(periods[i]))
  }

  /** The days the periods of a range granularity stand for: the weeks of the range, or the
      months, quarters or years that have rows. */
  function RowSpans(rows: seq<AggregatedRow>, granularity: string, startDate: string, endDate: string): seq<Span> {
    if rows == [] then []
    else if granularity == "weekly" then
      if ParseDay(startDate).Some? && ParseDay(endDate).Some?
      then WeekSpans(ParseDay(startDate).value, ParseDay(endDate).value) else []
    else if granularity == "monthly" then UnitSpans(Month, rows)
    else if granularity == "quarterly" then UnitSpans(Quarter, rows)
    else if granularity == "yearly" then UnitSpans(Year, rows)
    else []
  }

  function UnitSpans(unit: Unit, rows: seq<AggregatedRow>): seq<Span> {
    SpansOf(By(unit), Slots(By(unit), Items(rows)))
  }

  /** The days the points of a series stand for. */
  function OwnSpans(daily: seq<Metric>, granularity: string, startDate: string, endDate: string): seq<Span> {
    if ByRange(granularity) then RowSpans(TrendRows(daily), granularity, startDate, endDate) else DaySpans(daily)
  }

  /** 1000-01-01: the bounds of years before are printed with fewer than four digits. */
  function Year1000(): nat {
    FirstDay(Year, 1000)
  }

  const ZERO_DAY: Span := Span(ZERO_TIME, ZERO_TIME)

  predicate Early(granularity: string, span: Span) {
    granularity == "yearly" && span.first < Year1000()
  }

  /** A point reports the sums of some days. */
  predicate Reports(p: PeriodReport, sum: Sum) {
    p.lateRate == RateOf(sum) && p.avgHours == HoursOf(sum)
  }

  ghost predicate Comparable(daily: seq<Metric>, startDate: string, endDate: string) {
    OnePerDay(daily) && Coherent(daily) && InRange(daily, startDate, endDate)
  }

  /** A merged period, compared with the span it stands for. */
  ghost predicate PeriodIs(daily: seq<Metric>, granularity: string, p: PeriodReport, own: Span) {
    && OnePerDay(daily)
    && LoopSpan(p) == (if Early(granularity, own) then ZERO_DAY else own)
    && Reports(p, SumIn(MetricItems(daily), LoopSpan(p)))
    && (ParseDay(p.periodStart).Some? <==> !Early(granularity, own))
    && (ParseDay(p.periodEnd).Some? <==> !Early(granularity, own))
  }

  lemma RatesReported(p: PeriodReport, sum: Sum)
    requires p.lateRate == 0.0 && p.avgHours == 0.0
    ensures Reports(WithRates(p, sum), sum) && LoopSpan(WithRates(p, sum)) == LoopSpan(p)
  {
  }

  lemma MergedReports(p: PeriodReport, daily: seq<Metric>)
    requires OnePerDay(daily) && p.lateRate == 0.0 && p.avgHours == 0.0
    ensures var q := MergeOne(p, DayMap(daily), true);
            && Reports(q, SumIn(MetricItems(daily), LoopSpan(q))) && LoopSpan(q) == LoopSpan(p)
            && q.periodStart == p.periodStart && q.periodEnd == p.periodEnd
  {
    DayLoopIsSum(daily, ParseOrZero(p.periodStart), ParseOrZero(p.periodEnd));
    RatesReported(p, SumIn(MetricItems(daily), LoopSpan(p)));
  }

  lemma YearIsEarly(slot: nat)
    ensures FirstDay(Year, slot) < Year1000() <==> slot < 1000
  {
    FirstDayIsFirst(Year, slot);
    BeforeFirstDay(Year, 1000, FirstDay(Year, slot));
  }

  lemma SlotBounds(unit: Unit, slot: nat, p: PeriodReport)
    requires NameableSlot(unit, slot) && p.periodStart == StartText(unit, slot) && p.periodEnd == EndText(unit, slot)
    ensures LoopSpan(p) == if unit.Year? && slot < 1000 then ZERO_DAY else SpanOf(By(unit), slot)
    ensures ParseDay(p.periodStart).Some? <==> !(unit.Year? && slot < 1000)
    ensures ParseDay(p.periodEnd).Some? <==> !(unit.Year? && slot < 1000)
  {
    PrintedBounds(unit, slot);
  }

  lemma SlotIsNamed(unit: Unit, rows: seq<AggregatedRow>, slot: nat)
    requires slot in Slots(By(unit), Items(rows))
    ensures NameableSlot(unit, slot)
  {
    var x := SlotsOccur(By(unit), Items(rows), slot);
    ItemsAreNameable(rows);
    SlotYear(unit, x.day);
  }

  lemma BuiltByUnit(unit: Unit, rows: seq<AggregatedRow>, startDate: string, endDate: string)
    requires rows != []
    ensures Built(rows, UnitName(unit), startDate, endDate) == Grouped(unit, rows) && ByRange(UnitName(unit))
  {
    assert "weekly"[0] == 'w' && "monthly"[0] == 'm' && "quarterly"[0] == 'q' && "yearly"[0] == 'y';
    match unit
    case Month =>
    case Quarter =>
    case Year =>
  }

  /** The periods built from any rows, merged with the metrics. */
  function MergedBuilt(rows: seq<AggregatedRow>, daily: seq<Metric>, granularity: string, startDate: string,
                       endDate: string)
    : seq<PeriodReport>
  {
    Merged(Built(rows, granularity, startDate, endDate), daily, granularity)
  }

  lemma UnitPeriod(unit: Unit, rows: seq<AggregatedRow>, daily: seq<Metric>, startDate: string, endDate: string, i: nat)
    requires rows != [] && i < |Slots(By(unit), Items(rows))|
    ensures var (periods, slots) := (MergedBuilt(rows, daily, UnitName(unit), startDate, endDate),
                                     Slots(By(unit), Items(rows)));
            && |periods| == |slots|
            && periods[i] == MergeOne(SlotReport(By(unit), LabelsOf(unit), slots[i], Items(rows)), DayMap(daily), true)
  {
    BuiltByUnit(unit, rows, startDate, endDate);
    MergedAt(Grouped(unit, rows), daily, UnitName(unit), i);
  }

  lemma MergedAt(periods: seq<PeriodReport>, daily: seq<Metric>, granularity: string, i: nat)
    requires i < |periods|
    ensures |Merged(periods, daily, granularity)| == |periods|
    ensures Merged(periods, daily, granularity)[i] == MergeOne(periods[i], DayMap(daily), ByRange(granularity))
  {
    if daily == [] {
      EmptyDays(FormatDay, ParseOrZero(periods[i].periodStart), ParseOrZero(periods[i].periodEnd));
    }
  }

  lemma UnitPoint(unit: Unit, rows: seq<AggregatedRow>, daily: seq<Metric>, startDate: string, endDate: string, i: nat)
    requires OnePerDay(daily) && rows != [] && i < |Slots(By(unit), Items(rows))|
    ensures |MergedBuilt(rows, daily, UnitName(unit), startDate, endDate)| == |Slots(By(unit), Items(rows))|
    ensures PeriodIs(daily, UnitName(unit), MergedBuilt(rows, daily, UnitName(unit), startDate, endDate)[i],
                    SpanOf(By(unit), Slots(By(unit), Items(rows))[i]))
  {
    var slot := Slots(By(unit), Items(rows))[i];
    var p := SlotReport(By(unit), LabelsOf(unit), slot, Items(rows));
    SlotIsNamed(unit, rows, slot);
    UnitPeriod(unit, rows, daily, startDate, endDate, i);
    MergedReports(p, daily);
    SlotBounds(unit, slot, p);
    YearIsEarly(slot);
  }

  lemma WeekPoint(rows: seq<AggregatedRow>, daily: seq<Metric>, startDate: string, endDate: string, i: nat)
    requires OnePerDay(daily) && rows != [] && ParseDay(startDate).Some? && ParseDay(endDate).Some?
    requires i < |WeekSpans(ParseDay(startDate).value, ParseDay(endDate).value)|
    ensures var weeks := WeekSpans(ParseDay(startDate).value, ParseDay(endDate).value);
            && |MergedBuilt(rows, daily, "weekly", startDate, endDate)| == |weeks|
            && PeriodIs(daily, "weekly", MergedBuilt(rows, daily, "weekly", startDate, endDate)[i], weeks[i])
  {
    var weeks := WeekSpans(ParseDay(startDate).value, ParseDay(endDate).value);
    WeekIsNamed(startDate, endDate, i);
    WeekPeriod(rows, daily, startDate, endDate, i);
    SpanPoint(rows, daily, weeks[i]);
  }

  lemma WeekIsNamed(startDate: string, endDate: string, i: nat)
    requires ParseDay(startDate).Some? && ParseDay(endDate).Some?
    requires i < |WeekSpans(ParseDay(startDate).value, ParseDay(endDate).value)|
    ensures var week := WeekSpans(ParseDay(startDate).value, ParseDay(endDate).value)[i];
            0 <= week.first <= week.last && Nameable(week.first) && Nameable(week.last)
  {
    var start, end := ParseDay(startDate).value, ParseDay(endDate).value;
    WeeksPartitionRange(start, end);
    FormatParse(endDate);
    EarlierIsNameable(WeekSpans(start, end)[i].first, end);
    EarlierIsNameable(WeekSpans(start, end)[i].last, end);
  }

  lemma WeekPeriod(rows: seq<AggregatedRow>, daily: seq<Metric>, startDate: string, endDate: string, i: nat)
    requires rows != [] && ParseDay(startDate).Some? && ParseDay(endDate).Some?
    requires i < |WeekSpans(ParseDay(startDate).value, ParseDay(endDate).value)|
    ensures var week := WeekSpans(ParseDay(startDate).value, ParseDay(endDate).value)[i];
            && 0 <= week.first <= week.last
            && |MergedBuilt(rows, daily, "weekly", startDate, endDate)|
                == |WeekSpans(ParseDay(startDate).value, ParseDay(endDate).value)|
            && MergedBuilt(rows, daily, "weekly", startDate, endDate)[i]
                == MergeOne(SpanReport(week, Items(rows)), DayMap(daily), true)
  {
    WeeksAreProper(ParseDay(startDate).value, ParseDay(endDate).value);
    MergedAt(Weekly(rows, startDate, endDate), daily, "weekly", i);
  }

  lemma SpanPoint(rows: seq<AggregatedRow>, daily: seq<Metric>, week: Span)
    requires OnePerDay(daily) && 0 <= week.first <= week.last && Nameable(week.first) && Nameable(week.last)
    ensures PeriodIs(daily, "weekly", MergeOne(SpanReport(week, Items(rows)), DayMap(daily), true), week)
  {
    ParseFormat(week.first);
    ParseFormat(week.last);
    MergedReports(SpanReport(week, Items(rows)), daily);
  }

  /** One metric a day: the sum over a metric's day is the metric. */
  lemma {:induction false} OneDaySum(daily: seq<Metric>, i: nat)
    requires OnePerDay(daily) && i < |daily|
    ensures daily[i] in daily && SumIn(MetricItems(daily), Span(DayOf(daily[i]), DayOf(daily[i])))
            == MetricSum(daily[i])
    decreases |daily|
  {
    if i < |daily| - 1 {
      var init, m, day := daily[..|daily| - 1], daily[|daily| - 1], ParseOrZero(daily[i].periodStart);
      MetricsSnoc(daily);
      OneDaySum(init, i);
      DaysDiffer(daily, i, |init|);
      SumInSnoc(MetricItems(init), Item(DayOf(m), MetricSum(m)), Span(day, day));
    } else {
      LastDaySum(daily);
    }
  }

  lemma LastDaySum(daily: seq<Metric>)
    requires OnePerDay(daily) && daily != []
    ensures var m := daily[|daily| - 1];
            m in daily && SumIn(MetricItems(daily), Span(DayOf(m), DayOf(m))) == MetricSum(m)
  {
    var init, m := daily[..|daily| - 1], daily[|daily| - 1];
    MetricsSnoc(daily);
    NotBefore(daily);
    SumInNone(MetricItems(init), Span(DayOf(m), DayOf(m)));
    SumInSnoc(MetricItems(init), Item(DayOf(m), MetricSum(m)), Span(DayOf(m), DayOf(m)));
  }

  lemma NotBefore(daily: seq<Metric>)
    requires OnePerDay(daily) && daily != []
    ensures var (init, last) := (daily[..|daily| - 1], daily[|daily| - 1]);
            OnePerDay(init) && last in daily
                && forall x <- MetricItems(init) :: !Within(x.day, Span(DayOf(last), DayOf(last)))
  {
    var init := daily[..|daily| - 1];
    MetricsSnoc(daily);
    forall x | x in MetricItems(init) ensures x.day != DayOf(daily[|daily| - 1]) {
      var k :| 0 <= k < |init| && MetricItems(init)[k] == x;
      DaysDiffer(daily, k, |init|);
    }
  }

  lemma MetricReports(m: Metric)
    requires DayCoherent(m)
    ensures RateOf(MetricSum(m)) == m.lateRate && HoursOf(MetricSum(m)) == m.avgHours
  {
    if m.headcount > 0 {
      DividedBack(m.lateRate, m.lateCount as real, m.headcount as real);
    }
    assert m.avgHours / 1.0 == m.avgHours;
  }

  lemma DividedBack(rate: real, late: real, head: real)
    requires head > 0.0 && rate * head == late
    ensures late / head == rate
  {
    assert (rate * head) / head == rate;
  }

  lemma DayPoint(daily: seq<Metric>, granularity: string, startDate: string, endDate: string, i: nat)
    requires Comparable(daily, startDate, endDate) && !ByRange(granularity) && i < |daily|
    ensures var periods := TrendPeriods(daily, granularity, startDate, endDate);
            |periods| == |daily| && PeriodIs(daily, granularity, periods[i], DaySpans(daily)[i])
  {
    assert daily[i] in daily;
    DaySeriesReports(daily, granularity, startDate, endDate, i);
    OneDaySum(daily, i);
    MetricReports(daily[i]);
  }

  lemma LengthOnly(unit: Unit, rows: seq<AggregatedRow>, daily: seq<Metric>, startDate: string, endDate: string)
    requires rows != []
    ensures |MergedBuilt(rows, daily, UnitName(unit), startDate, endDate)| == |Slots(By(unit), Items(rows))|
  {
    BuiltByUnit(unit, rows, startDate, endDate);
  }

  /** One point for each span, right about it. */
  ghost predicate PeriodsReport(daily: seq<Metric>, granularity: string, periods: seq<PeriodReport>, own: seq<Span>) {
    |periods| == |own| && forall i :: 0 <= i < |periods| ==> PeriodIs(daily, granularity, periods[i], own[i])
  }

  /** For any rows and every range granularity, the merged periods have the rate and mean hours
      of the metrics that the merge loop meets, and the loop meets the days of the period; except
      that the loop of a year before 1000 meets 0001-01-01 only. */
  lemma PeriodsReportTheirDays(rows: seq<AggregatedRow>, daily: seq<Metric>, granularity: string, startDate: string,
                               endDate: string)
    requires OnePerDay(daily) && ByRange(granularity)
    ensures PeriodsReport(daily, granularity, MergedBuilt(rows, daily, granularity, startDate, endDate),
                     RowSpans(rows, granularity, startDate, endDate))
  {
    if rows == [] {
      NothingBuilt(daily, granularity, startDate, endDate);
    } else if granularity == "weekly" {
      WeekPoints(rows, daily, startDate, endDate);
    } else {
      var unit := UnitNamed(granularity);
      UnitSeries(unit, rows, daily, startDate, endDate);
    }
  }

  lemma UnitNamed(granularity: string) returns (unit: Unit)
    requires ByRange(granularity) && granularity != "weekly"
    ensures UnitName(unit) == granularity
  {
    unit := if granularity == "monthly" then Month else if granularity == "quarterly" then Quarter else Year;
  }

  lemma UnitSeries(unit: Unit, rows: seq<AggregatedRow>, daily: seq<Metric>, startDate: string, endDate: string)
    requires OnePerDay(daily) && rows != []
    ensures PeriodsReport(daily, UnitName(unit), MergedBuilt(rows, daily, UnitName(unit), startDate, endDate),
                     RowSpans(rows, UnitName(unit), startDate, endDate))
  {
    UnitPoints(unit, rows, daily, startDate, endDate);
    SpansByUnit(unit, rows, startDate, endDate);
  }

  lemma SpansByUnit(unit: Unit, rows: seq<AggregatedRow>, startDate: string, endDate: string)
    requires rows != []
    ensures RowSpans(rows, UnitName(unit), startDate, endDate) == UnitSpans(unit, rows)
  {
    assert "weekly"[0] == 'w' && "monthly"[0] == 'm' && "quarterly"[0] == 'q' && "yearly"[0] == 'y';
    match unit
    case Month =>
    case Quarter =>
    case Year =>
  }

  lemma NothingBuilt(daily: seq<Metric>, granularity: string, startDate: string, endDate: string)
    ensures MergedBuilt([], daily, granularity, startDate, endDate) == []
  {
  }

  /** The same for the periods of a series. */
  lemma TrendPeriodsReport(daily: seq<Metric>, granularity: string, startDate: string, endDate: string)
    requires Comparable(daily, startDate, endDate)
    ensures PeriodsReport(daily, granularity, TrendPeriods(daily, granularity, startDate, endDate),
                     OwnSpans(daily, granularity, startDate, endDate))
  {
    if daily == [] {
      NoPoints(granularity, startDate, endDate);
    } else if ByRange(granularity) {
      PeriodsReportTheirDays(TrendRows(daily), daily, granularity, startDate, endDate);
    } else {
      DayPoints(daily, granularity, startDate, endDate);
    }
  }

  lemma NoPoints(granularity: string, startDate: string, endDate: string)
    ensures TrendPeriods([], granularity, startDate, endDate) == []
            && OwnSpans([], granularity, startDate, endDate) == []
  {
  }

  lemma DayPoints(daily: seq<Metric>, granularity: string, startDate: string, endDate: string)
    requires Comparable(daily, startDate, endDate) && !ByRange(granularity) && daily != []
    ensures PeriodsReport(daily, granularity, TrendPeriods(daily, granularity, startDate, endDate), DaySpans(daily))
  {
    forall i | 0 <= i < |daily|
      ensures |TrendPeriods(daily, granularity, startDate, endDate)| == |daily|
      ensures PeriodIs(daily, granularity, TrendPeriods(daily, granularity, startDate, endDate)[i],
                       DaySpans(daily)[i]) {
      DayPoint(daily, granularity, startDate, endDate, i);
    }
    DayPoint(daily, granularity, startDate, endDate, 0);
  }

  lemma UnitPoints(unit: Unit, rows: seq<AggregatedRow>, daily: seq<Metric>, startDate: string, endDate: string)
    requires OnePerDay(daily) && rows != []
    ensures PeriodsReport(daily, UnitName(unit), MergedBuilt(rows, daily, UnitName(unit), startDate, endDate),
                     UnitSpans(unit, rows))
  {
    LengthOnly(unit, rows, daily, startDate, endDate);
    forall i | 0 <= i < |UnitSpans(unit, rows)|
      ensures PeriodIs(daily, UnitName(unit), MergedBuilt(rows, daily, UnitName(unit), startDate, endDate)[i],
                      UnitSpans(unit, rows)[i]) {
      UnitPoint(unit, rows, daily, startDate, endDate, i);
    }
  }

  lemma WeekPoints(rows: seq<AggregatedRow>, daily: seq<Metric>, startDate: string, endDate: string)
    requires OnePerDay(daily) && rows != []
    ensures PeriodsReport(daily, "weekly", MergedBuilt(rows, daily, "weekly", startDate, endDate),
                     RowSpans(rows, "weekly", startDate, endDate))
  {
    if ParseDay(startDate).Some? && ParseDay(endDate).Some? {
      var start, end := ParseDay(startDate).value, ParseDay(endDate).value;
      WeeksAreProper(start, end);
      forall i | 0 <= i < |WeekSpans(start, end)|
        ensures PeriodIs(daily, "weekly", MergedBuilt(rows, daily, "weekly", startDate, endDate)[i],
                        WeekSpans(start, end)[i]) {
        WeekPoint(rows, daily, startDate, endDate, i);
      }
    }
  }

  // ---------------------------------------------------------------------------
  // The points of the response, field by field.
  // ---------------------------------------------------------------------------

  predicate Dated(m: Metric, span: Span) {
    ParseDay(m.periodStart).Some? && Within(ParseDay(m.periodStart).value, span)
  }

  /** The late employees of the metrics dated in a span, added up. */
  function LateIn(daily: seq<Metric>, span: Span): int
    decreases |daily|
  {
    if daily == [] then 0
    else LateIn(daily[..|daily| - 1], span) + if Dated(daily[|daily| - 1], span) then daily[|daily| - 1].lateCount
        else 0
  }

  function HeadIn(daily: seq<Metric>, span: Span): int
    decreases |daily|
  {
    if daily == [] then 0
    else HeadIn(daily[..|daily| - 1], span) + if Dated(daily[|daily| - 1], span) then daily[|daily| - 1].headcount
        else 0
  }

  function DaysWithin(daily: seq<Metric>, span: Span): int
    decreases |daily|
  {
    if daily == [] then 0 else DaysWithin(daily[..|daily| - 1], span) + if Dated(daily[|daily| - 1], span) then 1 else 0
  }

  function HoursIn(daily: seq<Metric>, span: Span): real
    decreases |daily|
  {
    if daily == [] then 0.0
    else HoursIn(daily[..|daily| - 1], span) + if Dated(daily[|daily| - 1], span) then daily[|daily| - 1].avgHours
        else 0.0
  }

  lemma {:induction false} ColumnsAre(daily: seq<Metric>, span: Span)
    requires OnePerDay(daily)
    ensures var sum := SumIn(MetricItems(daily), span);
            && sum.late == LateIn(daily, span) && sum.head == HeadIn(daily, span)
            && sum.days == DaysWithin(daily, span) && sum.hours == HoursIn(daily, span)
    decreases |daily|
  {
    if daily != [] {
      var init, m := daily[..|daily| - 1], daily[|daily| - 1];
      MetricsSnoc(daily);
      ColumnsAre(init, span);
      SumInSnoc(MetricItems(init), Item(DayOf(m), MetricSum(m)), span);
    }
  }

  /** What a point shows: the late employees over all, and the mean hours, of the metrics dated in
      its days, zero if there are none; and the first and the last of these days. The point of a
      year before 1000 shows 0001-01-01 and two texts that are not dates. */
  ghost predicate PointIs(daily: seq<Metric>, granularity: string, p: Point, own: Span) {
    var met := if Early(granularity, own) then ZERO_DAY else own;
    && p.lateRate == (if HeadIn(daily, met) > 0 then LateIn(daily, met) as real / HeadIn(daily, met) as real else 0.0)
    && p.avgHours == (if DaysWithin(daily, met) > 0 then HoursIn(daily, met) / DaysWithin(daily, met) as real else 0.0)
    && 0 <= own.first <= own.last
    && (if Early(granularity, own) then ParseDay(p.periodStart).None? && ParseDay(p.periodEnd).None?
        else p.periodStart == FormatDay(own.first) && p.periodEnd == FormatDay(own.last))
  }

  ghost predicate SeriesIs(daily: seq<Metric>, granularity: string, series: seq<Point>, own: seq<Span>) {
    |series| == |own| && forall i :: 0 <= i < |series| ==> PointIs(daily, granularity, series[i], own[i])
  }

  lemma PointOfPeriod(daily: seq<Metric>, granularity: string, period: PeriodReport, p: Point, own: Span)
    requires PeriodIs(daily, granularity, period, own) && 0 <= own.first <= own.last
    requires p == Point(period.periodStart, period.periodEnd, period.avgHours, period.lateRate)
    ensures PointIs(daily, granularity, p, own)
  {
    ColumnsAre(daily, LoopSpan(period));
    if !Early(granularity, own) {
      FormatParse(period.periodStart);
      FormatParse(period.periodEnd);
    }
  }

  lemma RowSpansProper(rows: seq<AggregatedRow>, granularity: string, startDate: string, endDate: string, i: nat)
    requires ByRange(granularity) && i < |RowSpans(rows, granularity, startDate, endDate)|
    ensures var own := RowSpans(rows, granularity, startDate, endDate)[i]; 0 <= own.first <= own.last
  {
    if granularity == "weekly" {
      WeeksAreProper(ParseDay(startDate).value, ParseDay(endDate).value);
    } else {
      var unit := UnitNamed(granularity);
      SpansByUnit(unit, rows, startDate, endDate);
      SlotsAreAdjacent(unit, Slots(By(unit), Items(rows))[i]);
    }
  }

  /** Every point of the series shows the days it stands for. */
  lemma PointsReportTheirDays(daily: seq<Metric>, granularity: string, startDate: string, endDate: string,
                              series: seq<Point>)
    requires Comparable(daily, startDate, endDate)
    requires Shows(series, TrendPeriods(daily, granularity, startDate, endDate))
    ensures SeriesIs(daily, granularity, series, OwnSpans(daily, granularity, startDate, endDate))
  {
    var periods, own := TrendPeriods(daily, granularity, startDate, endDate),
        OwnSpans(daily, granularity, startDate, endDate);
    TrendPeriodsReport(daily, granularity, startDate, endDate);
    forall i | 0 <= i < |series| ensures PointIs(daily, granularity, series[i], own[i]) {
      if ByRange(granularity) {
        RowSpansProper(TrendRows(daily), granularity, startDate, endDate, i);
      }
      PointOfPeriod(daily, granularity, periods[i], series[i], own[i]);
    }
  }

  /** GetAttendanceTrends after the queries: rows, periods, merge, points. */
  method AttendanceSeries(daily: seq<Metric>, requested: string, startDate: string, endDate: string)
    returns (series: seq<Point>)
    ensures var granularity := if requested == "" then "monthly" else requested;
            && Shows(series, TrendPeriods(daily, granularity, startDate, endDate))
            && (Comparable(daily, startDate, endDate) ==>
                  SeriesIs(daily, granularity, series, OwnSpans(daily, granularity, startDate, endDate)))
  {
    var granularity := if requested == "" then "monthly" else requested;
    var aggRows := BuildTrendRows(daily);
    var built := BuildPeriods(aggRows, granularity, startDate, endDate);
    series := MergeIntoNew(built, daily, granularity);
    if Comparable(daily, startDate, endDate) {
      PointsReportTheirDays(daily, granularity, startDate, endDate, series);
    }
  }

  // ---------------------------------------------------------------------------
  // Each day counts once.
  // ---------------------------------------------------------------------------

  lemma {:induction false} RowOfItem(rows: seq<AggregatedRow>, x: Item) returns (r: AggregatedRow)
    requires x in Items(rows)
    ensures r in rows && ParseDay(r.reportDate) == Some(x.day)
    decreases |rows|
  {
    var init, last := rows[..|rows| - 1], rows[|rows| - 1];
    assert rows == init + [last];
    if ParseDay(last.reportDate) == Some(x.day) {
      r := last;
    } else {
      r := RowOfItem(init, x);
    }
  }

  lemma {:induction false} ItemOfRow(rows: seq<AggregatedRow>, r: AggregatedRow) returns (x: Item)
    requires r in rows && ParseDay(r.reportDate).Some?
    ensures x in Items(rows) && x.day == ParseDay(r.reportDate).value
    decreases |rows|
  {
    var init, last := rows[..|rows| - 1], rows[|rows| - 1];
    assert rows == init + [last];
    if r == last {
      x := Item(ParseDay(r.reportDate).value, RowSum(r));
    } else {
      x := ItemOfRow(init, r);
    }
  }

  /** Some row is dated in the month, quarter or year of the day. */
  ghost predicate SharesSlot(unit: Unit, rows: seq<AggregatedRow>, day: nat) {
    exists r :: r in rows && ParseDay(r.reportDate).Some? && Slot(unit, ParseDay(r.reportDate).value) == Slot(unit, day)
  }

  /** A report has a period for exactly those months, quarters or years. */
  lemma UnitCovers(unit: Unit, rows: seq<AggregatedRow>, day: nat)
    ensures Disjoint(UnitSpans(unit, rows))
    ensures Covered(day, UnitSpans(unit, rows)) <==> SharesSlot(unit, rows, day)
  {
    var b, items := By(unit), Items(rows);
    var slots := Slots(b, items);
    UnitIsExact(unit);
    GroupingConserves(b, items);
    if Covered(day, UnitSpans(unit, rows)) {
      var i :| 0 <= i < |slots| && Within(day, UnitSpans(unit, rows)[i]);
      InSpan(b, day, slots[i]);
      var x := SlotsOccur(b, items, slots[i]);
      var r := RowOfItem(rows, x);
    }
    if SharesSlot(unit, rows, day) {
      var r :| r in rows && ParseDay(r.reportDate).Some? && Slot(unit, ParseDay(r.reportDate).value) == Slot(unit, day);
      var x := ItemOfRow(rows, r);
      SlotsAreDistinct(b, items);
      assert b.slot(x.day) in slots;
      var i :| 0 <= i < |slots| && slots[i] == b.slot(x.day);
      InSpan(b, day, slots[i]);
      assert Within(day, UnitSpans(unit, rows)[i]);
    }
  }

  /** Which days a report by week, month, quarter or year takes metrics from. */
  ghost predicate Asked(rows: seq<AggregatedRow>, granularity: string, startDate: string, endDate: string, day: nat) {
    if granularity == "weekly" then
      && rows != [] && ParseDay(startDate).Some? && ParseDay(endDate).Some?
      && ParseDay(startDate).value <= day <= ParseDay(endDate).value
    else exists unit :: UnitName(unit) == granularity && SharesSlot(unit, rows, day)
  }

  lemma WeeksCover(rows: seq<AggregatedRow>, startDate: string, endDate: string, day: nat)
    ensures var weeks := RowSpans(rows, "weekly", startDate, endDate);
            Disjoint(weeks) && (Covered(day, weeks) <==> Asked(rows, "weekly", startDate, endDate, day))
  {
    if rows != [] && ParseDay(startDate).Some? && ParseDay(endDate).Some? {
      var start, end := ParseDay(startDate).value, ParseDay(endDate).value;
      WeeksAreProper(start, end);
      if start <= end {
        WeeksPartitionRange(start, end);
      }
    }
  }

  lemma NamesDiffer(a: Unit, b: Unit)
    ensures UnitName(a) == UnitName(b) ==> a == b
    ensures UnitName(a) != "weekly"
  {
    assert "weekly"[0] == 'w' && "monthly"[0] == 'm' && "quarterly"[0] == 'q' && "yearly"[0] == 'y';
  }

  lemma PeriodsCover(rows: seq<AggregatedRow>, granularity: string, startDate: string, endDate: string, day: nat)
    requires ByRange(granularity)
    ensures var spans := RowSpans(rows, granularity, startDate, endDate);
            Disjoint(spans) && (Covered(day, spans) <==> Asked(rows, granularity, startDate, endDate, day))
  {
    if granularity == "weekly" {
      WeeksCover(rows, startDate, endDate, day);
    } else {
      var unit := UnitNamed(granularity);
      UnitsCover(unit, rows, startDate, endDate, day);
    }
  }

  lemma UnitsCover(unit: Unit, rows: seq<AggregatedRow>, startDate: string, endDate: string, day: nat)
    ensures var spans := RowSpans(rows, UnitName(unit), startDate, endDate);
            Disjoint(spans) && (Covered(day, spans) <==> Asked(rows, UnitName(unit), startDate, endDate, day))
  {
    NamesDiffer(unit, unit);
    UnitCovers(unit, rows, day);
    forall other | UnitName(other) == UnitName(unit) ensures other == unit {
      NamesDiffer(other, unit);
    }
    if rows != [] {
      SpansByUnit(unit, rows, startDate, endDate);
    }
  }

  /** The rows of a series are dated as its metrics. */
  lemma TrendRowsDated(daily: seq<Metric>, r: AggregatedRow) returns (m: Metric)
    requires r in TrendRows(daily)
    ensures m in daily && m.periodStart == r.reportDate
  {
    var k :| 0 <= k < |daily| && TrendRows(daily)[k] == r;
    m := daily[k];
  }

  /** The own spans are disjoint and every metric is in one. */
  lemma OwnSpansPartition(daily: seq<Metric>, granularity: string, startDate: string, endDate: string)
    requires OnePerDay(daily) && InRange(daily, startDate, endDate)
    ensures var own := OwnSpans(daily, granularity, startDate, endDate);
            Disjoint(own) && forall m <- daily :: Covered(DayOf(m), own)
  {
    var own := OwnSpans(daily, granularity, startDate, endDate);
    if ByRange(granularity) {
      PeriodsCover(TrendRows(daily), granularity, startDate, endDate, 0);
      forall m | m in daily ensures Covered(DayOf(m), own) {
        MetricIsAsked(daily, granularity, startDate, endDate, m);
        PeriodsCover(TrendRows(daily), granularity, startDate, endDate, DayOf(m));
      }
    } else {
      DaySpansDisjoint(daily);
      forall m | m in daily ensures Covered(DayOf(m), own) {
        var k :| 0 <= k < |daily| && daily[k] == m;
        DaySpansCover(daily, k);
      }
    }
  }

  lemma MetricIsAsked(daily: seq<Metric>, granularity: string, startDate: string, endDate: string, m: Metric)
    requires InRange(daily, startDate, endDate) && m in daily && ByRange(granularity)
    ensures Asked(TrendRows(daily), granularity, startDate, endDate, DayOf(m))
  {
    var k :| 0 <= k < |daily| && daily[k] == m;
    assert TrendRows(daily)[k] == TrendRow(m);
    assert TrendRow(m) in TrendRows(daily);
    if granularity != "weekly" {
      var unit := UnitNamed(granularity);
      assert SharesSlot(unit, TrendRows(daily), DayOf(m));
    }
  }

  /** The condition: no metric of a yearly series is dated before 1000, but for 0001-01-01. */
  ghost predicate YearsPrint(daily: seq<Metric>, granularity: string)
    requires forall m <- daily :: ParseDay(m.periodStart).Some?
  {
    granularity == "yearly" ==> forall m <- daily :: DayOf(m) >= Year1000() || DayOf(m) == ZERO_TIME
  }

  lemma YearlySpans(daily: seq<Metric>, startDate: string, endDate: string)
    ensures OwnSpans(daily, "yearly", startDate, endDate) == UnitSpans(Year, TrendRows(daily))
  {
    if daily != [] {
      SpansByUnit(Year, TrendRows(daily), startDate, endDate);
    }
  }

  /** A yearly span lies before 1000 altogether or not at all. */
  lemma YearSpanSides(rows: seq<AggregatedRow>, i: nat, day: int)
    requires i < |UnitSpans(Year, rows)| && Within(day, UnitSpans(Year, rows)[i])
    ensures day >= 0 && (UnitSpans(Year, rows)[i].first < Year1000() <==> day < Year1000())
  {
    var slot := Slots(By(Year), Items(rows))[i];
    YearIsEarly(slot);
    SlotIsExact(Year, slot, day);
    BeforeFirstDay(Year, 1000, day);
  }

  /** A range of a year with rows holds the day of one of them. */
  lemma SpanHoldsRow(rows: seq<AggregatedRow>, i: nat) returns (r: AggregatedRow)
    requires i < |UnitSpans(Year, rows)|
    ensures r in rows && ParseDay(r.reportDate).Some? && Within(ParseDay(r.reportDate).value, UnitSpans(Year, rows)[i])
  {
    var slot := Slots(By(Year), Items(rows))[i];
    var x := SlotsOccur(By(Year), Items(rows), slot);
    r := RowOfItem(rows, x);
    SlotIsExact(Year, slot, x.day);
  }

  /** Under the condition an early span can only be that of year 1, which holds 0001-01-01. */
  lemma EarlyHoldsZero(rows: seq<AggregatedRow>, i: nat)
    requires i < |UnitSpans(Year, rows)| && UnitSpans(Year, rows)[i].first < Year1000()
    requires forall r <- rows :: ParseDay(r.reportDate).Some? ==>
               ParseDay(r.reportDate).value >= Year1000() || ParseDay(r.reportDate).value == ZERO_TIME
    ensures Within(ZERO_TIME, UnitSpans(Year, rows)[i])
  {
    var r := SpanHoldsRow(rows, i);
    YearSpanSides(rows, i, ParseDay(r.reportDate).value);
  }

  /** Under the condition the loops meet each metric just where its own span is. */
  lemma LoopsAgree(daily: seq<Metric>, granularity: string, startDate: string, endDate: string, i: nat, k: nat)
    requires Comparable(daily, startDate, endDate) && YearsPrint(daily, granularity) && k < |daily|
    requires i < |TrendPeriods(daily, granularity, startDate, endDate)|
             == |OwnSpans(daily, granularity, startDate, endDate)|
    ensures daily[k] in daily
    ensures Within(DayOf(daily[k]), LoopSpan(TrendPeriods(daily, granularity, startDate, endDate)[i]))
            <==> Within(DayOf(daily[k]), OwnSpans(daily, granularity, startDate, endDate)[i])
  {
    var own, day := OwnSpans(daily, granularity, startDate, endDate)[i], DayOf(daily[k]);
    TrendPeriodsReport(daily, granularity, startDate, endDate);
    assert PeriodIs(daily, granularity, TrendPeriods(daily, granularity, startDate, endDate)[i], own);
    assert daily[k] in daily;
    if Early(granularity, own) {
      YearlySpans(daily, startDate, endDate);
      forall r | r in TrendRows(daily) && ParseDay(r.reportDate).Some?
        ensures ParseDay(r.reportDate).value >= Year1000() || ParseDay(r.reportDate).value == ZERO_TIME {
        var m := TrendRowsDated(daily, r);
      }
      EarlyHoldsZero(TrendRows(daily), i);
      if Within(day, own) {
        YearSpanSides(TrendRows(daily), i, day);
      }
    }
  }

  /** A metric of an early year, but for 0001-01-01, feeds no point of a yearly series. */
  lemma EarlyFeedsNothing(daily: seq<Metric>, startDate: string, endDate: string, day: nat)
    requires Comparable(daily, startDate, endDate) && day < Year1000() && day != ZERO_TIME
    ensures Holding(Loops(TrendPeriods(daily, "yearly", startDate, endDate)), day) == 0
  {
    var periods, own := TrendPeriods(daily, "yearly", startDate, endDate),
        OwnSpans(daily, "yearly", startDate, endDate);
    TrendPeriodsReport(daily, "yearly", startDate, endDate);
    forall i | 0 <= i < |periods| ensures !Within(day, Loops(periods)[i]) {
      assert PeriodIs(daily, "yearly", periods[i], own[i]);
    }
    HoldingNone(Loops(periods), day);
  }

  /** For every granularity string: each daily metric feeds exactly one point of the series if
      and only if no metric of a yearly series is dated before 1000, but for 0001-01-01; then the
      late counts, headcounts, hours and days that the points are computed from add up to those
      of all metrics. */
  lemma EveryDayCountsOnce(daily: seq<Metric>, granularity: string, startDate: string, endDate: string)
    requires Comparable(daily, startDate, endDate)
    ensures var loops := Loops(TrendPeriods(daily, granularity, startDate, endDate));
            && ((forall m <- daily :: Holding(loops, DayOf(m)) == 1) <==> YearsPrint(daily, granularity))
            && (YearsPrint(daily, granularity) ==> SumSpans(MetricItems(daily), loops) == SumAll(MetricItems(daily)))
  {
    var periods := TrendPeriods(daily, granularity, startDate, endDate);
    if YearsPrint(daily, granularity) {
      forall m | m in daily ensures Holding(Loops(periods), DayOf(m)) == 1 {
        var k :| 0 <= k < |daily| && daily[k] == m;
        FedOnce(daily, granularity, startDate, endDate, k);
      }
      LoopsAddUp(daily, granularity, startDate, endDate);
    } else {
      var m :| m in daily && DayOf(m) < Year1000() && DayOf(m) != ZERO_TIME;
      EarlyFeedsNothing(daily, startDate, endDate, DayOf(m));
    }
  }

  lemma FedOnce(daily: seq<Metric>, granularity: string, startDate: string, endDate: string, k: nat)
    requires Comparable(daily, startDate, endDate) && YearsPrint(daily, granularity) && k < |daily|
    ensures daily[k] in daily
    ensures Holding(Loops(TrendPeriods(daily, granularity, startDate, endDate)), DayOf(daily[k])) == 1
  {
    var periods, own := TrendPeriods(daily, granularity, startDate, endDate),
        OwnSpans(daily, granularity, startDate, endDate);
    assert daily[k] in daily;
    var day := DayOf(daily[k]);
    TrendPeriodsReport(daily, granularity, startDate, endDate);
    OwnSpansPartition(daily, granularity, startDate, endDate);
    forall i | 0 <= i < |own| ensures Within(day, Loops(periods)[i]) <==> Within(day, own[i]) {
      LoopsAgree(daily, granularity, startDate, endDate, i, k);
    }
    HoldingSame(Loops(periods), own, day);
    HoldingDisjoint(own, day);
  }

  lemma LoopsAddUp(daily: seq<Metric>, granularity: string, startDate: string, endDate: string)
    requires Comparable(daily, startDate, endDate) && YearsPrint(daily, granularity)
    ensures SumSpans(MetricItems(daily), Loops(TrendPeriods(daily, granularity, startDate, endDate)))
            == SumAll(MetricItems(daily))
  {
    LoopsAgreeOnItems(daily, granularity, startDate, endDate);
    SumSpansSame(MetricItems(daily), Loops(TrendPeriods(daily, granularity, startDate, endDate)),
                 OwnSpans(daily, granularity, startDate, endDate));
    OwnSumIsAll(daily, granularity, startDate, endDate);
  }

  lemma LoopsAgreeOnItems(daily: seq<Metric>, granularity: string, startDate: string, endDate: string)
    requires Comparable(daily, startDate, endDate) && YearsPrint(daily, granularity)
    ensures var (loops, own) := (Loops(TrendPeriods(daily, granularity, startDate, endDate)),
                                 OwnSpans(daily, granularity, startDate, endDate));
            |loops| == |own| && forall i, x ::
                0 <= i < |loops| && x in MetricItems(daily) ==> (Within(x.day, loops[i]) <==> Within(x.day, own[i]))
  {
    var loops, own := Loops(TrendPeriods(daily, granularity, startDate, endDate)),
        OwnSpans(daily, granularity, startDate, endDate);
    var items := MetricItems(daily);
    TrendPeriodsReport(daily, granularity, startDate, endDate);
    forall i, x | 0 <= i < |loops| && x in items ensures Within(x.day, loops[i]) <==> Within(x.day, own[i]) {
      var k :| 0 <= k < |items| && items[k] == x;
      LoopsAgree(daily, granularity, startDate, endDate, i, k);
    }
  }

  // ---------------------------------------------------------------------------
  // The summary is the mean of the points.
  // ---------------------------------------------------------------------------

  /** The points' late rates weighted by the headcounts of their spans, added up. */
  function WeightedRates(series: seq<Point>, own: seq<Span>, items: seq<Item>): real
    requires |series| == |own|
    decreases |series|
  {
    if series == [] then 0.0
    else
      var k := |series| - 1;
      WeightedRates(series[..k], own[..k], items) + Times(series[k].lateRate, SumIn(items, own[k]).head)
  }

  /** The points' mean hours weighted by the days of their spans, added up. */
  function WeightedHours(series: seq<Point>, own: seq<Span>, items: seq<Item>): real
    requires |series| == |own|
    decreases |series|
  {
    if series == [] then 0.0
    else
      var k := |series| - 1;
      WeightedHours(series[..k], own[..k], items) + Times(series[k].avgHours, SumIn(items, own[k]).days)
  }

  function Times(rate: real, n: int): real {
    rate * n as real
  }

  lemma TimesPlus(rate: real, m: int, n: int)
    ensures Times(rate, m + n) == Times(rate, m) + Times(rate, n)
  {
    Distribute(rate, m, n);
  }

  lemma SoundTimes(sum: Sum)
    requires SumSound(sum)
    ensures Times(RateOf(sum), sum.head) == sum.late as real && Times(HoursOf(sum), sum.days) == sum.hours
  {
    RateTimesHead(sum);
  }

  /** What the metrics of early spans add up to. */
  function EarlySum(granularity: string, own: seq<Span>, items: seq<Item>): Sum
    decreases |own|
  {
    if own == [] then ZERO
    else
      var rest, last := EarlySum(granularity, own[..|own| - 1], items), own[|own| - 1];
      if Early(granularity, last) then Plus(rest, SumIn(items, last)) else rest
  }

  /** A point says the rate and the mean hours of some days. */
  predicate Says(p: Point, sum: Sum) {
    p.lateRate == RateOf(sum) && p.avgHours == HoursOf(sum)
  }

  /** Each point is right about its own span, or speaks of 0001-01-01. */
  ghost predicate PointsAre(series: seq<Point>, granularity: string, own: seq<Span>, items: seq<Item>) {
    |series| == |own| && forall i :: 0 <= i < |own| ==>
      SumSound(SumIn(items, own[i]))
          && Says(series[i], if Early(granularity, own[i]) then SumIn(items, ZERO_DAY) else SumIn(items, own[i]))
  }

  /** The late counts as the points see them: exact but for the early spans. */
  function Seen(all: int, early: int): real {
    all as real - early as real
  }

  /** What one point adds to the weighted rates and hours. */
  lemma PointWeighs(p: Point, early: bool, own: Sum, zeroDay: Sum)
    requires SumSound(own) && Says(p, if early then zeroDay else own)
    ensures Times(p.lateRate, own.head) == if early then Times(RateOf(zeroDay), own.head) else own.late as real
    ensures Times(p.avgHours, own.days) == if early then Times(HoursOf(zeroDay), own.days) else own.hours
  {
    SoundTimes(own);
  }

  lemma {:induction false} RatesAddUp(series: seq<Point>, granularity: string, own: seq<Span>, items: seq<Item>)
    requires PointsAre(series, granularity, own, items)
    ensures WeightedRates(series, own, items)
            == Seen(SumSpans(items, own).late, EarlySum(granularity, own, items).late)
               + Times(RateOf(SumIn(items, ZERO_DAY)), EarlySum(granularity, own, items).head)
    decreases |own|
  {
    if own != [] {
      var k := |own| - 1;
      var sum, early, rate := SumIn(items, own[k]), EarlySum(granularity, own[..k], items),
          RateOf(SumIn(items, ZERO_DAY));
      RatesAddUp(series[..k], granularity, own[..k], items);
      PointWeighs(series[k], Early(granularity, own[k]), sum, SumIn(items, ZERO_DAY));
      TimesPlus(rate, early.head, sum.head);
    }
  }

  lemma {:induction false} HoursAddUp(series: seq<Point>, granularity: string, own: seq<Span>, items: seq<Item>)
    requires PointsAre(series, granularity, own, items)
    ensures WeightedHours(series, own, items)
            == SumSpans(items, own).hours - EarlySum(granularity, own, items).hours
               + Times(HoursOf(SumIn(items, ZERO_DAY)), EarlySum(granularity, own, items).days)
    decreases |own|
  {
    if own != [] {
      var k := |own| - 1;
      var sum, early, rate := SumIn(items, own[k]), EarlySum(granularity, own[..k], items),
          HoursOf(SumIn(items, ZERO_DAY));
      HoursAddUp(series[..k], granularity, own[..k], items);
      PointWeighs(series[k], Early(granularity, own[k]), sum, SumIn(items, ZERO_DAY));
      TimesPlus(rate, early.days, sum.days);
    }
  }

  /** The early spans, in order. */
  function EarlySpans(granularity: string, own: seq<Span>): seq<Span>
    decreases |own|
  {
    if own == [] then []
    else EarlySpans(granularity, own[..|own| - 1]) + if Early(granularity, own[|own| - 1]) then [own[|own| - 1]] else []
  }

  lemma {:induction false} EarlySpansAre(granularity: string, own: seq<Span>)
    requires Disjoint(own)
    ensures Disjoint(EarlySpans(granularity, own))
    ensures forall day: int :: Covered(day, EarlySpans(granularity, own))
                               <==> exists i :: 0 <= i < |own| && Within(day, own[i]) && Early(granularity, own[i])
    decreases |own|
  {
    if own != [] {
      var init, last, before := own[..|own| - 1], own[|own| - 1], EarlySpans(granularity, own[..|own| - 1]);
      EarlySpansAre(granularity, init);
      forall day: int | Covered(day, before) ensures !Within(day, last) {
        var i :| 0 <= i < |init| && Within(day, init[i]) && Early(granularity, init[i]);
        assert Within(day, own[i]);
      }
      if Early(granularity, last) {
        DisjointSnoc(before, last);
      }
      forall day: int ensures Covered(day, EarlySpans(granularity, own))
                              <==> exists i :: 0 <= i < |own| && Within(day, own[i]) && Early(granularity, own[i]) {
        EarlyCovered(granularity, own, day);
      }
    }
  }

  lemma {:induction false} EarlySpanSums(granularity: string, own: seq<Span>, items: seq<Item>)
    ensures SumSpans(items, EarlySpans(granularity, own)) == EarlySum(granularity, own, items)
    decreases |own|
  {
    if own != [] {
      var last, before := own[|own| - 1], EarlySpans(granularity, own[..|own| - 1]);
      EarlySpanSums(granularity, own[..|own| - 1], items);
      assert (before + [last])[..|before|] == before && before + [] == before;
    }
  }

  lemma EarlyCovered(granularity: string, own: seq<Span>, day: int)
    requires own != []
    requires Covered(day, EarlySpans(granularity, own[..|own| - 1]))
             <==> exists i :: 0 <= i < |own| - 1 && Within(day, own[i]) && Early(granularity, own[i])
    ensures Covered(day, EarlySpans(granularity, own))
            <==> exists i :: 0 <= i < |own| && Within(day, own[i]) && Early(granularity, own[i])
  {
    var last, spans := own[|own| - 1], EarlySpans(granularity, own);
    var before := EarlySpans(granularity, own[..|own| - 1]);
    if Early(granularity, last) {
      CoveredLast(spans, day);
      assert spans[..|spans| - 1] == before;
      if Within(day, last) {
        assert Within(day, own[|own| - 1]) && Early(granularity, own[|own| - 1]);
      }
    } else {
      assert spans == before;
    }
  }

  /** The sums of the metrics that a yearly series dates before 1000. */
  function EarlyMetrics(daily: seq<Metric>, granularity: string): Sum
    requires forall m <- daily :: ParseDay(m.periodStart).Some?
  {
    if granularity == "yearly" then SumIn(MetricItems(daily), Span(0, Year1000() - 1)) else ZERO
  }

  lemma EarlySumIs(daily: seq<Metric>, granularity: string, startDate: string, endDate: string)
    requires OnePerDay(daily) && InRange(daily, startDate, endDate)
    ensures EarlySum(granularity, OwnSpans(daily, granularity, startDate, endDate), MetricItems(daily))
            == EarlyMetrics(daily, granularity)
  {
    var own, items := OwnSpans(daily, granularity, startDate, endDate), MetricItems(daily);
    OwnSpansPartition(daily, granularity, startDate, endDate);
    EarlySpansAre(granularity, own);
    EarlySpanSums(granularity, own, items);
    var spans := EarlySpans(granularity, own);
    if granularity == "yearly" {
      forall x | x in items ensures Covered(x.day, spans) <==> Within(x.day, Span(0, Year1000() - 1)) {
        var k :| 0 <= k < |items| && items[k] == x;
        EarlyOrNot(daily, startDate, endDate, k);
      }
      PartitionOfRange(items, spans, Span(0, Year1000() - 1));
    } else {
      NothingEarly(granularity, own, items);
    }
  }

  lemma EarlyOrNot(daily: seq<Metric>, startDate: string, endDate: string, k: nat)
    requires OnePerDay(daily) && InRange(daily, startDate, endDate) && k < |daily|
    ensures daily[k] in daily
    ensures var own := OwnSpans(daily, "yearly", startDate, endDate);
            (exists i :: 0 <= i < |own| && Within(DayOf(daily[k]), own[i]) && Early("yearly", own[i]))
                <==> DayOf(daily[k]) < Year1000()
  {
    var own := OwnSpans(daily, "yearly", startDate, endDate);
    assert daily[k] in daily;
    var day := DayOf(daily[k]);
    OwnSpansPartition(daily, "yearly", startDate, endDate);
    YearlySpans(daily, startDate, endDate);
    var i :| 0 <= i < |own| && Within(day, own[i]);
    YearSpanSides(TrendRows(daily), i, day);
    forall j | 0 <= j < |own| && Within(day, own[j]) ensures Early("yearly", own[j]) <==> day < Year1000() {
      YearSpanSides(TrendRows(daily), j, day);
    }
  }

  lemma {:induction false} NothingEarly(granularity: string, own: seq<Span>, items: seq<Item>)
    requires granularity != "yearly"
    ensures EarlySum(granularity, own, items) == ZERO
    decreases |own|
  {
    if own != [] {
      NothingEarly(granularity, own[..|own| - 1], items);
    }
  }

  lemma PointsAreRight(daily: seq<Metric>, granularity: string, startDate: string, endDate: string, series: seq<Point>)
    requires Comparable(daily, startDate, endDate)
    requires Shows(series, TrendPeriods(daily, granularity, startDate, endDate))
    ensures PointsAre(series, granularity,
                      OwnSpans(daily, granularity, startDate, endDate), MetricItems(daily))
  {
    var periods, own := TrendPeriods(daily, granularity, startDate, endDate),
        OwnSpans(daily, granularity, startDate, endDate);
    TrendPeriodsReport(daily, granularity, startDate, endDate);
    forall i | 0 <= i < |own|
      ensures SumSound(SumIn(MetricItems(daily), own[i]))
      ensures Says(series[i], SumIn(MetricItems(daily), if Early(granularity, own[i]) then ZERO_DAY else own[i])) {
      MetricSumsSound(daily, own[i]);
      assert PeriodIs(daily, granularity, periods[i], own[i]);
    }
  }

  /** Exactly when is the summary the mean of the series: its late rate is the mean of the
      points' late rates, weighted by the headcounts of their periods, if and only if the metrics
      of a yearly series dated before 1000 have the late rate of 0001-01-01 between them, which is
      all their points report; and its hours are the mean of the points' hours, weighted by
      days, if and only if the same holds of their hours. */
  lemma SummaryIsMeanOfSeries(daily: seq<Metric>, granularity: string, startDate: string, endDate: string,
                              series: seq<Point>)
    requires Comparable(daily, startDate, endDate)
    requires Shows(series, TrendPeriods(daily, granularity, startDate, endDate))
    ensures var own := OwnSpans(daily, granularity, startDate, endDate);
            var (items, summary) := (MetricItems(daily), SummaryOf(daily));
            var (early, zeroDay) := (EarlyMetrics(daily, granularity), SumIn(items, ZERO_DAY));
            && |series| == |own|
            && (WeightedRates(series, own, items) == Times(summary.lateRate, SumAll(items).head)
                <==> Times(RateOf(zeroDay), early.head) == early.late as real)
            && (WeightedHours(series, own, items) == Times(summary.avgHoursPerDay, |daily|)
                <==> Times(HoursOf(zeroDay), early.days) == early.hours)
  {
    var own := OwnSpans(daily, granularity, startDate, endDate);
    var items, summary := MetricItems(daily), SummaryOf(daily);
    var early, zeroDay, all := EarlyMetrics(daily, granularity), SumIn(items, ZERO_DAY), SumAll(items);
    assert |series| == |own|
      && WeightedRates(series, own, items) == Seen(all.late, early.late) + Times(RateOf(zeroDay), early.head)
      && WeightedHours(series, own, items) == all.hours - early.hours + Times(HoursOf(zeroDay), early.days) by {
      WeightedSums(daily, granularity, startDate, endDate, series);
    }
    SummaryTimes(daily);
    MeanIff(WeightedRates(series, own, items), all.late, early.late, Times(RateOf(zeroDay), early.head),
            Times(summary.lateRate, all.head));
  }

  lemma MeanIff(weighted: real, all: int, early: int, seen: real, mean: real)
    requires weighted == Seen(all, early) + seen && mean == all as real
    ensures weighted == mean <==> seen == early as real
  {
  }

  lemma SummaryTimes(daily: seq<Metric>)
    requires OnePerDay(daily) && Coherent(daily)
    ensures var (summary, all) := (SummaryOf(daily), SumAll(MetricItems(daily)));
            Times(summary.lateRate, all.head) == all.late as real && Times(summary.avgHoursPerDay, |daily|) == all.hours
  {
    SummaryWeighsBack(daily);
    WeighsTimes(SummaryOf(daily), SumAll(MetricItems(daily)), |daily|);
  }

  lemma WeighsTimes(s: Summary, all: Sum, n: int)
    requires WeighsBack(s, all, n)
    ensures Times(s.lateRate, all.head) == all.late as real && Times(s.avgHoursPerDay, n) == all.hours
  {
  }

  lemma WeightedSums(daily: seq<Metric>, granularity: string, startDate: string, endDate: string, series: seq<Point>)
    requires Comparable(daily, startDate, endDate)
    requires Shows(series, TrendPeriods(daily, granularity, startDate, endDate))
    ensures var own := OwnSpans(daily, granularity, startDate, endDate);
            var (items, early) := (MetricItems(daily), EarlyMetrics(daily, granularity));
            var (all, zeroDay) := (SumAll(items), SumIn(items, ZERO_DAY));
            && |series| == |own|
            && WeightedRates(series, own, items) == Seen(all.late, early.late) + Times(RateOf(zeroDay), early.head)
            && WeightedHours(series, own, items) == all.hours - early.hours + Times(HoursOf(zeroDay), early.days)
  {
    var own := OwnSpans(daily, granularity, startDate, endDate);
    PointsAreRight(daily, granularity, startDate, endDate, series);
    RatesAddUp(series, granularity, own, MetricItems(daily));
    HoursAddUp(series, granularity, own, MetricItems(daily));
    EarlySumIs(daily, granularity, startDate, endDate);
    OwnSumIsAll(daily, granularity, startDate, endDate);
  }

  lemma OwnSumIsAll(daily: seq<Metric>, granularity: string, startDate: string, endDate: string)
    requires OnePerDay(daily) && InRange(daily, startDate, endDate)
    ensures SumSpans(MetricItems(daily), OwnSpans(daily, granularity, startDate, endDate)) == SumAll(MetricItems(daily))
  {
    var items, own := MetricItems(daily), OwnSpans(daily, granularity, startDate, endDate);
    OwnSpansPartition(daily, granularity, startDate, endDate);
    forall x | x in items ensures Covered(x.day, own) {
      var k :| 0 <= k < |items| && items[k] == x;
      assert daily[k] in daily;
    }
    PartitionConserves(items, own);
  }

  // ---------------------------------------------------------------------------
  // Each point lies between its days.
  // ---------------------------------------------------------------------------

  /** A point's late rate and mean hours lie between the least and the greatest of the days of
      its period, if there are any; those of a year before 1000 are the ones of 0001-01-01. */
  lemma PeriodLiesBetweenItsDays(daily: seq<Metric>, granularity: string, startDate: string, endDate: string,
                                 series: seq<Point>, i: nat, lo: real, hi: real, loHours: real, hiHours: real)
    requires Comparable(daily, startDate, endDate)
    requires Shows(series, TrendPeriods(daily, granularity, startDate, endDate))
    requires i < |OwnSpans(daily, granularity, startDate, endDate)|
    requires BoundDays(daily, OwnSpans(daily, granularity, startDate, endDate)[i], lo, hi, loHours, hiHours)
    ensures var own := OwnSpans(daily, granularity, startDate, endDate)[i];
            var (sum, zeroDay) := (SumIn(MetricItems(daily), own), SumIn(MetricItems(daily), ZERO_DAY));
            && i < |series|
            && (!Early(granularity, own) && sum.head > 0 ==> lo <= series[i].lateRate <= hi)
            && (!Early(granularity, own) && sum.days > 0 ==> loHours <= series[i].avgHours <= hiHours)
            && (Early(granularity, own) ==>
                  && (lo <= series[i].lateRate <= hi <==> lo <= RateOf(zeroDay) <= hi)
                  && (loHours <= series[i].avgHours <= hiHours <==> loHours <= HoursOf(zeroDay) <= hiHours))
  {
    TrendPeriodsReport(daily, granularity, startDate, endDate);
    var p, own := TrendPeriods(daily, granularity, startDate, endDate)[i],
        OwnSpans(daily, granularity, startDate, endDate)[i];
    assert PeriodIs(daily, granularity, p, own);
    SpanLiesBetweenItsDays(daily, own, lo, hi, loHours, hiHours);
  }

  // ---------------------------------------------------------------------------
  // The dates that the queries return.
  // ---------------------------------------------------------------------------

  /** A ClickHouse Date cannot lie before 1970. */
  predicate Storable(day: nat) {
    Civil(day).year >= 1970
  }

  /** The metrics are dated as stored events can be. */
  ghost predicate StoredDates(daily: seq<Metric>) {
    forall m <- daily :: ParseDay(m.periodStart).Some? && Storable(DayOf(m))
  }

  lemma StorableIsLate(day: nat)
    requires Storable(day)
    ensures Year1000() <= day
  {
    BeforeFirstDay(Year, 1000, day);
  }

  /** The rows are dated as stored events can be; a row whose date does not parse is left out of
      the periods anyway. */
  ghost predicate StoredRows(rows: seq<AggregatedRow>) {
    forall r <- rows :: ParseDay(r.reportDate).Some? ==> Storable(ParseDay(r.reportDate).value)
  }

  lemma StoredTrendRows(daily: seq<Metric>)
    requires StoredDates(daily)
    ensures StoredRows(TrendRows(daily))
  {
    forall r | r in TrendRows(daily) && ParseDay(r.reportDate).Some? ensures Storable(ParseDay(r.reportDate).value) {
      var m := TrendRowsDated(daily, r);
    }
  }

  lemma StoredSpan(rows: seq<AggregatedRow>, i: nat)
    requires StoredRows(rows) && i < |UnitSpans(Year, rows)|
    ensures UnitSpans(Year, rows)[i].first >= Year1000()
  {
    var r := SpanHoldsRow(rows, i);
    StorableIsLate(ParseDay(r.reportDate).value);
    YearSpanSides(rows, i, ParseDay(r.reportDate).value);
  }

  lemma NoPeriodIsEarly(rows: seq<AggregatedRow>, granularity: string, startDate: string, endDate: string, i: nat)
    requires StoredRows(rows) && i < |RowSpans(rows, granularity, startDate, endDate)|
    ensures !Early(granularity, RowSpans(rows, granularity, startDate, endDate)[i])
  {
    if granularity == "yearly" {
      SpansByUnit(Year, rows, startDate, endDate);
      StoredSpan(rows, i);
    }
  }

  lemma StoredAreLate(daily: seq<Metric>, granularity: string)
    requires StoredDates(daily)
    ensures YearsPrint(daily, granularity)
  {
    forall m | m in daily ensures DayOf(m) >= Year1000() {
      StorableIsLate(DayOf(m));
    }
  }

  /** On stored dates the merge loop of each point meets exactly the days of the point, each day
      feeds exactly one point, and nothing is lost or counted twice. */
  lemma StoredDaysCountOnce(daily: seq<Metric>, granularity: string, startDate: string, endDate: string)
    requires Comparable(daily, startDate, endDate) && StoredDates(daily)
    ensures var loops := Loops(TrendPeriods(daily, granularity, startDate, endDate));
            && loops == OwnSpans(daily, granularity, startDate, endDate)
            && (forall m <- daily :: Holding(loops, DayOf(m)) == 1)
            && SumSpans(MetricItems(daily), loops) == SumAll(MetricItems(daily))
  {
    var periods, own := TrendPeriods(daily, granularity, startDate, endDate),
        OwnSpans(daily, granularity, startDate, endDate);
    StoredAreLate(daily, granularity);
    StoredTrendRows(daily);
    EveryDayCountsOnce(daily, granularity, startDate, endDate);
    TrendPeriodsReport(daily, granularity, startDate, endDate);
    forall i | 0 <= i < |own| ensures LoopSpan(periods[i]) == own[i] {
      assert PeriodIs(daily, granularity, periods[i], own[i]);
      if ByRange(granularity) {
        NoPeriodIsEarly(TrendRows(daily), granularity, startDate, endDate, i);
      }
    }
  }

  lemma NothingStoredEarly(daily: seq<Metric>, granularity: string)
    requires OnePerDay(daily) && StoredDates(daily)
    ensures EarlyMetrics(daily, granularity) == ZERO
  {
    forall x | x in MetricItems(daily) ensures !Within(x.day, Span(0, Year1000() - 1)) {
      var k :| 0 <= k < |daily| && MetricItems(daily)[k] == x;
      assert daily[k] in daily;
      StorableIsLate(x.day);
    }
    SumInNone(MetricItems(daily), Span(0, Year1000() - 1));
  }

  /** On stored dates the summary is the mean of the points. */
  lemma StoredSummaryIsMean(daily: seq<Metric>, granularity: string, startDate: string, endDate: string,
                            series: seq<Point>)
    requires Comparable(daily, startDate, endDate) && StoredDates(daily)
    requires Shows(series, TrendPeriods(daily, granularity, startDate, endDate))
    ensures var own := OwnSpans(daily, granularity, startDate, endDate);
            var (items, summary) := (MetricItems(daily), SummaryOf(daily));
            && |series| == |own|
            && WeightedRates(series, own, items) == Times(summary.lateRate, SumAll(items).head)
            && WeightedHours(series, own, items) == Times(summary.avgHoursPerDay, |daily|)
  {
    SummaryIsMeanOfSeries(daily, granularity, startDate, endDate, series);
    NothingMissed(EarlyMetrics(daily, granularity), SumIn(MetricItems(daily), ZERO_DAY)) by {
      NothingStoredEarly(daily, granularity);
    }
  }

  lemma NothingMissed(early: Sum, zeroDay: Sum)
    requires early == ZERO
    ensures Times(RateOf(zeroDay), early.head) == early.late as real
    ensures Times(HoursOf(zeroDay), early.days) == early.hours
  {
    assert Times(RateOf(zeroDay), 0) == 0.0 && Times(HoursOf(zeroDay), 0) == 0.0;
  }

  /** On stored dates every point lies between its days. */
  lemma StoredPointLiesBetweenItsDays(daily: seq<Metric>, granularity: string, startDate: string, endDate: string,
                                      series: seq<Point>, i: nat, lo: real, hi: real, loHours: real, hiHours: real)
    requires Comparable(daily, startDate, endDate) && StoredDates(daily)
    requires Shows(series, TrendPeriods(daily, granularity, startDate, endDate))
    requires i < |OwnSpans(daily, granularity, startDate, endDate)|
    requires BoundDays(daily, OwnSpans(daily, granularity, startDate, endDate)[i], lo, hi, loHours, hiHours)
    ensures var sum := SumIn(MetricItems(daily), OwnSpans(daily, granularity, startDate, endDate)[i]);
            && i < |series|
            && (sum.head > 0 ==> lo <= series[i].lateRate <= hi)
            && (sum.days > 0 ==> loHours <= series[i].avgHours <= hiHours)
  {
    PeriodLiesBetweenItsDays(daily, granularity, startDate, endDate, series, i, lo, hi, loHours, hiHours);
    StoredTrendRows(daily);
    if ByRange(granularity) {
      NoPeriodIsEarly(TrendRows(daily), granularity, startDate, endDate, i);
    }
  }

  /** Only the functions by themselves fail: on a metric dated before 1000, which no stored event
      has, and with somebody late, the summary says so and the point does not. */
  lemma EarlyYearIsSilent(m: Metric, startDate: string, endDate: string, series: seq<Point>)
    requires Comparable([m], startDate, endDate) && m.lateCount > 0
    requires var day := ParseDay(m.periodStart).value; day < Year1000() && day != ZERO_TIME
    requires Shows(series, TrendPeriods([m], "yearly", startDate, endDate))
    ensures |series| == 1 && series[0].lateRate == 0.0 && SummaryOf([m]).lateRate > 0.0
  {
    var periods, own := TrendPeriods([m], "yearly", startDate, endDate), OwnSpans([m], "yearly", startDate, endDate);
    OneYear(m, startDate, endDate);
    TrendPeriodsReport([m], "yearly", startDate, endDate);
    assert PeriodIs([m], "yearly", periods[0], own[0]);
    assert m in [m] && DayCoherent(m);
    SingleSums(m);
  }

  lemma OneYear(m: Metric, startDate: string, endDate: string)
    requires OnePerDay([m]) && InRange([m], startDate, endDate) && ParseDay(m.periodStart).value < Year1000()
    ensures |OwnSpans([m], "yearly", startDate, endDate)| == 1
            && Early("yearly", OwnSpans([m], "yearly", startDate, endDate)[0])
  {
    var own := OwnSpans([m], "yearly", startDate, endDate);
    assert m in [m] && [m][0] == m;
    TrendItemCount([m]);
    OneSlot(By(Year), Items(TrendRows([m])));
    OwnSpansPartition([m], "yearly", startDate, endDate);
    assert Covered(DayOf([m][0]), own);
    YearlySpans([m], startDate, endDate);
    YearSpanSides(TrendRows([m]), 0, DayOf(m));
  }

  lemma SingleSum(m: Metric)
    requires ParseDay(m.periodStart).Some? && DayOf(m) != ZERO_TIME
    ensures m in [m] && SumIn(MetricItems([m]), ZERO_DAY) == ZERO
    ensures SumAll(MetricItems([m])).late == m.lateCount && SumAll(MetricItems([m])).head == m.headcount
  {
    assert m in [m];
    var items := MetricItems([m]);
    assert items == [Item(DayOf(m), MetricSum(m))] && items[..0] == [];
  }

  lemma SingleSums(m: Metric)
    requires ParseDay(m.periodStart).Some? && DayOf(m) != ZERO_TIME && 0 < m.lateCount <= m.headcount
    ensures m in [m] && RateOf(SumIn(MetricItems([m]), ZERO_DAY)) == 0.0 && SummaryOf([m]).lateRate > 0.0
  {
    SingleSum(m);
    PositiveRate(m.lateCount, m.headcount);
  }

  lemma PositiveRate(late: int, head: int)
    requires 0 < late <= head
    ensures late as real / head as real > 0.0
  {
  }

  lemma OneSlot(b: Bucketing, items: seq<Item>)
    requires |items| == 1
    ensures |Slots(b, items)| == 1
  {
    assert items[..0] == [];
  }
}
