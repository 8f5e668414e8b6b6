/** The department report: the periods built from the aggregated rows of a unit, with the rates of
    the daily metrics merged into them (report-api: GetDepartmentReport, buildPeriods,
    MergeTrendsIntoPeriods). */
module Department {
  import opened Options
  import opened Calendar
  import opened Tally
  import opened Buckets
  import opened Periods
  import opened Trends
  import opened Series

  /** The merge leaves the bounds and totals of every period alone. */
  lemma MergeKeepsTotals(periods: seq<PeriodReport>, daily: seq<Metric>, granularity: string)
    ensures var merged := Merged(periods, daily, granularity);
            && |merged| == |periods|
            && (forall i :: 0 <= i < |periods| ==>
                  PeriodSum(merged[i]) == PeriodSum(periods[i]) && merged[i].periodStart == periods[i].periodStart
                  && merged[i].periodEnd == periods[i].periodEnd)
            && ReportSums(merged) == ReportSums(periods)
  {
    SameSums(Merged(periods, daily, granularity), periods);
  }

  lemma {:induction false} SameSums(a: seq<PeriodReport>, b: seq<PeriodReport>)
    requires |a| == |b| && forall i :: 0 <= i < |a| ==> PeriodSum(a[i]) == PeriodSum(b[i])
    ensures ReportSums(a) == ReportSums(b)
    decreases |a|
  {
    if a != [] {
      SameSums(a[..|a| - 1], b[..|b| - 1]);
    }
  }

  // ---------------------------------------------------------------------------
  // What a period reports.
  // ---------------------------------------------------------------------------

  /** The period is printed with its first and last day and shows the entries, exits and employees
      of the rows, and the late rate and the mean hours of the metrics, dated in these days; zero
      where there is nothing to divide by. */
  ghost predicate ReportsBoth(p: PeriodReport, rows: seq<AggregatedRow>, daily: seq<Metric>, own: Span) {
    && 0 <= own.first <= own.last && p.periodStart == FormatDay(own.first) && p.periodEnd == FormatDay(own.last)
    && ShowsRows(p, rows, own)
    && p.lateRate == (if HeadIn(daily, own) > 0 then LateIn(daily, own) as real / HeadIn(daily, own) as real else 0.0)
    && p.avgHours == (if DaysWithin(daily, own) > 0 then HoursIn(daily, own) / DaysWithin(daily, own) as real else 0.0)
  }

  lemma BuiltSums(rows: seq<AggregatedRow>, granularity: string, startDate: string, endDate: string, i: nat)
    requires ByRange(granularity) && i < |RowSpans(rows, granularity, startDate, endDate)|
    ensures var built := Built(rows, granularity, startDate, endDate);
            i < |built| && PeriodSum(built[i]) == SumIn(Items(rows), RowSpans(rows, granularity, startDate, endDate)[i])
  {
    if granularity == "weekly" {
      WeekSums(rows, startDate, endDate);
    } else {
      var unit := UnitNamed(granularity);
      UnitSums(unit, rows, startDate, endDate, i);
    }
  }

  lemma UnitSums(unit: Unit, rows: seq<AggregatedRow>, startDate: string, endDate: string, i: nat)
    requires i < |RowSpans(rows, UnitName(unit), startDate, endDate)|
    ensures var built := Built(rows, UnitName(unit), startDate, endDate);
            i < |built| && PeriodSum(built[i])
                == SumIn(Items(rows), RowSpans(rows, UnitName(unit), startDate, endDate)[i])
  {
    SpansByUnit(unit, rows, startDate, endDate);
    BuiltByUnit(unit, rows, startDate, endDate);
    GroupedSums(unit, rows);
  }

  /** For any rows and metrics on stored dates, the periods of a report by week, month, quarter or
      year are disjoint; each reports the entries, exits and employees of the rows and the late
      rate and mean hours of the metrics dated in its own days; and a metric feeds exactly one
      period if its day is asked for, by the requested range or by a row of the same month,
      quarter or year, and none otherwise. */
  lemma DepartmentReport(rows: seq<AggregatedRow>, daily: seq<Metric>, granularity: string, startDate: string,
                         endDate: string)
    requires OnePerDay(daily) && ByRange(granularity) && StoredRows(rows)
    ensures var (periods, own) := (MergedBuilt(rows, daily, granularity, startDate, endDate),
                                   RowSpans(rows, granularity, startDate, endDate));
            && AllAre(periods, rows, daily, own) && Disjoint(own)
            && (forall m <- daily :: Holding(Loops(periods), DayOf(m))
                                     == if Asked(rows, granularity, startDate, endDate, DayOf(m)) then 1 else 0)
  {
    AllReportBoth(rows, daily, granularity, startDate, endDate);
    MetricsFeed(rows, daily, granularity, startDate, endDate);
    PeriodsCover(rows, granularity, startDate, endDate, 0);
  }

  ghost predicate AllAre(periods: seq<PeriodReport>, rows: seq<AggregatedRow>, daily: seq<Metric>, own: seq<Span>) {
    |periods| == |own| && forall i :: 0 <= i < |own| ==> ReportsBoth(periods[i], rows, daily, own[i])
  }

  lemma AllReportBoth(rows: seq<AggregatedRow>, daily: seq<Metric>, granularity: string, startDate: string,
                      endDate: string)
    requires OnePerDay(daily) && ByRange(granularity) && StoredRows(rows)
    ensures var (periods, own) := (MergedBuilt(rows, daily, granularity, startDate, endDate),
                                   RowSpans(rows, granularity, startDate, endDate));
            AllAre(periods, rows, daily, own) && Loops(periods) == own
  {
    var periods, own := MergedBuilt(rows, daily, granularity, startDate, endDate),
        RowSpans(rows, granularity, startDate, endDate);
    PeriodsReportTheirDays(rows, daily, granularity, startDate, endDate);
    forall i | 0 <= i < |own| ensures ReportsBoth(periods[i], rows, daily, own[i]) && LoopSpan(periods[i]) == own[i] {
      PeriodReportsBoth(rows, daily, granularity, startDate, endDate, i);
    }
  }

  lemma MetricsFeed(rows: seq<AggregatedRow>, daily: seq<Metric>, granularity: string, startDate: string,
                    endDate: string)
    requires OnePerDay(daily) && ByRange(granularity) && StoredRows(rows)
    ensures forall m <- daily :: Holding(Loops(MergedBuilt(rows, daily, granularity, startDate, endDate)), DayOf(m))
                                 == if Asked(rows, granularity, startDate, endDate, DayOf(m)) then 1 else 0
  {
    var own := RowSpans(rows, granularity, startDate, endDate);
    AllReportBoth(rows, daily, granularity, startDate, endDate);
    forall m | m in daily
      ensures Holding(own, DayOf(m)) == if Asked(rows, granularity, startDate, endDate, DayOf(m)) then 1 else 0 {
      PeriodsCover(rows, granularity, startDate, endDate, DayOf(m));
      HoldingDisjoint(own, DayOf(m));
    }
  }

  lemma PeriodReportsBoth(rows: seq<AggregatedRow>, daily: seq<Metric>, granularity: string, startDate: string,
                          endDate: string, i: nat)
    requires OnePerDay(daily) && ByRange(granularity) && StoredRows(rows)
    requires i < |RowSpans(rows, granularity, startDate, endDate)|
             == |MergedBuilt(rows, daily, granularity, startDate, endDate)|
    requires PeriodIs(daily, granularity, MergedBuilt(rows, daily, granularity, startDate, endDate)[i],
                     RowSpans(rows, granularity, startDate, endDate)[i])
    ensures ReportsBoth(MergedBuilt(rows, daily, granularity, startDate, endDate)[i], rows, daily,
                        RowSpans(rows, granularity, startDate, endDate)[i])
    ensures LoopSpan(MergedBuilt(rows, daily, granularity, startDate, endDate)[i])
            == RowSpans(rows, granularity, startDate, endDate)[i]
  {
    var p, own := MergedBuilt(rows, daily, granularity, startDate, endDate)[i],
        RowSpans(rows, granularity, startDate, endDate)[i];
    NoPeriodIsEarly(rows, granularity, startDate, endDate, i);
    RowSpansProper(rows, granularity, startDate, endDate, i);
    BuiltSums(rows, granularity, startDate, endDate, i);
    MergeKeepsTotals(Built(rows, granularity, startDate, endDate), daily, granularity);
    RowColumnsAre(rows, own);
    ColumnsAre(daily, own);
    FormatParse(p.periodStart);
    FormatParse(p.periodEnd);
  }

  // ---------------------------------------------------------------------------
  // The report by day.
  // ---------------------------------------------------------------------------

  lemma {:induction false} DatesOccur(rows: seq<AggregatedRow>, date: string)
    ensures date in Dates(rows) <==> exists r :: r in rows && r.reportDate == date
    decreases |rows|
  {
    if rows != [] {
      var init, last := rows[..|rows| - 1], rows[|rows| - 1];
      assert rows == init + [last];
      DatesOccur(init, date);
    }
  }

  /** By day, or by any other word, there is one period for each date text of a row; it has the
      rates of the metric of that date, and stays as it was built if there is none. So a metric
      feeds a period exactly if some row has its date. */
  lemma DailyDepartmentReport(rows: seq<AggregatedRow>, daily: seq<Metric>, granularity: string, startDate: string,
                              endDate: string)
    requires OnePerDay(daily) && !ByRange(granularity)
    ensures var (built, periods) := (Daily(rows), MergedBuilt(rows, daily, granularity, startDate, endDate));
            && |periods| == |Dates(rows)| && DistinctDates(Dates(rows))
            && (forall i :: 0 <= i < |periods| ==> periods[i].periodStart == Dates(rows)[i])
            && (forall i, k :: 0 <= i < |periods| && 0 <= k < |daily| && daily[k].periodStart == Dates(rows)[i] ==>
                  periods[i] == built[i].(lateRate := daily[k].lateRate, avgHours := daily[k].avgHours))
            && (forall i ::
                0 <= i < |periods| && (forall m <- daily :: m.periodStart != Dates(rows)[i]) ==> periods[i] == built[i])
            && (forall m <- daily ::
                m.periodStart in Dates(rows) <==> exists r :: r in rows && r.reportDate == m.periodStart)
  {
    var built, periods := Daily(rows), MergedBuilt(rows, daily, granularity, startDate, endDate);
    assert Built(rows, granularity, startDate, endDate) == built;
    DatesAreDistinct(rows);
    MergeKeepsTotals(built, daily, granularity);
    forall i | 0 <= i < |periods| ensures periods[i].periodStart == Dates(rows)[i] {
      DateReportBounds(Dates(rows)[i], rows);
    }
    forall i, k | 0 <= i < |periods| && 0 <= k < |daily| && daily[k].periodStart == Dates(rows)[i]
      ensures periods[i] == built[i].(lateRate := daily[k].lateRate, avgHours := daily[k].avgHours) {
      DayMapHolds(daily, k);
      MergedAt(built, daily, granularity, i);
      DateReportBounds(Dates(rows)[i], rows);
    }
    forall i | 0 <= i < |periods| && (forall m <- daily :: m.periodStart != Dates(rows)[i])
        ensures periods[i] == built[i] {
      DayMapKeys(daily);
      DateReportBounds(Dates(rows)[i], rows);
    }
    forall m | m in daily ensures m.periodStart in Dates(rows)
        <==> exists r :: r in rows && r.reportDate == m.periodStart {
      DatesOccur(rows, m.periodStart);
    }
  }

  // ---------------------------------------------------------------------------
  // The periods of the response.
  // ---------------------------------------------------------------------------

  /** GetDepartmentReport after the queries; None stands for a trends query that failed, and an
      empty granularity for the daily one. */
  method DepartmentPeriods(rows: seq<AggregatedRow>, dailyTrends: Option<seq<Metric>>, requested: string,
                           startDate: string, endDate: string)
    returns (periods: seq<PeriodReport>)
    ensures var granularity := if requested == "" then "daily" else requested;
            periods == match dailyTrends
                       case None => Built(rows, granularity, startDate, endDate)
                       case Some(daily) => MergedBuilt(rows, daily, granularity, startDate, endDate)
  {
    var granularity := if requested == "" then "daily" else requested;
    var built := BuildPeriods(rows, granularity, startDate, endDate);
    if dailyTrends.None? {
      return built;
    }
    var merged := new PeriodReport[|built|](i requires 0 <= i < |built| => built[i]);
    assert merged[..] == built;
    MergeTrendsIntoPeriods(merged, dailyTrends.value, granularity);
    return merged[..];
  }
}
