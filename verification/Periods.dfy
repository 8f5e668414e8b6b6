/** The period engine of department reports: rows grouped by day, week, month, quarter or year
    (report-api/internal/service/report_service.go). */
module Periods {
  import opened Options
  import opened Calendar
  import opened Tally
  import opened Buckets

  datatype AggregatedRow = AggregatedRow(orgUnitId: string, reportDate: string, totalEntries: int, totalExits: int,
                                         uniqueEmployees: int, avgHours: real)
  datatype PeriodReport = PeriodReport(periodStart: string, periodEnd: string, totalEntries: int, totalExits: int,
                                       uniqueEmployees: int, avgHours: real, lateRate: real)

  function RowSum(r: AggregatedRow): Sum {
    Sum(r.totalEntries, r.totalExits, r.uniqueEmployees, 0, 0, 0.0, 0)
  }

  /** The rows whose date parses, dated. */
  function Items(rows: seq<AggregatedRow>): seq<Item>
    decreases |rows|
  {
    if rows == [] then []
    else
      var init, r := Items(rows[..|rows| - 1]), rows[|rows| - 1];
      if ParseDay(r.reportDate).Some? then init + [Item(ParseDay(r.reportDate).value, RowSum(r))] else init
  }

  lemma ItemsSnoc(rows: seq<AggregatedRow>, r: AggregatedRow)
    ensures Items(rows + [r]) ==
            if ParseDay(r.reportDate).Some? then Items(rows) + [Item(ParseDay(r.reportDate).value, RowSum(r))]
            else Items(rows)
  {
    assert (rows + [r])[..|rows|] == rows;
  }

  lemma {:induction false} ItemsAreNameable(rows: seq<AggregatedRow>)
    ensures forall x <- Items(rows) :: Nameable(x.day)
    decreases |rows|
  {
    if rows != [] {
      ItemsAreNameable(rows[..|rows| - 1]);
      var r := rows[|rows| - 1];
      if ParseDay(r.reportDate).Some? {
        FormatParse(r.reportDate);
      }
    }
  }

  function Report(start: string, end: string, sum: Sum): PeriodReport {
    PeriodReport(start, end, sum.entries, sum.exits, sum.unique, 0.0, 0.0)
  }

  function AddRow(p: PeriodReport, r: AggregatedRow): PeriodReport {
    p.(totalEntries := p.totalEntries + r.totalEntries, totalExits := p.totalExits + r.totalExits,
       uniqueEmployees := p.uniqueEmployees + r.uniqueEmployees)
  }

  // ---------------------------------------------------------------------------
  // Months, quarters and years.
  // ---------------------------------------------------------------------------

  /** How a grouping names its slots: the map key and the printed bounds. `named` holds for the
      slots that a date can fall into. */
  datatype Labels = Labels(key: nat -> string, start: nat -> string, end: nat -> string, named: nat -> bool)

  ghost predicate KeysInjective(l: Labels) {
    forall a: nat, b: nat :: l.named(a) && l.named(b) && l.key(a) == l.key(b) ==> a == b
  }

  ghost predicate NamesAllDates(b: Bucketing, l: Labels) {
    forall text: string :: ParseDay(text).Some? ==> l.named(b.slot(ParseDay(text).value))
  }

  function SlotReport(b: Bucketing, l: Labels, slot: nat, items: seq<Item>): PeriodReport {
    Report(l.start(slot), l.end(slot), SumIn(items, SpanOf(b, slot)))
  }

  function SlotReports(b: Bucketing, l: Labels, slots: seq<nat>, items: seq<Item>): seq<PeriodReport> {
    seq(|slots|, i requires 0 <= i < |slots| => SlotReport(b, l, slots[i], items))
  }

  /** The reference meaning of a grouping: one period for each slot that occurs, in order of
      first occurrence, with the totals of all rows dated in the slot's range of days. */
  function GroupedBy(b: Bucketing, l: Labels, rows: seq<AggregatedRow>): seq<PeriodReport> {
    SlotReports(b, l, Slots(b, Items(rows)), Items(rows))
  }

  function By(unit: Unit): Bucketing {
    Bucketing((n: nat) => Slot(unit, n), (slot: nat) => FirstDay(unit, slot), (slot: nat) => LastDay(unit, slot))
  }

  function LabelsOf(unit: Unit): Labels {
    Labels((slot: nat) => KeyText(unit, slot), (slot: nat) => StartText(unit, slot), (slot: nat) => EndText(unit, slot),
           (slot: nat) => NameableSlot(unit, slot))
  }

  /** groupByMonth, groupByQuarter and groupByYear. */
  function Grouped(unit: Unit, rows: seq<AggregatedRow>): seq<PeriodReport> {
    GroupedBy(By(unit), LabelsOf(unit), rows)
  }

  lemma UnitIsExact(unit: Unit)
    ensures Exact(By(unit))
  {
    var b := By(unit);
    forall day: nat, slot: nat ensures Within(day, SpanOf(b, slot)) <==> b.slot(day) == slot {
      SlotIsExact(unit, slot, day);
    }
    forall slot: nat ensures b.slot(b.first(slot)) == slot {
      FirstDayIsFirst(unit, slot);
    }
  }

  lemma UnitIsNamed(unit: Unit)
    ensures KeysInjective(LabelsOf(unit)) && NamesAllDates(By(unit), LabelsOf(unit))
  {
    var l := LabelsOf(unit);
    forall a: nat, b: nat | l.named(a) && l.named(b) && l.key(a) == l.key(b) ensures a == b {
      KeysAreInjective(unit, a, b);
    }
    forall text: string | ParseDay(text).Some? ensures l.named(By(unit).slot(ParseDay(text).value)) {
      FormatParse(text);
      SlotYear(unit, ParseDay(text).value);
    }
  }

  lemma SlotYear(unit: Unit, n: nat)
    ensures FirstMonth(unit, Slot(unit, n)).year == Civil(n).year
  {
    CivilCounts(n);
    SlotBrackets(unit, Civil(n).year, Civil(n).month);
  }

  /** The totals that the periods report, added up. */
  function ReportSums(periods: seq<PeriodReport>): Sum
    decreases |periods|
  {
    if periods == [] then ZERO else Plus(ReportSums(periods[..|periods| - 1]), PeriodSum(periods[|periods| - 1]))
  }

  /** Each period reports the sums of one of the ranges of days. */
  predicate ReportsSpans(periods: seq<PeriodReport>, items: seq<Item>, spans: seq<Span>) {
    |periods| == |spans| && forall i :: 0 <= i < |spans| ==> PeriodSum(periods[i]) == SumIn(items, spans[i])
  }

  /** Then they add up as the ranges do. */
  lemma {:induction false} ReportsAddUp(periods: seq<PeriodReport>, items: seq<Item>, spans: seq<Span>)
    requires ReportsSpans(periods, items, spans)
    ensures ReportSums(periods) == SumSpans(items, spans)
    decreases |spans|
  {
    if spans != [] {
      ReportsAddUp(periods[..|periods| - 1], items, spans[..|spans| - 1]);
    }
  }

  /** The periods of a grouping are pairwise disjoint ranges of days, [FirstDay, LastDay] of a
      month, quarter or year, that cover every dated row; the entries, exits and employees they
      report add up to those of all dated rows. */
  lemma PeriodsConserve(unit: Unit, rows: seq<AggregatedRow>)
    ensures var items := Items(rows);
            var spans := SpansOf(By(unit), Slots(By(unit), items));
            && ReportsSpans(Grouped(unit, rows), items, spans)
            && Disjoint(spans)
            && (forall x <- items :: Covered(x.day, spans))
            && ReportSums(Grouped(unit, rows)) == SumAll(items)
  {
    var items := Items(rows);
    UnitIsExact(unit);
    GroupingConserves(By(unit), items);
    GroupedSums(unit, rows);
    var spans := SpansOf(By(unit), Slots(By(unit), items));
    ReportsAddUp(Grouped(unit, rows), items, spans);
  }

  // ---------------------------------------------------------------------------
  // Roll-up.
  // ---------------------------------------------------------------------------

  predicate Coarser(fine: Unit, coarse: Unit) {
    (fine.Month? && !coarse.Month?) || (fine.Quarter? && coarse.Year?)
  }

  /** The coarse slot that contains a fine one. */
  function Up(fine: Unit, coarse: Unit): nat -> nat {
    (slot: nat) => if fine.Month? then (if coarse.Quarter? then slot / 3 else slot / 12) else slot / 4
  }

  lemma UnitRefines(fine: Unit, coarse: Unit)
    requires Coarser(fine, coarse)
    ensures Refines(By(fine), By(coarse), Up(fine, coarse))
  {
    forall n: nat ensures By(coarse).slot(n) == Up(fine, coarse)(By(fine).slot(n)) {
      CivilCounts(n);
      UpIsSlot(fine, coarse, Civil(n).year, Civil(n).month);
    }
  }

  lemma UpIsSlot(fine: Unit, coarse: Unit, year: nat, month: nat)
    requires 1 <= month <= 12
    ensures (12 * year + month - 1) / 12 == year
    ensures (12 * year + month - 1) / 3 == 4 * year + (month - 1) / 3
    ensures (4 * year + (month - 1) / 3) / 4 == year
  {
  }

  /** The periods of a grouping taken as rows again. */
  function AsRows(periods: seq<PeriodReport>): seq<AggregatedRow> {
    seq(|periods|, i requires 0 <= i < |periods| => AsRow(periods[i]))
  }

  function AsRow(p: PeriodReport): AggregatedRow {
    AggregatedRow("", p.periodStart, p.totalEntries, p.totalExits, p.uniqueEmployees, 0.0)
  }

  /** Rows carry entries, exits and employees; the other sums stay zero. */
  predicate CountsOnly(s: Sum) {
    s == Sum(s.entries, s.exits, s.unique, 0, 0, 0.0, 0)
  }

  lemma {:induction false} SumsCountOnly(items: seq<Item>, span: Span)
    requires forall x <- items :: CountsOnly(x.sum)
    ensures CountsOnly(SumIn(items, span))
    decreases |items|
  {
    if items != [] {
      assert items[|items| - 1] in items;
      SumsCountOnly(items[..|items| - 1], span);
    }
  }

  lemma {:induction false} RowsCountOnly(rows: seq<AggregatedRow>)
    ensures forall x <- Items(rows) :: CountsOnly(x.sum)
    decreases |rows|
  {
    if rows != [] {
      RowsCountOnly(rows[..|rows| - 1]);
    }
  }

  /** The start of every slot parses back to the slot's first day. */
  ghost predicate StartsParse(b: Bucketing, l: Labels, slots: seq<nat>) {
    forall slot <- slots :: ParseDay(l.start(slot)) == Some(b.first(slot))
  }

  lemma {:induction false} PeriodsAsItems(b: Bucketing, l: Labels, slots: seq<nat>, items: seq<Item>)
    requires StartsParse(b, l, slots) && forall x <- items :: CountsOnly(x.sum)
    ensures Items(AsRows(SlotReports(b, l, slots, items))) == SlotItems(b, slots, items)
    decreases |slots|
  {
    if slots != [] {
      var init, last := slots[..|slots| - 1], slots[|slots| - 1];
      assert slots == init + [last];
      PeriodsAsItems(b, l, init, items);
      var rows, row := AsRows(SlotReports(b, l, init, items)), AsRow(SlotReport(b, l, last, items));
      assert AsRows(SlotReports(b, l, slots, items)) == rows + [row];
      ItemsSnoc(rows, row);
      assert last in slots;
      SumsCountOnly(items, SpanOf(b, last));
      assert RowSum(row) == SumIn(items, SpanOf(b, last));
      SlotItemsSplit(b, init, last, items);
    }
  }

  lemma RegroupingCommutesBy(fine: Bucketing, fl: Labels, coarse: Bucketing, cl: Labels, up: nat -> nat,
                             rows: seq<AggregatedRow>)
    requires Exact(fine) && Exact(coarse) && Refines(fine, coarse, up)
             && StartsParse(fine, fl, Slots(fine, Items(rows)))
    ensures GroupedBy(coarse, cl, AsRows(GroupedBy(fine, fl, rows))) == GroupedBy(coarse, cl, rows)
  {
    var items := Items(rows);
    var slots := Slots(fine, items);
    RowsCountOnly(rows);
    PeriodsAsItems(fine, fl, slots, items);
    var again := SlotItems(fine, slots, items);
    assert Items(AsRows(GroupedBy(fine, fl, rows))) == again;
    SlotsOfSlots(fine, coarse, up, items, items);
    var targets := Slots(coarse, items);
    forall i | 0 <= i < |targets| ensures SlotReport(coarse, cl, targets[i], again)
        == SlotReport(coarse, cl, targets[i], items) {
      FineSumsAddUp(fine, coarse, up, items, targets[i]);
    }
    assert SlotReports(coarse, cl, targets, again) == SlotReports(coarse, cl, targets, items);
  }

  /** Roll-up coherence: grouping the months of any rows by quarter or year, or their quarters by
      year, gives exactly the periods of grouping the rows directly, in the same order. */
  lemma RegroupingCommutes(fine: Unit, coarse: Unit, rows: seq<AggregatedRow>)
    requires Coarser(fine, coarse)
    ensures Grouped(coarse, AsRows(Grouped(fine, rows))) == Grouped(coarse, rows)
  {
    UnitIsExact(fine);
    UnitIsExact(coarse);
    UnitRefines(fine, coarse);
    var b, l, items := By(fine), LabelsOf(fine), Items(rows);
    forall slot | slot in Slots(b, items) ensures ParseDay(l.start(slot)) == Some(b.first(slot)) {
      var x := SlotsOccur(b, items, slot);
      ItemsAreNameable(rows);
      SlotYear(fine, x.day);
      PrintedBounds(fine, slot);
    }
    RegroupingCommutesBy(b, l, By(coarse), LabelsOf(coarse), Up(fine, coarse), rows);
  }

  lemma EndAlike(u: Unit, a: nat, v: Unit, b: nat)
    requires FirstDay(u, a + 1) == FirstDay(v, b + 1)
    ensures LastDay(u, a) == LastDay(v, b)
  {
    SlotsAreAdjacent(u, a);
    SlotsAreAdjacent(v, b);
  }

  lemma QuarterBounds(quarter: nat)
    ensures FirstDay(Quarter, quarter) == FirstDay(Month, 3 * quarter)
    ensures LastDay(Quarter, quarter) == LastDay(Month, 3 * quarter + 2)
  {
    QuarterStart(quarter);
    QuarterStart(quarter + 1);
    EndAlike(Quarter, quarter, Month, 3 * quarter + 2);
  }

  lemma QuarterStart(quarter: nat)
    ensures FirstMonth(Quarter, quarter) == FirstMonth(Month, 3 * quarter)
    ensures FirstDay(Quarter, quarter) == FirstDay(Month, 3 * quarter)
  {
    assert 3 * quarter == 12 * (quarter / 4) + 3 * (quarter % 4);
    assert 3 * quarter / 12 == quarter / 4 && 3 * quarter % 12 == 3 * (quarter % 4);
  }

  lemma YearBounds(year: nat)
    ensures FirstDay(Year, year) == FirstDay(Quarter, 4 * year)
    ensures LastDay(Year, year) == LastDay(Quarter, 4 * year + 3)
  {
    YearStart(year);
    YearStart(year + 1);
    EndAlike(Year, year, Quarter, 4 * year + 3);
  }

  lemma YearStart(year: nat)
    ensures FirstMonth(Year, year) == FirstMonth(Quarter, 4 * year)
    ensures FirstDay(Year, year) == FirstDay(Quarter, 4 * year)
  {
    assert 4 * year / 4 == year && 4 * year % 4 == 0;
  }

  lemma TwoParts(items: seq<Item>, whole: Span, a: Span, b: Span)
    requires whole.first == a.first && a.last + 1 == b.first && b.last == whole.last
    requires a.first <= a.last && b.first <= b.last
    ensures SumIn(items, whole) == Plus(SumIn(items, a), SumIn(items, b))
  {
    SumInSplits(items, whole.first, a.last, whole.last);
  }

  /** What the period of a slot reports, nothing if there is none. */
  function Reported(periods: seq<PeriodReport>, slots: seq<nat>, slot: nat): Sum
    requires |periods| == |slots|
    decreases |slots|
  {
    if slots == [] then ZERO
    else if slots[|slots| - 1] == slot then PeriodSum(periods[|slots| - 1])
    else Reported(periods[..|slots| - 1], slots[..|slots| - 1], slot)
  }

  /** What the report of some rows by month, quarter or year says of one of them. */
  function ReportedBy(unit: Unit, rows: seq<AggregatedRow>, slot: nat): Sum {
    Reported(Grouped(unit, rows), Slots(By(unit), Items(rows)), slot)
  }

  lemma {:induction false} ReportedIs(b: Bucketing, items: seq<Item>, periods: seq<PeriodReport>, slots: seq<nat>,
                                      slot: nat)
    requires |periods| == |slots| && forall i ::
             0 <= i < |slots| ==> PeriodSum(periods[i]) == SumIn(items, SpanOf(b, slots[i]))
    ensures Reported(periods, slots, slot) == if slot in slots then SumIn(items, SpanOf(b, slot)) else ZERO
    decreases |slots|
  {
    if slots != [] {
      assert slots == slots[..|slots| - 1] + [slots[|slots| - 1]];
      ReportedIs(b, items, periods[..|slots| - 1], slots[..|slots| - 1], slot);
    }
  }

  lemma ReportedOrEmpty(b: Bucketing, items: seq<Item>, periods: seq<PeriodReport>, slot: nat)
    requires Exact(b) && |periods| == |Slots(b, items)|
    requires forall i :: 0 <= i < |periods| ==> PeriodSum(periods[i]) == SumIn(items, SpanOf(b, Slots(b, items)[i]))
    ensures Reported(periods, Slots(b, items), slot) == SumIn(items, SpanOf(b, slot))
  {
    ReportedIs(b, items, periods, Slots(b, items), slot);
    if slot !in Slots(b, items) {
      NewSlotIsEmpty(b, items, slot);
    }
  }

  lemma GroupedSums(unit: Unit, rows: seq<AggregatedRow>)
    ensures var slots := Slots(By(unit), Items(rows));
            && |Grouped(unit, rows)| == |slots|
            && forall i ::
                0 <= i < |slots| ==> PeriodSum(Grouped(unit, rows)[i]) == SumIn(Items(rows), SpanOf(By(unit), slots[i]))
  {
    var items, slots := Items(rows), Slots(By(unit), Items(rows));
    RowsCountOnly(rows);
    forall i | 0 <= i < |slots| ensures PeriodSum(Grouped(unit, rows)[i]) == SumIn(items, SpanOf(By(unit), slots[i])) {
      SumsCountOnly(items, SpanOf(By(unit), slots[i]));
    }
  }

  /** It reports the rows dated in the slot's days. */
  lemma ReportedIsSum(unit: Unit, rows: seq<AggregatedRow>, slot: nat)
    ensures ReportedBy(unit, rows, slot) == SumIn(Items(rows), SpanOf(By(unit), slot))
  {
    UnitIsExact(unit);
    GroupedSums(unit, rows);
    ReportedOrEmpty(By(unit), Items(rows), Grouped(unit, rows), slot);
  }

  /** What a report by quarter says of a quarter is the sum of what the report of the same rows by
      month says of its three months. */
  lemma QuarterIsThreeMonths(rows: seq<AggregatedRow>, quarter: nat)
    ensures ReportedBy(Quarter, rows, quarter) ==
            Plus(Plus(ReportedBy(Month, rows, 3 * quarter), ReportedBy(Month, rows, 3 * quarter + 1)),
                 ReportedBy(Month, rows, 3 * quarter + 2))
  {
    ReportedIsSum(Quarter, rows, quarter);
    ReportedIsSum(Month, rows, 3 * quarter);
    ReportedIsSum(Month, rows, 3 * quarter + 1);
    ReportedIsSum(Month, rows, 3 * quarter + 2);
    ThreeMonths(Items(rows), quarter);
  }

  /** What a report by year says of a year is the sum of what the report by quarter says of its
      four quarters. */
  lemma YearIsFourQuarters(rows: seq<AggregatedRow>, year: nat)
    ensures ReportedBy(Year, rows, year) ==
            Plus(Plus(ReportedBy(Quarter, rows, 4 * year), ReportedBy(Quarter, rows, 4 * year + 1)),
                 Plus(ReportedBy(Quarter, rows, 4 * year + 2), ReportedBy(Quarter, rows, 4 * year + 3)))
  {
    ReportedIsSum(Year, rows, year);
    ReportedIsSum(Quarter, rows, 4 * year);
    ReportedIsSum(Quarter, rows, 4 * year + 1);
    ReportedIsSum(Quarter, rows, 4 * year + 2);
    ReportedIsSum(Quarter, rows, 4 * year + 3);
    FourQuarters(Items(rows), year);
  }

  lemma ThreeMonths(items: seq<Item>, quarter: nat)
    ensures var (q, m) := (By(Quarter), By(Month));
            SumIn(items, SpanOf(q, quarter)) ==
            Plus(Plus(SumIn(items, SpanOf(m, 3 * quarter)), SumIn(items, SpanOf(m, 3 * quarter + 1))),
                 SumIn(items, SpanOf(m, 3 * quarter + 2)))
  {
    var m := 3 * quarter;
    var a, b, c := SpanOf(By(Month), m), SpanOf(By(Month), m + 1), SpanOf(By(Month), m + 2);
    QuarterBounds(quarter);
    SlotsAreAdjacent(Month, m);
    SlotsAreAdjacent(Month, m + 1);
    SlotsAreAdjacent(Month, m + 2);
    TwoParts(items, Span(a.first, b.last), a, b);
    TwoParts(items, SpanOf(By(Quarter), quarter), Span(a.first, b.last), c);
  }

  lemma FourQuarters(items: seq<Item>, year: nat)
    ensures var (y, q) := (By(Year), By(Quarter));
            SumIn(items, SpanOf(y, year)) ==
            Plus(Plus(SumIn(items, SpanOf(q, 4 * year)), SumIn(items, SpanOf(q, 4 * year + 1))),
                 Plus(SumIn(items, SpanOf(q, 4 * year + 2)), SumIn(items, SpanOf(q, 4 * year + 3))))
  {
    var q := 4 * year;
    var a, b := SpanOf(By(Quarter), q), SpanOf(By(Quarter), q + 1);
    var c, d := SpanOf(By(Quarter), q + 2), SpanOf(By(Quarter), q + 3);
    YearBounds(year);
    SlotsAreAdjacent(Quarter, q);
    SlotsAreAdjacent(Quarter, q + 1);
    SlotsAreAdjacent(Quarter, q + 2);
    SlotsAreAdjacent(Quarter, q + 3);
    TwoParts(items, Span(a.first, b.last), a, b);
    TwoParts(items, Span(c.first, d.last), c, d);
    TwoParts(items, SpanOf(By(Year), year), Span(a.first, b.last), Span(c.first, d.last));
  }

  // ---------------------------------------------------------------------------
  // The totals of a period, column by column.
  // ---------------------------------------------------------------------------

  predicate RowDated(r: AggregatedRow, span: Span) {
    ParseDay(r.reportDate).Some? && Within(ParseDay(r.reportDate).value, span)
  }

  /** The entries of the rows dated in a span, added up. */
  function EntriesIn(rows: seq<AggregatedRow>, span: Span): int
    decreases |rows|
  {
    if rows == [] then 0
    else EntriesIn(rows[..|rows| - 1], span) + if RowDated(rows[|rows| - 1], span) then rows[|rows| - 1].totalEntries
        else 0
  }

  function ExitsIn(rows: seq<AggregatedRow>, span: Span): int
    decreases |rows|
  {
    if rows == [] then 0
    else ExitsIn(rows[..|rows| - 1], span) + if RowDated(rows[|rows| - 1], span) then rows[|rows| - 1].totalExits else 0
  }

  function EmployeesIn(rows: seq<AggregatedRow>, span: Span): int
    decreases |rows|
  {
    if rows == [] then 0
    else EmployeesIn(rows[..|rows| - 1], span) + if RowDated(rows[|rows| - 1], span)
        then rows[|rows| - 1].uniqueEmployees else 0
  }

  lemma {:induction false} RowColumnsAre(rows: seq<AggregatedRow>, span: Span)
    ensures var sum := SumIn(Items(rows), span);
            sum.entries == EntriesIn(rows, span) && sum.exits == ExitsIn(rows, span)
            && sum.unique == EmployeesIn(rows, span)
    decreases |rows|
  {
    if rows != [] {
      var init, r := rows[..|rows| - 1], rows[|rows| - 1];
      assert rows == init + [r];
      RowColumnsAre(init, span);
      ItemsSnoc(init, r);
      if ParseDay(r.reportDate).Some? {
        SumInSnoc(Items(init), Item(ParseDay(r.reportDate).value, RowSum(r)), span);
      }
    }
  }

  /** The period shows the entries, exits and employees of the rows dated in its days. */
  predicate ShowsRows(p: PeriodReport, rows: seq<AggregatedRow>, span: Span) {
    && p.totalEntries == EntriesIn(rows, span) && p.totalExits == ExitsIn(rows, span)
    && p.uniqueEmployees == EmployeesIn(rows, span)
  }

  /** Every period of a report by month, quarter or year shows the rows dated in it, and is printed
      with its first and last day; the one exception are the two texts of a year before 1000. */
  lemma PeriodsShowRows(unit: Unit, rows: seq<AggregatedRow>, i: nat)
    requires i < |Slots(By(unit), Items(rows))|
    ensures var (periods, slot) := (Grouped(unit, rows), Slots(By(unit), Items(rows))[i]);
            && |periods| == |Slots(By(unit), Items(rows))|
            && ShowsRows(periods[i], rows, Span(FirstDay(unit, slot), LastDay(unit, slot)))
            && (if unit.Year? && slot < 1000
                then ParseDay(periods[i].periodStart).None? && ParseDay(periods[i].periodEnd).None?
                else ParseDay(periods[i].periodStart) == Some(FirstDay(unit, slot))
                     && ParseDay(periods[i].periodEnd) == Some(LastDay(unit, slot)))
  {
    var slot := Slots(By(unit), Items(rows))[i];
    RowColumnsAre(rows, SpanOf(By(unit), slot));
    var x := SlotsOccur(By(unit), Items(rows), slot);
    ItemsAreNameable(rows);
    SlotYear(unit, x.day);
    PrintedBounds(unit, slot);
  }

  // The grouping loop.

  ghost predicate MapsSlots(b: Bucketing, l: Labels, items: seq<Item>, order: seq<string>,
                            periods: map<string, PeriodReport>) {
    var slots := Slots(b, items);
    && |order| == |slots|
    && (forall i :: 0 <= i < |slots| ==>
          && l.named(slots[i])
          && order[i] == l.key(slots[i])
          && order[i] in periods
          && periods[order[i]] == SlotReport(b, l, slots[i], items))
    && (forall key :: key in periods ==> key in order)
  }

  lemma KeyInMap(b: Bucketing, l: Labels, items: seq<Item>, order: seq<string>, periods: map<string, PeriodReport>,
                 slot: nat)
    requires KeysInjective(l) && MapsSlots(b, l, items, order, periods) && l.named(slot)
    ensures l.key(slot) in periods <==> slot in Slots(b, items)
    ensures l.key(slot) in periods ==> periods[l.key(slot)] == SlotReport(b, l, slot, items)
  {
    var slots, key := Slots(b, items), l.key(slot);
    if key in periods {
      var i :| 0 <= i < |order| && order[i] == key;
      assert slots[i] == slot;
    }
    if slot in slots {
      var i :| 0 <= i < |slots| && slots[i] == slot;
      assert order[i] == key;
    }
  }

  /** Storing the report of the row's slot, with the row added, keeps the map exact. */
  lemma MapStep(b: Bucketing, l: Labels, items: seq<Item>, x: Item, order: seq<string>,
                periods: map<string, PeriodReport>)
    requires Exact(b) && KeysInjective(l) && MapsSlots(b, l, items, order, periods) && l.named(b.slot(x.day))
    ensures var slot := b.slot(x.day);
            var key := l.key(slot);
            MapsSlots(b, l, items + [x], if key in periods then order else order + [key],
                      periods[key := SlotReport(b, l, slot, items + [x])])
  {
    var slot := b.slot(x.day);
    var key := l.key(slot);
    KeyInMap(b, l, items, order, periods, slot);
    SlotsSnoc(b, items, x);
    var slots, after := Slots(b, items), Slots(b, items + [x]);
    var order' := if key in periods then order else order + [key];
    var periods' := periods[key := SlotReport(b, l, slot, items + [x])];
    forall i | 0 <= i < |after|
      ensures l.named(after[i]) && order'[i] == l.key(after[i]) && order'[i] in periods'
              && periods'[order'[i]] == SlotReport(b, l, after[i], items + [x]) {
      SlotSumSnoc(b, items, x, after[i]);
      if after[i] != slot {
        assert after[i] == slots[i];
      }
    }
  }

  /** What the row adds to the slot's report, which starts from zero for a new key. */
  lemma AddRowReports(b: Bucketing, l: Labels, items: seq<Item>, day: nat, r: AggregatedRow)
    requires Exact(b)
    ensures var slot := b.slot(day);
            && AddRow(SlotReport(b, l, slot, items), r) == SlotReport(b, l, slot, items + [Item(day, RowSum(r))])
            && (slot !in Slots(b, items) ==> SlotReport(b, l, slot, items) == Report(l.start(slot), l.end(slot), ZERO))
  {
    SlotSumSnoc(b, items, Item(day, RowSum(r)), b.slot(day));
    if b.slot(day) !in Slots(b, items) {
      NewSlotIsEmpty(b, items, b.slot(day));
    }
  }

  /** The body of the loop of groupByMonth, groupByQuarter and groupByYear for a dated row: the
      report of the row's key is created if it is new, then updated. */
  method AddToPeriod(b: Bucketing, l: Labels, ghost items: seq<Item>, order: seq<string>,
                     periodMap: map<string, PeriodReport>,
                     day: nat, r: AggregatedRow)
    returns (order': seq<string>, periodMap': map<string, PeriodReport>)
    requires Exact(b) && KeysInjective(l) && MapsSlots(b, l, items, order, periodMap) && l.named(b.slot(day))
    ensures MapsSlots(b, l, items + [Item(day, RowSum(r))], order', periodMap')
  {
    var slot := b.slot(day);
    var key := l.key(slot);
    order', periodMap' := order, periodMap;
    var p: PeriodReport;
    if key in periodMap {
      p := periodMap[key];
    } else {
      p := Report(l.start(slot), l.end(slot), ZERO);
      order' := order + [key];
    }
    assert p == SlotReport(b, l, slot, items) by {
      KeyInMap(b, l, items, order, periodMap, slot);
      AddRowReports(b, l, items, day, r);
    }
    p := AddRow(p, r);
    assert p == SlotReport(b, l, slot, items + [Item(day, RowSum(r))]) by {
      AddRowReports(b, l, items, day, r);
    }
    periodMap' := periodMap[key := p];
    MapStep(b, l, items, Item(day, RowSum(r)), order, periodMap);
  }

  method CollectInOrder(order: seq<string>, periodMap: map<string, PeriodReport>) returns (periods: seq<PeriodReport>)
    requires forall key <- order :: key in periodMap
    ensures |periods| == |order| && forall i :: 0 <= i < |order| ==> periods[i] == periodMap[order[i]]
  {
    periods := [];
    for i := 0 to |order|
      invariant |periods| == i && forall k :: 0 <= k < i ==> periods[k] == periodMap[order[k]]
    {
      periods := periods + [periodMap[order[i]]];
    }
  }

  method GroupBy(b: Bucketing, l: Labels, rows: seq<AggregatedRow>) returns (periods: seq<PeriodReport>)
    requires Exact(b) && KeysInjective(l) && NamesAllDates(b, l)
    ensures periods == GroupedBy(b, l, rows)
  {
    var periodMap: map<string, PeriodReport> := map[];
    var order: seq<string> := [];
    for i := 0 to |rows|
      invariant MapsSlots(b, l, Items(rows[..i]), order, periodMap)
    {
      assert rows[..i + 1] == rows[..i] + [rows[i]];
      ItemsSnoc(rows[..i], rows[i]);
      var parsed := ParseDay(rows[i].reportDate);
      if parsed.Some? {
        order, periodMap := AddToPeriod(b, l, Items(rows[..i]), order, periodMap, parsed.value, rows[i]);
      }
    }
    assert rows[..|rows|] == rows;
    periods := CollectInOrder(order, periodMap);
  }

  method GroupByUnit(unit: Unit, rows: seq<AggregatedRow>) returns (periods: seq<PeriodReport>)
    ensures periods == Grouped(unit, rows)
  {
    UnitIsExact(unit);
    UnitIsNamed(unit);
    periods := GroupBy(By(unit), LabelsOf(unit), rows);
  }

  // ---------------------------------------------------------------------------
  // Weeks.
  // ---------------------------------------------------------------------------

  /** Seven-day spans from `start`, the last one cut at `end`. */
  function WeekSpans(start: int, end: int): seq<Span>
    decreases end - start
  {
    if start > end then []
    else
      var last := if start + 6 > end then end else start + 6;
      [Span(start, last)] + WeekSpans(last + 1, end)
  }

  function SpanReport(span: Span, items: seq<Item>): PeriodReport
    requires 0 <= span.first <= span.last
  {
    Report(FormatDay(span.first), FormatDay(span.last), SumIn(items, span))
  }

  predicate Proper(spans: seq<Span>) {
    forall i :: 0 <= i < |spans| ==> 0 <= spans[i].first <= spans[i].last
  }

  function SpanReports(spans: seq<Span>, items: seq<Item>): seq<PeriodReport>
    requires Proper(spans)
  {
    seq(|spans|, i requires 0 <= i < |spans| => SpanReport(spans[i], items))
  }

  /** The weekly buckets are consecutive and disjoint, cover exactly [start, end], all but the
      last hold seven days, and there are ceil(n / 7) of them. */
  lemma {:induction false} WeeksPartitionRange(start: int, end: int)
    requires start <= end + 1
    ensures var weeks := WeekSpans(start, end);
            && |weeks| == (end - start + 1 + 6) / 7
            && (forall i ::
                0 <= i < |weeks| ==> weeks[i].first == start + 7 * i && weeks[i].first <= weeks[i].last <= end)
            && (forall i :: 0 <= i < |weeks| - 1 ==> weeks[i].last == weeks[i].first + 6)
            && (|weeks| > 0 ==> weeks[|weeks| - 1].last == end)
            && Disjoint(weeks)
            && (forall day: int :: Covered(day, weeks) <==> start <= day <= end)
    decreases end - start
  {
    var weeks := WeekSpans(start, end);
    if start <= end {
      var last := if start + 6 > end then end else start + 6;
      var rest := WeekSpans(last + 1, end);
      WeeksPartitionRange(last + 1, end);
      assert forall i :: 1 <= i < |weeks| ==> weeks[i] == rest[i - 1];
      forall day: int ensures Covered(day, weeks) <==> start <= day <= end {
        if start <= day <= last {
          assert Within(day, weeks[0]);
        } else if last < day <= end {
          assert Covered(day, rest);
          var i :| 0 <= i < |rest| && Within(day, rest[i]);
          assert Within(day, weeks[i + 1]);
        }
      }
    }
  }

  /** groupByWeek; no result if one of the two bounds does not parse. */
  function Weekly(rows: seq<AggregatedRow>, startDate: string, endDate: string): seq<PeriodReport> {
    var start, end := ParseDay(startDate), ParseDay(endDate);
    if start.None? || end.None? then []
    else
      WeeksAreProper(start.value, end.value);
      SpanReports(WeekSpans(start.value, end.value), Items(rows))
  }

  lemma WeeksAreProper(start: nat, end: int)
    ensures Proper(WeekSpans(start, end)) && Disjoint(WeekSpans(start, end))
  {
    if start <= end {
      WeeksPartitionRange(start, end);
    }
  }

  /** The totals that the weeks report are those of all rows dated in the range, and no others. */
  lemma WeeksConserve(rows: seq<AggregatedRow>, startDate: string, endDate: string)
    ensures var (start, end) := (ParseDay(startDate), ParseDay(endDate));
            ReportSums(Weekly(rows, startDate, endDate)) ==
            if start.Some? && end.Some? then SumIn(Items(rows), Span(start.value, end.value)) else ZERO
  {
    if ParseDay(startDate).Some? && ParseDay(endDate).Some? {
      var start, end := ParseDay(startDate).value, ParseDay(endDate).value;
      WeekSums(rows, startDate, endDate);
      ReportsAddUp(Weekly(rows, startDate, endDate), Items(rows), WeekSpans(start, end));
      WeekSpansConserve(Items(rows), start, end);
    }
  }

  /** Each week reports the rows dated in it. */
  lemma WeekSums(rows: seq<AggregatedRow>, startDate: string, endDate: string)
    requires ParseDay(startDate).Some? && ParseDay(endDate).Some?
    ensures ReportsSpans(Weekly(rows, startDate, endDate), Items(rows),
                         WeekSpans(ParseDay(startDate).value, ParseDay(endDate).value))
  {
    var spans := WeekSpans(ParseDay(startDate).value, ParseDay(endDate).value);
    WeeksAreProper(ParseDay(startDate).value, ParseDay(endDate).value);
    RowsCountOnly(rows);
    forall i | 0 <= i < |spans| ensures PeriodSum(SpanReport(spans[i], Items(rows))) == SumIn(Items(rows), spans[i]) {
      SumsCountOnly(Items(rows), spans[i]);
    }
  }

  /** Every week shows the rows dated in it and is printed with its first and last day. */
  lemma WeeksShowRows(rows: seq<AggregatedRow>, startDate: string, endDate: string, i: nat)
    requires ParseDay(startDate).Some? && ParseDay(endDate).Some?
    requires i < |WeekSpans(ParseDay(startDate).value, ParseDay(endDate).value)|
    ensures var (periods, weeks) := (Weekly(rows, startDate, endDate),
                                     WeekSpans(ParseDay(startDate).value, ParseDay(endDate).value));
            && |periods| == |weeks| && 0 <= weeks[i].first <= weeks[i].last
            && ShowsRows(periods[i], rows, weeks[i])
            && periods[i].periodStart == FormatDay(weeks[i].first) && periods[i].periodEnd == FormatDay(weeks[i].last)
  {
    WeeksAreProper(ParseDay(startDate).value, ParseDay(endDate).value);
    RowColumnsAre(rows, WeekSpans(ParseDay(startDate).value, ParseDay(endDate).value)[i]);
  }

  lemma WeekSpansConserve(items: seq<Item>, start: nat, end: int)
    ensures SumSpans(items, WeekSpans(start, end)) == SumIn(items, Span(start, end))
  {
    if start <= end {
      WeeksPartitionRange(start, end);
      PartitionOfRange(items, WeekSpans(start, end), Span(start, end));
    } else {
      SumInNone(items, Span(start, end));
    }
  }

  /** The bucket a day falls into, found by the inner loop. */
  lemma OneWeekOnly(weeks: seq<Span>, items: seq<Item>, x: Item, k: nat)
    requires Disjoint(weeks) && k <= |weeks|
    requires forall i :: 0 <= i < k ==> !Within(x.day, weeks[i])
    requires k < |weeks| ==> Within(x.day, weeks[k])
    ensures forall i :: 0 <= i < |weeks| ==>
              SumIn(items + [x], weeks[i]) == if i == k then Plus(SumIn(items, weeks[i]), x.sum)
                  else SumIn(items, weeks[i])
  {
    forall i | 0 <= i < |weeks| ensures
              SumIn(items + [x], weeks[i]) == if i == k then Plus(SumIn(items, weeks[i]), x.sum)
                  else SumIn(items, weeks[i]) {
      SumInSnoc(items, x, weeks[i]);
      if k < i {
        assert !Within(x.day, weeks[i]);
      }
    }
  }

  /** The boundary loop of groupByWeek. */
  method BuildWeeks(start: nat, end: nat) returns (spans: seq<Span>)
    ensures spans == WeekSpans(start, end)
  {
    spans := [];
    var ws: int := start;
    while ws <= end
      invariant start <= ws
      invariant spans + WeekSpans(ws, end) == WeekSpans(start, end)
      decreases end - ws
    {
      var we: int := Advance(ws, 6);
      if we > end {
        we := end;
      }
      WeekSpansHead(ws, end);
      assert spans + ([Span(ws, we)] + WeekSpans(we + 1, end)) == spans + [Span(ws, we)] + WeekSpans(we + 1, end);
      spans := spans + [Span(ws, we)];
      ws := Advance(we, 1);
    }
  }

  lemma WeekSpansHead(ws: int, end: int)
    requires ws <= end
    ensures var we := if ws + 6 > end then end else ws + 6;
            WeekSpans(ws, end) == [Span(ws, we)] + WeekSpans(we + 1, end)
  {
  }

  function AddSum(p: PeriodReport, sum: Sum): PeriodReport {
    p.(totalEntries := p.totalEntries + sum.entries, totalExits := p.totalExits + sum.exits,
       uniqueEmployees := p.uniqueEmployees + sum.unique)
  }

  /** The buckets with the sums of some rows added. */
  ghost predicate Filled(spans: seq<Span>, buckets: seq<PeriodReport>, items: seq<Item>, periods: seq<PeriodReport>)
    requires |buckets| == |spans|
  {
    && |periods| == |buckets|
    && forall i :: 0 <= i < |buckets| ==> periods[i] == AddSum(buckets[i], SumIn(items, spans[i]))
  }

  /** The inner loop: the first bucket that holds the day, or the number of buckets. */
  method FindWeek(spans: seq<Span>, day: nat) returns (k: nat)
    ensures k <= |spans| && (k < |spans| ==> Within(day, spans[k]))
    ensures forall j :: 0 <= j < k ==> !Within(day, spans[j])
  {
    k := 0;
    while k < |spans| && !(spans[k].first <= day <= spans[k].last)
      invariant k <= |spans| && forall j :: 0 <= j < k ==> !Within(day, spans[j])
    {
      k := k + 1;
    }
  }

  lemma FilledStep(spans: seq<Span>, buckets: seq<PeriodReport>, items: seq<Item>, periods: seq<PeriodReport>,
                   day: nat, r: AggregatedRow, k: nat)
    requires Disjoint(spans) && |buckets| == |spans| && Filled(spans, buckets, items, periods) && k <= |spans|
    requires (k < |spans| ==> Within(day, spans[k])) && forall j :: 0 <= j < k ==> !Within(day, spans[j])
    ensures Filled(spans, buckets, items + [Item(day, RowSum(r))],
                   if k < |spans| then periods[k := AddRow(periods[k], r)] else periods)
  {
    OneWeekOnly(spans, items, Item(day, RowSum(r)), k);
  }

  /** The row loop of groupByWeek: each dated row goes into the first bucket that holds it. */
  method FillWeeks(spans: seq<Span>, buckets: seq<PeriodReport>, rows: seq<AggregatedRow>)
    returns (periods: seq<PeriodReport>)
    requires Disjoint(spans) && |buckets| == |spans|
    ensures Filled(spans, buckets, Items(rows), periods)
  {
    periods := buckets;
    for n := 0 to |rows|
      invariant Filled(spans, buckets, Items(rows[..n]), periods)
    {
      assert rows[..n + 1] == rows[..n] + [rows[n]];
      ItemsSnoc(rows[..n], rows[n]);
      var day := ParseDay(rows[n].reportDate);
      if day.Some? {
        var k := FindWeek(spans, day.value);
        FilledStep(spans, buckets, Items(rows[..n]), periods, day.value, rows[n], k);
        if k < |spans| {
          periods := periods[k := AddRow(periods[k], rows[n])];
        }
      }
    }
    assert rows[..|rows|] == rows;
  }

  lemma SpanReportAdds(span: Span, items: seq<Item>)
    requires 0 <= span.first <= span.last
    ensures AddSum(SpanReport(span, []), SumIn(items, span)) == SpanReport(span, items)
  {
  }

  method GroupByWeek(rows: seq<AggregatedRow>, startDate: string, endDate: string) returns (periods: seq<PeriodReport>)
    ensures periods == Weekly(rows, startDate, endDate)
  {
    var start, end := ParseDay(startDate), ParseDay(endDate);
    if start.None? || end.None? {
      return [];
    }
    WeeksAreProper(start.value, end.value);
    var spans := BuildWeeks(start.value, end.value);
    var buckets := SpanReports(spans, []);
    periods := FillWeeks(spans, buckets, rows);
    forall i | 0 <= i < |spans| ensures periods[i] == SpanReport(spans[i], Items(rows)) {
      SpanReportAdds(spans[i], Items(rows));
    }
  }

  // ---------------------------------------------------------------------------
  // Days.
  // ---------------------------------------------------------------------------

  /** Rows merged by the text of their date, parseable or not. */
  function Dates(rows: seq<AggregatedRow>): seq<string>
    decreases |rows|
  {
    if rows == [] then []
    else
      var init, date := Dates(rows[..|rows| - 1]), rows[|rows| - 1].reportDate;
      if date in init then init else init + [date]
  }

  /** The day's totals; the last positive average wins. */
  function DateReport(date: string, rows: seq<AggregatedRow>): PeriodReport
    decreases |rows|
  {
    if rows == [] then Report(date, date, ZERO)
    else
      var p, r := DateReport(date, rows[..|rows| - 1]), rows[|rows| - 1];
      if r.reportDate != date then p
      else AddRow(p, r).(avgHours := if r.avgHours > 0.0 then r.avgHours else p.avgHours)
  }

  function Daily(rows: seq<AggregatedRow>): seq<PeriodReport> {
    DateReports(Dates(rows), rows)
  }

  function DateReports(dates: seq<string>, rows: seq<AggregatedRow>): seq<PeriodReport> {
    seq(|dates|, i requires 0 <= i < |dates| => DateReport(dates[i], rows))
  }

  predicate DistinctDates(dates: seq<string>) {
    forall i, j :: 0 <= i < j < |dates| ==> dates[i] != dates[j]
  }

  lemma {:induction false} DatesAreDistinct(rows: seq<AggregatedRow>)
    ensures DistinctDates(Dates(rows))
    ensures forall r <- rows :: r.reportDate in Dates(rows)
    decreases |rows|
  {
    if rows != [] {
      DatesAreDistinct(rows[..|rows| - 1]);
      assert rows == rows[..|rows| - 1] + [rows[|rows| - 1]];
    }
  }

  predicate SetsHours(r: AggregatedRow, date: string) {
    r.reportDate == date && r.avgHours > 0.0
  }

  /** The entries of the rows with a date text, added up. */
  function EntriesOn(rows: seq<AggregatedRow>, date: string): int
    decreases |rows|
  {
    if rows == [] then 0
    else EntriesOn(rows[..|rows| - 1], date) + if rows[|rows| - 1].reportDate == date
        then rows[|rows| - 1].totalEntries else 0
  }

  function ExitsOn(rows: seq<AggregatedRow>, date: string): int
    decreases |rows|
  {
    if rows == [] then 0
    else ExitsOn(rows[..|rows| - 1], date) + if rows[|rows| - 1].reportDate == date then rows[|rows| - 1].totalExits
        else 0
  }

  function EmployeesOn(rows: seq<AggregatedRow>, date: string): int
    decreases |rows|
  {
    if rows == [] then 0
    else EmployeesOn(rows[..|rows| - 1], date) + if rows[|rows| - 1].reportDate == date
        then rows[|rows| - 1].uniqueEmployees else 0
  }

  /** Row i is the last of its date that has hours. */
  predicate LastWithHours(rows: seq<AggregatedRow>, date: string, i: int) {
    0 <= i < |rows| && SetsHours(rows[i], date) && forall j :: i < j < |rows| ==> !SetsHours(rows[j], date)
  }

  /** A day's period shows the rows of its date text, and the hours of the last of them that has
      any. */
  lemma {:induction false} DateReportShows(date: string, rows: seq<AggregatedRow>)
    ensures var p := DateReport(date, rows);
            && p.periodStart == p.periodEnd == date && p.totalEntries == EntriesOn(rows, date)
            && p.totalExits == ExitsOn(rows, date) && p.uniqueEmployees == EmployeesOn(rows, date)
    ensures forall i :: LastWithHours(rows, date, i) ==> DateReport(date, rows).avgHours == rows[i].avgHours
    ensures (forall r <- rows :: !SetsHours(r, date)) ==> DateReport(date, rows).avgHours == 0.0
    decreases |rows|
  {
    if rows != [] {
      var init := rows[..|rows| - 1];
      DateReportShows(date, init);
      forall i | LastWithHours(rows, date, i) ensures DateReport(date, rows).avgHours == rows[i].avgHours {
        if i < |init| {
          assert !SetsHours(rows[|init|], date) && LastWithHours(init, date, i);
        }
      }
      if forall r <- rows :: !SetsHours(r, date) {
        assert rows[|init|] in rows && forall r <- init :: r in rows;
      }
    }
  }

  function PeriodSum(p: PeriodReport): Sum {
    Sum(p.totalEntries, p.totalExits, p.uniqueEmployees, 0, 0, 0.0, 0)
  }

  function DateSums(dates: seq<string>, rows: seq<AggregatedRow>): Sum
    decreases |dates|
  {
    if dates == [] then ZERO
    else Plus(DateSums(dates[..|dates| - 1], rows), PeriodSum(DateReport(dates[|dates| - 1], rows)))
  }

  function RowSums(rows: seq<AggregatedRow>): Sum
    decreases |rows|
  {
    if rows == [] then ZERO else Plus(RowSums(rows[..|rows| - 1]), RowSum(rows[|rows| - 1]))
  }

  lemma {:induction false} DateSumsSnoc(dates: seq<string>, rows: seq<AggregatedRow>, r: AggregatedRow)
    requires DistinctDates(dates)
    ensures DateSums(dates, rows + [r])
            == if r.reportDate in dates then Plus(DateSums(dates, rows), RowSum(r)) else DateSums(dates, rows)
    decreases |dates|
  {
    assert (rows + [r])[..|rows|] == rows;
    if dates != [] {
      DateSumsSnoc(dates[..|dates| - 1], rows, r);
      assert dates == dates[..|dates| - 1] + [dates[|dates| - 1]];
    }
  }

  lemma {:induction false} DateAbsent(date: string, rows: seq<AggregatedRow>)
    requires forall r <- rows :: r.reportDate != date
    ensures DateReport(date, rows) == Report(date, date, ZERO)
    decreases |rows|
  {
    if rows != [] {
      assert rows[|rows| - 1] in rows;
      DateAbsent(date, rows[..|rows| - 1]);
    }
  }

  lemma {:induction false} ReportedDateSums(dates: seq<string>, rows: seq<AggregatedRow>)
    ensures ReportSums(DateReports(dates, rows)) == DateSums(dates, rows)
    decreases |dates|
  {
    if dates != [] {
      ReportedDateSums(dates[..|dates| - 1], rows);
      LastDateReport(dates, rows);
    }
  }

  lemma LastDateReport(dates: seq<string>, rows: seq<AggregatedRow>)
    requires dates != []
    ensures var (init, last) := (dates[..|dates| - 1], DateReport(dates[|dates| - 1], rows));
            ReportSums(DateReports(dates, rows)) == Plus(ReportSums(DateReports(init, rows)), PeriodSum(last))
  {
    var reports := DateReports(dates, rows);
    assert reports[..|reports| - 1] == DateReports(dates[..|dates| - 1], rows);
  }

  /** The daily report adds up to all rows, unparseable dates included. */
  lemma DaysConserve(rows: seq<AggregatedRow>)
    ensures ReportSums(Daily(rows)) == RowSums(rows)
  {
    DateSumsConserve(rows);
    ReportedDateSums(Dates(rows), rows);
  }

  lemma {:induction false} DateSumsConserve(rows: seq<AggregatedRow>)
    ensures DateSums(Dates(rows), rows) == RowSums(rows)
    decreases |rows|
  {
    if rows != [] {
      var init, r := rows[..|rows| - 1], rows[|rows| - 1];
      assert rows == init + [r];
      DateSumsConserve(init);
      DatesAreDistinct(init);
      DatesAreDistinct(rows);
      DateSumsSnoc(Dates(rows), init, r);
      if r.reportDate !in Dates(init) {
        assert Dates(rows)[..|Dates(init)|] == Dates(init);
        DateAbsent(r.reportDate, init);
      }
    }
  }

  method GroupByDay(rows: seq<AggregatedRow>) returns (periods: seq<PeriodReport>)
    ensures periods == Daily(rows)
  {
    var dayMap: map<string, PeriodReport> := map[];
    var order: seq<string> := [];
    for i := 0 to |rows|
      invariant order == Dates(rows[..i])
      invariant forall date :: date in dayMap <==> date in order
      invariant forall date :: date in dayMap ==> dayMap[date] == DateReport(date, rows[..i])
    {
      var r := rows[i];
      assert rows[..i + 1][..i] == rows[..i];
      if r.reportDate !in dayMap {
        DatesAreDistinct(rows[..i]);
        DateAbsent(r.reportDate, rows[..i]);
        dayMap := dayMap[r.reportDate := Report(r.reportDate, r.reportDate, ZERO)];
        order := order + [r.reportDate];
      }
      var p := AddRow(dayMap[r.reportDate], r);
      if r.avgHours > 0.0 {
        p := p.(avgHours := r.avgHours);
      }
      dayMap := dayMap[r.reportDate := p];
    }
    assert rows[..|rows|] == rows;
    periods := CollectInOrder(order, dayMap);
  }

  // ---------------------------------------------------------------------------
  // Dispatch.
  // ---------------------------------------------------------------------------

  function Built(rows: seq<AggregatedRow>, granularity: string, startDate: string, endDate: string): seq<PeriodReport> {
    if rows == [] then []
    else if granularity == "weekly" then Weekly(rows, startDate, endDate)
    else if granularity == "monthly" then Grouped(Month, rows)
    else if granularity == "quarterly" then Grouped(Quarter, rows)
    else if granularity == "yearly" then Grouped(Year, rows)
    else Daily(rows)
  }

  method BuildPeriods(rows: seq<AggregatedRow>, granularity: string, startDate: string, endDate: string)
    returns (periods: seq<PeriodReport>)
    ensures periods == Built(rows, granularity, startDate, endDate)
  {
    if |rows| == 0 {
      return [];
    }
    match granularity {
      case "weekly" => periods := GroupByWeek(rows, startDate, endDate);
      case "monthly" => periods := GroupByUnit(Month, rows);
      case "quarterly" => periods := GroupByUnit(Quarter, rows);
      case "yearly" => periods := GroupByUnit(Year, rows);
      case _ => periods := GroupByDay(rows);
    }
  }
}
