/** Dates as the report engine uses them: full-date of RFC 3339 (section 5.6), month lengths of
    section 5.7, the leap rule of its Appendix C, and the parts of Go's time package the code
    calls: Parse and Format with "2006-01-02", Date with normalisation, AddDate. A date is also
    a day number, counted from 0000-01-01. */
module Calendar {
  import opened Options

  datatype Date = Date(year: nat, month: nat, day: nat)

  predicate IsLeap(year: nat) {
    year % 4 == 0 && (year % 100 != 0 || year % 400 == 0)
  }

  function DaysIn(year: nat, month: nat): nat {
    if month == 2 then (if IsLeap(year) then 29 else 28)
    else if month == 4 || month == 6 || month == 9 || month == 11 then 30
    else 31
  }

  predicate Valid(d: Date) {
    1 <= d.month <= 12 && 1 <= d.day <= DaysIn(d.year, d.month)
  }

  /** The calendar's own definition: the day after. */
  function NextDay(d: Date): Date {
    if d.day < DaysIn(d.year, d.month) then d.(day := d.day + 1)
    else if d.month < 12 then Date(d.year, d.month + 1, 1)
    else Date(d.year + 1, 1, 1)
  }

  /** The date of a day number: that many days after 0000-01-01. */
  function Civil(n: nat): Date {
    if n == 0 then Date(0, 1, 1) else NextDay(Civil(n - 1))
  }

  function DaysBeforeYear(year: nat): nat {
    if year == 0 then 0 else DaysBeforeYear(year - 1) + (if IsLeap(year - 1) then 366 else 365)
  }

  function DaysBeforeMonth(year: nat, month: nat): nat {
    if month <= 1 then 0 else DaysBeforeMonth(year, month - 1) + DaysIn(year, month - 1)
  }

  function DayNumber(d: Date): nat
    requires d.day >= 1
  {
    DaysBeforeYear(d.year) + DaysBeforeMonth(d.year, d.month) + d.day - 1
  }

  lemma Fourths(year: nat)
    ensures (year + 4) / 4 == (year + 3) / 4 + if year % 4 == 0 then 1 else 0
  {
    var q, r := year / 4, year % 4;
    assert year == 4 * q + r && (year + 4) / 4 == q + 1;
    assert (year + 3) / 4 == q + if r == 0 then 0 else 1;
  }

  lemma Hundredths(year: nat)
    ensures (year + 100) / 100 == (year + 99) / 100 + if year % 100 == 0 then 1 else 0
  {
    var q, r := year / 100, year % 100;
    assert year == 100 * q + r && (year + 100) / 100 == q + 1;
    assert (year + 99) / 100 == q + if r == 0 then 0 else 1;
  }

  lemma FourHundredths(year: nat)
    ensures (year + 400) / 400 == (year + 399) / 400 + if year % 400 == 0 then 1 else 0
  {
    var q, r := year / 400, year % 400;
    assert year == 400 * q + r && (year + 400) / 400 == q + 1;
    assert (year + 399) / 400 == q + if r == 0 then 0 else 1;
  }

  lemma HundredthsAreFourths(year: nat)
    ensures year % 400 == 0 ==> year % 100 == 0
    ensures year % 100 == 0 ==> year % 4 == 0
  {
    var q, p := year / 400, year / 100;
    assert year % 400 == 0 ==> year == 100 * (4 * q);
    assert year % 100 == 0 ==> year == 4 * (25 * p);
  }

  /** The days before a year in closed form: every fourth year has one more, but for every
      hundredth that is not a four hundredth. */
  lemma {:induction false} DaysBeforeYearIs(year: nat)
    ensures DaysBeforeYear(year) == 365 * year + (year + 3) / 4 - (year + 99) / 100 + (year + 399) / 400
  {
    if year > 0 {
      DaysBeforeYearIs(year - 1);
      Fourths(year - 1);
      Hundredths(year - 1);
      FourHundredths(year - 1);
      HundredthsAreFourths(year - 1);
    }
  }

  lemma YearLength(year: nat)
    ensures DaysBeforeMonth(year, 12) + 31 == (if IsLeap(year) then 366 else 365)
  {
    MonthAfter(year, 1, 31, DaysIn(year, 2), 31);
    MonthAfter(year, 4, 30, 31, 30);
    MonthAfter(year, 7, 31, 31, 30);
    assert DaysBeforeMonth(year, 11) == DaysBeforeMonth(year, 10) + 31;
    assert DaysBeforeMonth(year, 12) == DaysBeforeMonth(year, 11) + 30;
  }

  lemma MonthAfter(year: nat, month: nat, a: nat, b: nat, c: nat)
    requires month >= 1 && DaysIn(year, month) == a && DaysIn(year, month + 1) == b && DaysIn(year, month + 2) == c
    ensures DaysBeforeMonth(year, month + 3) == DaysBeforeMonth(year, month) + a + b + c
  {
    assert DaysBeforeMonth(year, month + 1) == DaysBeforeMonth(year, month) + a;
    assert DaysBeforeMonth(year, month + 2) == DaysBeforeMonth(year, month + 1) + b;
  }

  lemma NextDayCounts(d: Date)
    requires Valid(d)
    ensures Valid(NextDay(d)) && DayNumber(NextDay(d)) == DayNumber(d) + 1
  {
    if d.month == 12 {
      YearLength(d.year);
    }
  }

  lemma {:induction false} CivilCounts(n: nat)
    ensures Valid(Civil(n)) && DayNumber(Civil(n)) == n
  {
    if n > 0 {
      CivilCounts(n - 1);
      NextDayCounts(Civil(n - 1));
    }
  }

  predicate Earlier(a: Date, b: Date) {
    a.year < b.year || (a.year == b.year && (a.month < b.month || (a.month == b.month && a.day < b.day)))
  }

  lemma {:induction false} YearsGrow(a: nat, b: nat)
    requires a < b
    ensures DaysBeforeYear(a) + (if IsLeap(a) then 366 else 365) <= DaysBeforeYear(b)
    decreases b
  {
    if a + 1 < b {
      YearsGrow(a, b - 1);
    }
  }

  lemma {:induction false} MonthsGrow(year: nat, a: nat, b: nat)
    requires 1 <= a < b
    ensures DaysBeforeMonth(year, a) + DaysIn(year, a) <= DaysBeforeMonth(year, b)
    decreases b
  {
    if a + 1 < b {
      MonthsGrow(year, a, b - 1);
    }
  }

  lemma InYear(d: Date)
    requires Valid(d)
    ensures DaysBeforeMonth(d.year, d.month) + d.day <= (if IsLeap(d.year) then 366 else 365)
  {
    YearLength(d.year);
    if d.month < 12 {
      MonthsGrow(d.year, d.month, 12);
    }
  }

  lemma EarlierIsSmaller(a: Date, b: Date)
    requires Valid(a) && Valid(b) && Earlier(a, b)
    ensures DayNumber(a) < DayNumber(b)
  {
    if a.year < b.year {
      YearsGrow(a.year, b.year);
      InYear(a);
    } else if a.month < b.month {
      MonthsGrow(a.year, a.month, b.month);
    }
  }

  /** Day numbers and valid dates are two names for the same things. */
  lemma CalendarIsExact(d: Date)
    requires Valid(d)
    ensures Civil(DayNumber(d)) == d
  {
    var c := Civil(DayNumber(d));
    CivilCounts(DayNumber(d));
    if Earlier(c, d) {
      EarlierIsSmaller(c, d);
    } else if Earlier(d, c) {
      EarlierIsSmaller(d, c);
    }
  }

  // ---------------------------------------------------------------------------
  // Date with normalisation, and AddDate.
  // ---------------------------------------------------------------------------

  /** time.Date: months roll over into years, then days are added. */
  function Normalised(year: nat, month: nat, day: int): int
    requires month >= 1
  {
    DayNumber(Date(year + (month - 1) / 12, (month - 1) % 12 + 1, 1)) + day - 1
  }

  function AddDate(n: nat, months: nat, days: int): int {
    var d := Civil(n);
    CivilCounts(n);
    Normalised(d.year, d.month + months, d.day + days)
  }

  lemma NormalisedValid(d: Date, days: int)
    requires Valid(d)
    ensures Normalised(d.year, d.month, d.day + days) == DayNumber(d) + days
  {
    assert (d.month - 1) / 12 == 0 && (d.month - 1) % 12 == d.month - 1;
  }

  lemma AddDays(n: nat, days: int)
    ensures AddDate(n, 0, days) == n + days
  {
    CivilCounts(n);
    NormalisedValid(Civil(n), days);
  }

  /** d.AddDate(0, 0, days), as the day loops call it. */
  method Advance(n: nat, days: nat) returns (r: nat)
    ensures r == n + days
  {
    AddDays(n, days);
    r := AddDate(n, 0, days);
  }

  lemma AddDateFrom(n: nat, d: Date, months: nat, days: int)
    requires Civil(n) == d && Valid(d)
    ensures AddDate(n, months, days) == Normalised(d.year, d.month + months, d.day + days)
  {
  }

  // ---------------------------------------------------------------------------
  // Months, quarters and years.
  // ---------------------------------------------------------------------------

  datatype Unit = Month | Quarter | Year

  function SlotOf(unit: Unit, d: Date): nat
    requires d.month >= 1
  {
    match unit
    case Month => 12 * d.year + d.month - 1
    case Quarter => 4 * d.year + (d.month - 1) / 3
    case Year => d.year
  }

  /** The running number of the month, quarter or year a day belongs to. */
  function Slot(unit: Unit, n: nat): nat {
    CivilCounts(n);
    SlotOf(unit, Civil(n))
  }

  function FirstMonth(unit: Unit, slot: nat): Date {
    match unit
    case Month => Date(slot / 12, slot % 12 + 1, 1)
    case Quarter => Date(slot / 4, slot % 4 * 3 + 1, 1)
    case Year => Date(slot, 1, 1)
  }

  function FirstDay(unit: Unit, slot: nat): nat {
    DayNumber(FirstMonth(unit, slot))
  }

  /** The last day as the code computes it: AddDate(0, 1, -1), AddDate(0, 3, -1), 31 December. */
  function LastDay(unit: Unit, slot: nat): int {
    match unit
    case Month => AddDate(FirstDay(unit, slot), 1, -1)
    case Quarter => AddDate(FirstDay(unit, slot), 3, -1)
    case Year => DayNumber(Date(slot, 12, 31))
  }

  lemma FirstDayIsFirst(unit: Unit, slot: nat)
    ensures Civil(FirstDay(unit, slot)) == FirstMonth(unit, slot) && Slot(unit, FirstDay(unit, slot)) == slot
  {
    CalendarIsExact(FirstMonth(unit, slot));
  }

  function MonthsLater(first: Date, months: nat): Date
    requires first.month >= 1
  {
    Date(first.year + (first.month + months - 1) / 12, (first.month + months - 1) % 12 + 1, 1)
  }

  /** The day before the first of a month `months` later. */
  lemma MonthEnds(first: Date, months: nat, next: Date)
    requires Valid(first) && first.day == 1 && next == MonthsLater(first, months)
    ensures AddDate(DayNumber(first), months, -1) + 1 == DayNumber(next)
  {
    CalendarIsExact(first);
    AddDateFrom(DayNumber(first), first, months, -1);
  }

  lemma NextMonth(slot: nat)
    ensures FirstMonth(Month, slot + 1) == MonthsLater(FirstMonth(Month, slot), 1)
  {
    if slot % 12 == 11 {
      assert (slot + 1) / 12 == slot / 12 + 1 && (slot + 1) % 12 == 0;
    } else {
      assert (slot + 1) / 12 == slot / 12 && (slot + 1) % 12 == slot % 12 + 1;
    }
  }

  lemma NextQuarter(slot: nat)
    ensures FirstMonth(Quarter, slot + 1) == MonthsLater(FirstMonth(Quarter, slot), 3)
  {
    if slot % 4 == 3 {
      assert (slot + 1) / 4 == slot / 4 + 1 && (slot + 1) % 4 == 0;
    } else {
      assert (slot + 1) / 4 == slot / 4 && (slot + 1) % 4 == slot % 4 + 1;
    }
  }

  /** One slot ends where the next begins, December included. */
  lemma SlotsAreAdjacent(unit: Unit, slot: nat)
    ensures LastDay(unit, slot) + 1 == FirstDay(unit, slot + 1)
    ensures FirstDay(unit, slot) <= LastDay(unit, slot)
  {
    match unit {
      case Month => MonthsAreAdjacent(slot);
      case Quarter => QuartersAreAdjacent(slot);
      case Year => YearLength(slot);
    }
    FirstDaysAscend(unit, slot);
  }

  lemma FirstDaysAscend(unit: Unit, slot: nat)
    ensures FirstDay(unit, slot) < FirstDay(unit, slot + 1)
  {
    FirstMonthsAscend(unit, slot);
    EarlierIsSmaller(FirstMonth(unit, slot), FirstMonth(unit, slot + 1));
  }

  lemma FirstMonthsAscend(unit: Unit, slot: nat)
    ensures Valid(FirstMonth(unit, slot)) && Valid(FirstMonth(unit, slot + 1))
    ensures Earlier(FirstMonth(unit, slot), FirstMonth(unit, slot + 1))
  {
  }

  lemma MonthsAreAdjacent(slot: nat)
    ensures LastDay(Month, slot) + 1 == FirstDay(Month, slot + 1)
  {
    NextMonth(slot);
    MonthEnds(FirstMonth(Month, slot), 1, FirstMonth(Month, slot + 1));
  }

  lemma QuartersAreAdjacent(slot: nat)
    ensures LastDay(Quarter, slot) + 1 == FirstDay(Quarter, slot + 1)
  {
    NextQuarter(slot);
    MonthEnds(FirstMonth(Quarter, slot), 3, FirstMonth(Quarter, slot + 1));
  }

  lemma SlotBrackets(unit: Unit, year: nat, month: nat)
    requires 1 <= month <= 12
    ensures var slot := SlotOf(unit, Date(year, month, 1));
            var (first, next) := (FirstMonth(unit, slot), FirstMonth(unit, slot + 1));
            && first.year == year && first.month <= month
            && (next.year > year || (next.year == year && next.month > month))
  {
    match unit
    case Month =>
      assert (12 * year + month - 1) / 12 == year && (12 * year + month - 1) % 12 == month - 1;
      assert (12 * year + month) / 12 == year + month / 12;
    case Quarter =>
      var q := (month - 1) / 3;
      assert (4 * year + q) / 4 == year && (4 * year + q) % 4 == q;
      assert (4 * year + q + 1) / 4 == year + (q + 1) / 4 && (4 * year + q + 1) % 4 == (q + 1) % 4;
    case Year =>
  }

  /** Day numbers are ordered as the dates are. */
  lemma NumbersFollowDates(n: nat, d: Date)
    requires Valid(d)
    ensures n < DayNumber(d) <==> Earlier(Civil(n), d)
  {
    CivilCounts(n);
    if Earlier(Civil(n), d) {
      EarlierIsSmaller(Civil(n), d);
    } else if Earlier(d, Civil(n)) {
      EarlierIsSmaller(d, Civil(n));
    }
  }

  lemma EarlierThanSlot(unit: Unit, d: Date, slot: nat)
    requires Valid(d)
    ensures Valid(FirstMonth(unit, slot))
    ensures Earlier(d, FirstMonth(unit, slot)) <==> SlotOf(unit, d) < slot
  {
    match unit
    case Month => assert slot == 12 * (slot / 12) + slot % 12;
    case Quarter => assert slot == 4 * (slot / 4) + slot % 4;
    case Year =>
  }

  lemma BeforeFirstDay(unit: Unit, slot: nat, n: nat)
    ensures n < FirstDay(unit, slot) <==> Slot(unit, n) < slot
  {
    CivilCounts(n);
    EarlierThanSlot(unit, Civil(n), slot);
    NumbersFollowDates(n, FirstMonth(unit, slot));
  }

  /** Calendar exactness: the days from the first to the last day of a month, quarter or year
      are exactly the days that belong to it. */
  lemma SlotIsExact(unit: Unit, slot: nat, n: nat)
    ensures FirstDay(unit, slot) <= n <= LastDay(unit, slot) <==> Slot(unit, n) == slot
  {
    BeforeFirstDay(unit, slot, n);
    BeforeFirstDay(unit, slot + 1, n);
    SlotsAreAdjacent(unit, slot);
  }

  // ---------------------------------------------------------------------------
  // Text.
  // ---------------------------------------------------------------------------

  function Digit(n: nat): char
    requires n < 10
  {
    (48 + n) as char
  }

  function Decimal(n: nat): string {
    if n < 10 then [Digit(n)] else Decimal(n / 10) + [Digit(n % 10)]
  }

  function Pad2(n: nat): string
    requires n < 100
  {
    [Digit(n / 10), Digit(n % 10)]
  }

  /** Years print with at least four digits. */
  function YearText(year: nat): string {
    if year < 10000 then Pad2(year / 100) + Pad2(year % 100) else Decimal(year)
  }

  /** Format("2006-01-02"). */
  function FormatDay(n: nat): string {
    var d := Civil(n);
    CivilCounts(n);
    YearText(d.year) + "-" + Pad2(d.month) + "-" + Pad2(d.day)
  }

  predicate IsDigit(c: char) {
    '0' <= c <= '9'
  }

  function Value(c: char): nat
    requires IsDigit(c)
  {
    c as int - 48
  }

  /** Parse("2006-01-02"): four, two and two digits, and the day must exist. */
  function ParseDay(s: string): Option<nat> {
    if |s| != 10 || s[4] != '-' || s[7] != '-' then None
    else if !(IsDigit(s[0]) && IsDigit(s[1]) && IsDigit(s[2]) && IsDigit(s[3])
              && IsDigit(s[5]) && IsDigit(s[6]) && IsDigit(s[8]) && IsDigit(s[9])) then None
    else
      var d := Date(1000 * Value(s[0]) + 100 * Value(s[1]) + 10 * Value(s[2]) + Value(s[3]),
                    10 * Value(s[5]) + Value(s[6]), 10 * Value(s[8]) + Value(s[9]));
      if Valid(d) then Some(DayNumber(d)) else None
  }

  /** Days of the years 0000 to 9999, the ones a full-date can name. */
  predicate Nameable(n: nat) {
    Civil(n).year < 10000
  }

  lemma PadValue(n: nat)
    requires n < 100
    ensures var p := Pad2(n); IsDigit(p[0]) && IsDigit(p[1]) && 10 * Value(p[0]) + Value(p[1]) == n
  {
  }

  lemma EarlierIsNameable(a: nat, b: nat)
    requires a <= b && Nameable(b)
    ensures Nameable(a)
  {
    CivilCounts(a);
    CivilCounts(b);
    if Civil(a).year > Civil(b).year {
      EarlierIsSmaller(Civil(b), Civil(a));
    }
  }

  lemma ParsePieces(d: Date, high: string, low: string, month: string, day: string)
    requires Valid(d) && d.year < 10000
    requires high == Pad2(d.year / 100) && low == Pad2(d.year % 100) && month == Pad2(d.month) && day == Pad2(d.day)
    ensures ParseDay([high[0], high[1], low[0], low[1]] + "-" + [month[0], month[1]] + "-" + [day[0], day[1]])
            == Some(DayNumber(d))
  {
    PadValue(d.year / 100);
    PadValue(d.year % 100);
    PadValue(d.month);
    PadValue(d.day);
  }

  lemma ParseFormat(n: nat)
    requires Nameable(n)
    ensures ParseDay(FormatDay(n)) == Some(n)
  {
    CivilCounts(n);
    var d := Civil(n);
    var high, low, month, day := Pad2(d.year / 100), Pad2(d.year % 100), Pad2(d.month), Pad2(d.day);
    assert FormatDay(n) == [high[0], high[1], low[0], low[1]] + "-" + [month[0], month[1]] + "-" + [day[0], day[1]];
    ParsePieces(d, high, low, month, day);
  }

  lemma PadOfDigits(a: char, b: char)
    requires IsDigit(a) && IsDigit(b)
    ensures Pad2(10 * Value(a) + Value(b)) == [a, b]
  {
    var n := 10 * Value(a) + Value(b);
    assert n / 10 == Value(a) && n % 10 == Value(b);
  }

  lemma YearOfDigits(a: char, b: char, c: char, d: char)
    requires IsDigit(a) && IsDigit(b) && IsDigit(c) && IsDigit(d)
    ensures YearText(1000 * Value(a) + 100 * Value(b) + 10 * Value(c) + Value(d)) == [a, b, c, d]
  {
    var high, low := 10 * Value(a) + Value(b), 10 * Value(c) + Value(d);
    var year := 100 * high + low;
    assert year / 100 == high && year % 100 == low;
    PadOfDigits(a, b);
    PadOfDigits(c, d);
    assert [a, b] + [c, d] == [a, b, c, d];
  }

  lemma FormatOf(d: Date)
    requires Valid(d)
    ensures Civil(DayNumber(d)) == d
            && FormatDay(DayNumber(d)) == YearText(d.year) + "-" + Pad2(d.month) + "-" + Pad2(d.day)
  {
    CalendarIsExact(d);
  }

  lemma TenCharacters(s: string)
    requires |s| == 10 && s[4] == '-' && s[7] == '-'
    ensures s == [s[0], s[1], s[2], s[3]] + "-" + [s[5], s[6]] + "-" + [s[8], s[9]]
  {
  }

  lemma FormatParse(s: string)
    requires ParseDay(s).Some?
    ensures Nameable(ParseDay(s).value) && FormatDay(ParseDay(s).value) == s
  {
    var year := 1000 * Value(s[0]) + 100 * Value(s[1]) + 10 * Value(s[2]) + Value(s[3]);
    var d := Date(year, 10 * Value(s[5]) + Value(s[6]), 10 * Value(s[8]) + Value(s[9]));
    FormatOf(d);
    assert YearText(d.year) + "-" + Pad2(d.month) + "-" + Pad2(d.day) == s by {
      YearOfDigits(s[0], s[1], s[2], s[3]);
      PadOfDigits(s[5], s[6]);
      PadOfDigits(s[8], s[9]);
      TenCharacters(s);
    }
  }

  /** Parse and Format are inverse between the strings Parse accepts and the nameable days. */
  lemma ParseInverse(s: string, n: nat)
    requires Nameable(n)
    ensures ParseDay(s) == Some(n) <==> s == FormatDay(n)
  {
    ParseFormat(n);
    if ParseDay(s).Some? {
      FormatParse(s);
    }
  }

  lemma {:induction false} DecimalInjective(a: nat, b: nat)
    requires Decimal(a) == Decimal(b)
    ensures a == b
  {
    var s := Decimal(a);
    assert |Decimal(a)| == |Decimal(b)|;
    DecimalLength(a);
    DecimalLength(b);
    assert s[|s| - 1] == Digit(a % 10) && s[|s| - 1] == Digit(b % 10);
    if a >= 10 {
      assert Decimal(a / 10) == s[..|s| - 1] && Decimal(b / 10) == s[..|s| - 1];
      DecimalInjective(a / 10, b / 10);
    }
  }

  lemma {:induction false} DecimalLength(n: nat)
    ensures |Decimal(n)| >= 1 && (|Decimal(n)| == 1 <==> n < 10)
  {
    if n >= 10 {
      DecimalLength(n / 10);
    }
  }

  // ---------------------------------------------------------------------------
  // Bucket keys and printed bounds.
  // ---------------------------------------------------------------------------

  /** The map key of a slot: "2006-01", "2006-Q1", "2006". */
  function KeyText(unit: Unit, slot: nat): string {
    match unit
    case Month => YearText(slot / 12) + "-" + Pad2(slot % 12 + 1)
    case Quarter => Decimal(slot / 4) + "-Q" + Decimal(slot % 4 + 1)
    case Year => Decimal(slot)
  }

  lemma YearTextInjective(a: nat, b: nat)
    requires a < 10000 && b < 10000 && YearText(a) == YearText(b)
    ensures a == b
  {
    var s := YearText(a);
    assert Value(s[0]) == a / 100 / 10 && Value(s[1]) == a / 100 % 10 && Value(s[2]) == a % 100 / 10
        && Value(s[3]) == a % 100 % 10;
    assert s == YearText(b);
    assert Value(s[0]) == b / 100 / 10 && Value(s[1]) == b / 100 % 10 && Value(s[2]) == b % 100 / 10
        && Value(s[3]) == b % 100 % 10;
  }

  predicate NameableSlot(unit: Unit, slot: nat) {
    FirstMonth(unit, slot).year < 10000
  }

  lemma KeysAreInjective(unit: Unit, a: nat, b: nat)
    requires NameableSlot(unit, a) && NameableSlot(unit, b) && KeyText(unit, a) == KeyText(unit, b)
    ensures a == b
  {
    var s, t := KeyText(unit, a), KeyText(unit, b);
    match unit
    case Month =>
      assert s[..4] == YearText(a / 12) && t[..4] == YearText(b / 12);
      YearTextInjective(a / 12, b / 12);
      assert Value(s[5]) == (a % 12 + 1) / 10 && Value(s[6]) == (a % 12 + 1) % 10;
      assert Value(t[5]) == (b % 12 + 1) / 10 && Value(t[6]) == (b % 12 + 1) % 10;
    case Quarter =>
      var k := |s| - 3;
      assert s[..k] == Decimal(a / 4) && t[..k] == Decimal(b / 4);
      DecimalInjective(a / 4, b / 4);
      assert s[k + 2] == Digit(a % 4 + 1) && t[k + 2] == Digit(b % 4 + 1);
    case Year => DecimalInjective(a, b);
  }

  /** PeriodStart and PeriodEnd as printed; the yearly ones are built with "%d". */
  function StartText(unit: Unit, slot: nat): string {
    if unit.Year? then Decimal(slot) + "-01-01" else FormatDay(FirstDay(unit, slot))
  }

  function EndText(unit: Unit, slot: nat): string {
    SlotsAreAdjacent(unit, slot);
    if unit.Year? then Decimal(slot) + "-12-31" else FormatDay(LastDay(unit, slot))
  }

  lemma DecimalStep(n: nat)
    requires n >= 10
    ensures Decimal(n) == Decimal(n / 10) + [Digit(n % 10)]
    ensures n < 100 ==> Decimal(n) == Pad2(n)
  {
  }

  lemma FourDigits(year: nat)
    requires 1000 <= year < 10000
    ensures Decimal(year) == YearText(year)
  {
    TwoPairs(year / 100, year % 100);
  }

  lemma TwoPairs(high: nat, low: nat)
    requires 10 <= high < 100 && low < 100
    ensures Decimal(100 * high + low) == Pad2(high) + Pad2(low)
  {
    var tens := 10 * high + low / 10;
    assert (100 * high + low) / 10 == tens && (100 * high + low) % 10 == low % 10;
    assert tens / 10 == high && tens % 10 == low / 10;
    DecimalStep(100 * high + low);
    DecimalStep(tens);
    DecimalStep(high);
    Regroup(Pad2(high), Digit(low / 10), Digit(low % 10));
  }

  lemma Regroup(s: string, a: char, b: char)
    ensures s + [a] + [b] == s + [a, b]
  {
  }

  lemma FewDigits(year: nat)
    requires year < 1000
    ensures |Decimal(year)| < 4
  {
    if year >= 10 {
      DecimalLength(year / 10);
      if year >= 100 {
        DecimalLength(year / 100);
      }
    }
  }

  /** The printed bounds name the slot's first and last day, with one exception: those of a
      year before 1000 do not parse at all. */
  lemma PrintedBounds(unit: Unit, slot: nat)
    requires NameableSlot(unit, slot)
    ensures if unit.Year? && slot < 1000
            then ParseDay(StartText(unit, slot)).None? && ParseDay(EndText(unit, slot)).None?
            else ParseDay(StartText(unit, slot)) == Some(FirstDay(unit, slot))
                 && ParseDay(EndText(unit, slot)) == Some(LastDay(unit, slot))
  {
    FirstDayIsFirst(unit, slot);
    SlotsAreAdjacent(unit, slot);
    if unit.Year? {
      var last := Date(slot, 12, 31);
      CalendarIsExact(last);
      if slot < 1000 {
        FewDigits(slot);
      } else {
        FourDigits(slot);
        assert StartText(unit, slot) == FormatDay(FirstDay(unit, slot));
        assert EndText(unit, slot) == FormatDay(LastDay(unit, slot));
        ParseFormat(FirstDay(unit, slot));
        ParseFormat(LastDay(unit, slot));
      }
    } else {
      SlotIsExact(unit, slot, LastDay(unit, slot));
      LastDayYear(unit, slot);
      ParseFormat(FirstDay(unit, slot));
      ParseFormat(LastDay(unit, slot));
    }
  }

  lemma LastDayYear(unit: Unit, slot: nat)
    ensures LastDay(unit, slot) >= 0 && Civil(LastDay(unit, slot)).year == FirstMonth(unit, slot).year
  {
    SlotsAreAdjacent(unit, slot);
    SlotIsExact(unit, slot, LastDay(unit, slot));
    var d := Civil(LastDay(unit, slot));
    CivilCounts(LastDay(unit, slot));
    SlotBrackets(unit, d.year, d.month);
  }
}
