/** The personal attendance report: one record a day from an employee's swipes
    (report-api/internal/service/report_service.go: groupEventsByDate, calculateHoursWorked and
    the date loop of GetPersonalReport). Worked hours are counted in hundredths. */
module Personal {
  import opened Options
  import opened Calendar

  type Second = s: nat | s < 86400

  /** A swipe by calendar day and second of the day. */
  datatype Punch = Punch(direction: string, day: nat, second: Second)

  predicate Dated(e: Punch) {
    Nameable(e.day)
  }

  datatype DailyRecord = DailyRecord(date: string, firstIn: string, lastOut: string, totalEntries: nat,
                                     totalExits: nat, hoursWorked: nat)

  // ---------------------------------------------------------------------------
  // Times of day as text.
  // ---------------------------------------------------------------------------

  /** Format("15:04:05"). */
  function TimeText(second: Second): string {
    Pad2(second / 3600) + (":" + (Pad2(second / 60 % 60) + (":" + Pad2(second % 60))))
  }

  /** Go's comparison of strings. */
  predicate Less(a: string, b: string) {
    b != "" && (a == "" || a[0] < b[0] || (a[0] == b[0] && Less(a[1..], b[1..])))
  }

  lemma {:induction false} LessConcat(a: string, b: string, x: string, y: string)
    requires |a| == |b|
    ensures Less(a + x, b + y) <==> Less(a, b) || (a == b && Less(x, y))
    decreases |a|
  {
    if a == "" {
      assert a + x == x && b + y == y;
    } else {
      assert (a + x)[1..] == a[1..] + x && (b + y)[1..] == b[1..] + y;
      LessConcat(a[1..], b[1..], x, y);
      assert a == [a[0]] + a[1..] && b == [b[0]] + b[1..];
    }
  }

  lemma Pad2Order(a: nat, b: nat)
    requires a < 100 && b < 100
    ensures (Less(Pad2(a), Pad2(b)) <==> a < b) && (Pad2(a) == Pad2(b) <==> a == b)
  {
    var s, t := Pad2(a), Pad2(b);
    var x, y := s[1..], t[1..];
    assert x == [Digit(a % 10)] && y == [Digit(b % 10)];
    assert x[1..] == "" && y[1..] == "";
    assert Less(x, y) <==> a % 10 < b % 10;
    assert s[0] == Digit(a / 10) && t[0] == Digit(b / 10);
    assert a == 10 * (a / 10) + a % 10 && b == 10 * (b / 10) + b % 10;
    assert s == t ==> s[0] == t[0] && s[1] == t[1];
  }

  lemma ColonLess(x: string, y: string)
    ensures Less(":" + x, ":" + y) <==> Less(x, y)
  {
    LessConcat(":", ":", x, y);
    assert !Less(":", ":") by {
      assert ":"[1..] == "";
    }
  }

  lemma Digits60(a: nat, b: nat)
    ensures var (h, m, s) := (a / 3600, a / 60 % 60, a % 60);
            var (k, n, t) := (b / 3600, b / 60 % 60, b % 60);
            a < b <==> h < k || (h == k && (m < n || (m == n && s < t)))
  {
    assert a == 3600 * (a / 3600) + 60 * (a / 60 % 60) + a % 60;
    assert b == 3600 * (b / 3600) + 60 * (b / 60 % 60) + b % 60;
  }

  lemma TailOrder(a: Second, b: Second)
    ensures Less(Pad2(a / 60 % 60) + (":" + Pad2(a % 60)), Pad2(b / 60 % 60) + (":" + Pad2(b % 60))) <==>
            a / 60 % 60 < b / 60 % 60 || (a / 60 % 60 == b / 60 % 60 && a % 60 < b % 60)
  {
    LessConcat(Pad2(a / 60 % 60), Pad2(b / 60 % 60), ":" + Pad2(a % 60), ":" + Pad2(b % 60));
    ColonLess(Pad2(a % 60), Pad2(b % 60));
    Pad2Order(a / 60 % 60, b / 60 % 60);
    Pad2Order(a % 60, b % 60);
  }

  /** The text order of HH:MM:SS is the order of time. */
  lemma TextOrderIsTime(a: Second, b: Second)
    ensures Less(TimeText(a), TimeText(b)) <==> a < b
  {
    var x := Pad2(a / 60 % 60) + (":" + Pad2(a % 60));
    var y := Pad2(b / 60 % 60) + (":" + Pad2(b % 60));
    LessConcat(Pad2(a / 3600), Pad2(b / 3600), ":" + x, ":" + y);
    ColonLess(x, y);
    TailOrder(a, b);
    Pad2Order(a / 3600, b / 3600);
    Digits60(a, b);
  }

  /** Parse("15:04:05"), for texts of the form Format prints. */
  function ParseTime(s: string): Option<nat> {
    if |s| != 8 || s[2] != ':' || s[5] != ':' then None
    else if !(IsDigit(s[0]) && IsDigit(s[1]) && IsDigit(s[3]) && IsDigit(s[4]) && IsDigit(s[6]) && IsDigit(s[7]))
        then None
    else
      var (h, m, sec) := (10 * Value(s[0]) + Value(s[1]), 10 * Value(s[3]) + Value(s[4]),
                          10 * Value(s[6]) + Value(s[7]));
      if h < 24 && m < 60 && sec < 60 then Some(3600 * h + 60 * m + sec) else None
  }

  lemma TimeRoundTrip(second: Second)
    ensures ParseTime(TimeText(second)) == Some(second) && TimeText(second) != ""
  {
    var s := TimeText(second);
    assert second / 3600 < 24;
    assert Value(s[0]) == second / 3600 / 10 && Value(s[1]) == second / 3600 % 10;
    assert Value(s[3]) == second / 60 % 60 / 10 && Value(s[4]) == second / 60 % 60 % 10;
    assert Value(s[6]) == second % 60 / 10 && Value(s[7]) == second % 60 % 10;
    assert second == 3600 * (second / 3600) + 60 * (second / 60 % 60) + second % 60;
  }

  // ---------------------------------------------------------------------------
  // The meaning of a day's record.
  // ---------------------------------------------------------------------------

  /** Entries, exits, earliest IN and latest OUT of one day. */
  datatype DayFacts = DayFacts(entries: nat, exits: nat, firstIn: Option<Second>, lastOut: Option<Second>)

  const NOTHING: DayFacts := DayFacts(0, 0, None, None)

  function Min(a: Option<Second>, b: Second): Option<Second> {
    if a.None? || b < a.value then Some(b) else a
  }

  function Max(a: Option<Second>, b: Second): Option<Second> {
    if a.None? || b > a.value then Some(b) else a
  }

  function Added(f: DayFacts, e: Punch): DayFacts {
    if e.direction == "IN" then f.(entries := f.entries + 1, firstIn := Min(f.firstIn, e.second))
    else if e.direction == "OUT" then f.(exits := f.exits + 1, lastOut := Max(f.lastOut, e.second))
    else f
  }

  function Facts(events: seq<Punch>, day: nat): DayFacts
    decreases |events|
  {
    if events == [] then NOTHING
    else
      var f, e := Facts(events[..|events| - 1], day), events[|events| - 1];
      if e.day == day then Added(f, e) else f
  }

  predicate Happens(e: Punch, day: nat, direction: string) {
    e.day == day && e.direction == direction
  }

  lemma {:induction false} FirstInIsEarliest(events: seq<Punch>, day: nat)
    ensures var first := Facts(events, day).firstIn;
            && (first.None? <==> forall e <- events :: !Happens(e, day, "IN"))
            && (first.Some? ==> (exists e :: e in events && Happens(e, day, "IN") && e.second == first.value)
                                && forall e <- events :: Happens(e, day, "IN") ==> first.value <= e.second)
    decreases |events|
  {
    if events != [] {
      var init, last := events[..|events| - 1], events[|events| - 1];
      assert events == init + [last] && last in events;
      FirstInIsEarliest(init, day);
      var before, first := Facts(init, day).firstIn, Facts(events, day).firstIn;
      if first.Some? && first == before {
        var e :| e in init && Happens(e, day, "IN") && e.second == before.value;
        assert e in events;
      }
    }
  }

  lemma {:induction false} LastOutIsLatest(events: seq<Punch>, day: nat)
    ensures var last := Facts(events, day).lastOut;
            && (last.None? <==> forall e <- events :: !Happens(e, day, "OUT"))
            && (last.Some? ==> (exists e :: e in events && Happens(e, day, "OUT") && e.second == last.value)
                               && forall e <- events :: Happens(e, day, "OUT") ==> e.second <= last.value)
    decreases |events|
  {
    if events != [] {
      var init, x := events[..|events| - 1], events[|events| - 1];
      assert events == init + [x] && x in events;
      LastOutIsLatest(init, day);
      var before, last := Facts(init, day).lastOut, Facts(events, day).lastOut;
      if last.Some? && last == before {
        var e :| e in init && Happens(e, day, "OUT") && e.second == before.value;
        assert e in events;
      }
    }
  }

  /** FirstIn is the earliest IN of the day and LastOut the latest OUT, whatever the order of
      the events. */
  lemma FactsAreExtremes(events: seq<Punch>, day: nat)
    ensures var f := Facts(events, day);
            && (f.firstIn.None? <==> forall e <- events :: !Happens(e, day, "IN"))
            && (f.lastOut.None? <==> forall e <- events :: !Happens(e, day, "OUT"))
            && (f.firstIn.Some? ==> (exists e :: e in events && Happens(e, day, "IN") && e.second == f.firstIn.value)
                                    && forall e <- events :: Happens(e, day, "IN") ==> f.firstIn.value <= e.second)
            && (f.lastOut.Some? ==> (exists e :: e in events && Happens(e, day, "OUT") && e.second == f.lastOut.value)
                                    && forall e <- events :: Happens(e, day, "OUT") ==> e.second <= f.lastOut.value)
  {
    FirstInIsEarliest(events, day);
    LastOutIsLatest(events, day);
  }

  function AddedOn(f: DayFacts, e: Punch, day: nat): DayFacts {
    if e.day == day then Added(f, e) else f
  }

  lemma FactsSnoc(events: seq<Punch>, e: Punch, day: nat)
    ensures Facts(events + [e], day) == AddedOn(Facts(events, day), e, day)
  {
    assert (events + [e])[..|events|] == events;
  }

  lemma AddedCommutes(f: DayFacts, x: Punch, y: Punch, day: nat)
    ensures AddedOn(AddedOn(f, x, day), y, day) == AddedOn(AddedOn(f, y, day), x, day)
  {
  }

  lemma {:induction false} MoveToEnd(a: seq<Punch>, x: Punch, b: seq<Punch>, day: nat)
    ensures Facts(a + [x] + b, day) == Facts(a + b + [x], day)
    decreases |b|
  {
    if b == [] {
      assert a + [x] + b == a + b + [x];
    } else {
      var init, last := b[..|b| - 1], b[|b| - 1];
      MoveToEnd(a, x, init, day);
      assert a + [x] + b == a + [x] + init + [last] && a + b == a + init + [last];
      FactsSnoc(a + [x] + init, last, day);
      FactsSnoc(a + init, x, day);
      FactsSnoc(a + init, last, day);
      FactsSnoc(a + b, x, day);
      AddedCommutes(Facts(a + init, day), x, last, day);
    }
  }

  /** A day's facts do not depend on the order of the events. */
  lemma {:induction false} OrderDoesNotMatter(a: seq<Punch>, b: seq<Punch>, day: nat)
    requires multiset(a) == multiset(b)
    ensures Facts(a, day) == Facts(b, day)
    decreases |a|
  {
    if a == [] {
      assert |multiset(b)| == 0;
      assert b == [];
    } else {
      var init, last := a[..|a| - 1], a[|a| - 1];
      assert a == init + [last];
      assert last in multiset(b);
      var k :| 0 <= k < |b| && b[k] == last;
      var before, after := b[..k], b[k + 1..];
      assert b == before + [last] + after;
      assert multiset(b) == multiset(before) + multiset{last} + multiset(after);
      assert multiset(a) == multiset(init) + multiset{last};
      assert multiset(before + after) == multiset(before) + multiset(after) == multiset(b) - multiset{last};
      assert multiset(init) == multiset(a) - multiset{last};
      OrderDoesNotMatter(init, before + after, day);
      MoveToEnd(before, last, after, day);
      FactsSnoc(init, last, day);
      FactsSnoc(before + after, last, day);
    }
  }

  // ---------------------------------------------------------------------------
  // Grouping by date.
  // ---------------------------------------------------------------------------

  function TextOrEmpty(t: Option<Second>): string {
    if t.Some? then TimeText(t.value) else ""
  }

  /** The record of one day before its hours are computed. */
  function RecordOf(date: string, f: DayFacts): DailyRecord {
    DailyRecord(date, TextOrEmpty(f.firstIn), TextOrEmpty(f.lastOut), f.entries, f.exits, 0)
  }

  predicate Occurs(events: seq<Punch>, day: nat) {
    exists i :: 0 <= i < |events| && events[i].day == day
  }

  ghost predicate MapsDays(events: seq<Punch>, dayMap: map<string, DailyRecord>) {
    && (forall day: nat :: Nameable(day) ==> (FormatDay(day) in dayMap <==> Occurs(events, day)))
    && (forall day: nat :: Nameable(day) && Occurs(events, day) ==>
          dayMap[FormatDay(day)] == RecordOf(FormatDay(day), Facts(events, day)))
  }

  /** "" or a later text is replaced by an earlier one. */
  lemma EarlierText(t: Option<Second>, second: Second)
    ensures (if TextOrEmpty(t) == "" || Less(TimeText(second), TextOrEmpty(t)) then TimeText(second)
            else TextOrEmpty(t))
            == TextOrEmpty(Min(t, second))
  {
    if t.Some? {
      TimeRoundTrip(t.value);
      TextOrderIsTime(second, t.value);
    }
  }

  lemma LaterText(t: Option<Second>, second: Second)
    ensures (if TextOrEmpty(t) == "" || Less(TextOrEmpty(t), TimeText(second)) then TimeText(second)
            else TextOrEmpty(t))
            == TextOrEmpty(Max(t, second))
  {
    if t.Some? {
      TimeRoundTrip(t.value);
      TextOrderIsTime(t.value, second);
    }
  }

  /** One event added to the record of its day, comparing the texts as the code does. */
  method AddEvent(rec: DailyRecord, e: Punch, ghost f: DayFacts) returns (r: DailyRecord)
    requires rec == RecordOf(rec.date, f)
    ensures r == RecordOf(rec.date, Added(f, e))
  {
    r := rec;
    var timeStr := TimeText(e.second);
    if e.direction == "IN" {
      EarlierText(f.firstIn, e.second);
      r := r.(totalEntries := r.totalEntries + 1);
      if r.firstIn == "" || Less(timeStr, r.firstIn) {
        r := r.(firstIn := timeStr);
      }
    } else if e.direction == "OUT" {
      LaterText(f.lastOut, e.second);
      r := r.(totalExits := r.totalExits + 1);
      if r.lastOut == "" || Less(r.lastOut, timeStr) {
        r := r.(lastOut := timeStr);
      }
    }
  }

  lemma DateKeys(a: nat, b: nat)
    requires Nameable(a) && Nameable(b)
    ensures FormatDay(a) == FormatDay(b) <==> a == b
  {
    ParseFormat(a);
    ParseFormat(b);
  }

  lemma {:induction false} AbsentDay(events: seq<Punch>, day: nat)
    requires !Occurs(events, day)
    ensures Facts(events, day) == NOTHING
    decreases |events|
  {
    if events != [] {
      var init, last := events[..|events| - 1], events[|events| - 1];
      assert events == init + [last];
      OccursSnoc(init, last, day);
      AbsentDay(init, day);
    }
  }

  lemma OccursSnoc(events: seq<Punch>, e: Punch, day: nat)
    ensures Occurs(events + [e], day) <==> Occurs(events, day) || e.day == day
  {
    if Occurs(events, day) {
      var i :| 0 <= i < |events| && events[i].day == day;
      assert (events + [e])[i].day == day;
    }
    if e.day == day {
      assert (events + [e])[|events|].day == day;
    }
    if Occurs(events + [e], day) {
      var i :| 0 <= i < |events + [e]| && (events + [e])[i].day == day;
      assert i == |events| || events[i].day == day;
    }
  }

  lemma MapDaysStep(events: seq<Punch>, e: Punch, dayMap: map<string, DailyRecord>, r: DailyRecord)
    requires Dated(e) && MapsDays(events, dayMap)
    requires r == RecordOf(FormatDay(e.day), Facts(events + [e], e.day))
    ensures MapsDays(events + [e], dayMap[FormatDay(e.day) := r])
  {
    var after := dayMap[FormatDay(e.day) := r];
    forall day: nat | Nameable(day)
      ensures FormatDay(day) in after <==> Occurs(events + [e], day)
      ensures Occurs(events + [e], day)
              ==> after[FormatDay(day)] == RecordOf(FormatDay(day), Facts(events + [e], day)) {
      DateKeys(day, e.day);
      OccursSnoc(events, e, day);
      FactsSnoc(events, e, day);
    }
  }

  method GroupEventsByDate(events: seq<Punch>) returns (dayMap: map<string, DailyRecord>)
    requires forall e <- events :: Dated(e)
    ensures MapsDays(events, dayMap)
  {
    dayMap := map[];
    for i := 0 to |events|
      invariant MapsDays(events[..i], dayMap)
    {
      var e := events[i];
      ghost var done := events[..i];
      assert events[..i + 1] == done + [e] && e in events;
      var dateStr := FormatDay(e.day);
      ghost var f := Facts(done, e.day);
      FactsSnoc(done, e, e.day);
      var rec := DailyRecord(dateStr, "", "", 0, 0, 0);
      if dateStr in dayMap {
        rec := dayMap[dateStr];
      } else {
        AbsentDay(done, e.day);
      }
      rec := AddEvent(rec, e, f);
      MapDaysStep(done, e, dayMap, rec);
      dayMap := dayMap[dateStr := rec];
    }
    assert events[..|events|] == events;
  }

  // ---------------------------------------------------------------------------
  // Hours and the date loop.
  // ---------------------------------------------------------------------------

  /** math.Round(hours * 100), for a positive number of seconds. */
  function Hundredths(seconds: nat): nat {
    (seconds + 18) / 36
  }

  function WithHours(r: DailyRecord): DailyRecord {
    if r.firstIn == "" || r.lastOut == "" then r
    else
      var firstIn, lastOut := ParseTime(r.firstIn), ParseTime(r.lastOut);
      if firstIn.Some? && lastOut.Some? && lastOut.value > firstIn.value
      then r.(hoursWorked := Hundredths(lastOut.value - firstIn.value)) else r
  }

  /** A complete day counts the time from its first IN to its last OUT, to the nearest
      hundredth; a day that is incomplete or ends before it begins counts nothing. */
  lemma HoursAreElapsedTime(date: string, f: DayFacts)
    ensures var h := WithHours(RecordOf(date, f)).hoursWorked;
            if f.firstIn.Some? && f.lastOut.Some? && f.firstIn.value < f.lastOut.value
            then -18 <= 36 * h - (f.lastOut.value - f.firstIn.value) <= 18
            else h == 0
  {
    if f.firstIn.Some? {
      TimeRoundTrip(f.firstIn.value);
    }
    if f.lastOut.Some? {
      TimeRoundTrip(f.lastOut.value);
    }
  }

  method CalculateHoursWorked(dayMap: map<string, DailyRecord>) returns (result: map<string, DailyRecord>)
    ensures result == map date | date in dayMap :: WithHours(dayMap[date])
  {
    result := dayMap;
    var todo := dayMap.Keys;
    while todo != {}
      invariant result.Keys == dayMap.Keys && todo <= dayMap.Keys
      invariant forall date <- dayMap.Keys ::
                result[date] == if date in todo then dayMap[date] else WithHours(dayMap[date])
      decreases todo
    {
      var date :| date in todo;
      var rec := result[date];
      if rec.firstIn != "" && rec.lastOut != "" {
        var firstIn, lastOut := ParseTime(rec.firstIn), ParseTime(rec.lastOut);
        if firstIn.Some? && lastOut.Some? {
          if lastOut.value > firstIn.value {
            rec := rec.(hoursWorked := Hundredths(lastOut.value - firstIn.value));
          }
        }
      }
      result := result[date := rec];
      todo := todo - {date};
    }
  }

  /** The days of the range that have events, in ascending order. */
  function ActiveDays(events: seq<Punch>, start: nat, end: int): seq<nat>
    decreases end - start
  {
    if end < start then []
    else ActiveDays(events, start, end - 1) + (if Occurs(events, end) then [end] else [])
  }

  lemma ActiveDaysStep(events: seq<Punch>, start: nat, end: nat)
    requires start <= end
    ensures ActiveDays(events, start, end)
            == if Occurs(events, end) then ActiveDays(events, start, end - 1) + [end]
                else ActiveDays(events, start, end - 1)
  {
    assert ActiveDays(events, start, end - 1) + [] == ActiveDays(events, start, end - 1);
  }

  lemma {:induction false} ActiveDaysMembers(events: seq<Punch>, start: nat, end: int, day: nat)
    ensures day in ActiveDays(events, start, end) <==> start <= day <= end && Occurs(events, day)
    decreases end - start
  {
    if start <= end {
      ActiveDaysMembers(events, start, end - 1, day);
      ActiveDaysStep(events, start, end);
    }
  }

  lemma {:induction false} ActiveDaysAscend(events: seq<Punch>, start: nat, end: int, i: nat, j: nat)
    requires i < j < |ActiveDays(events, start, end)|
    ensures ActiveDays(events, start, end)[i] < ActiveDays(events, start, end)[j]
    decreases end - start
  {
    var before := ActiveDays(events, start, end - 1);
    ActiveDaysStep(events, start, end);
    if j < |before| {
      ActiveDaysAscend(events, start, end - 1, i, j);
    } else {
      assert before[i] in before;
      ActiveDaysMembers(events, start, end - 1, before[i]);
    }
  }

  /** The date loop meets every in-range day with events exactly once, in ascending order. */
  lemma ActiveDaysAreExact(events: seq<Punch>, start: nat, end: int)
    ensures var days := ActiveDays(events, start, end);
            && (forall i, j :: 0 <= i < j < |days| ==> days[i] < days[j])
            && (forall day: nat :: day in days <==> start <= day <= end && Occurs(events, day))
  {
    var days := ActiveDays(events, start, end);
    forall i, j | 0 <= i < j < |days| ensures days[i] < days[j] {
      ActiveDaysAscend(events, start, end, i, j);
    }
    forall day: nat ensures day in days <==> start <= day <= end && Occurs(events, day) {
      ActiveDaysMembers(events, start, end, day);
    }
  }

  function CountIn(events: seq<Punch>, direction: string, start: nat, end: int): nat
    decreases |events|
  {
    if events == [] then 0
    else
      var rest, e := CountIn(events[..|events| - 1], direction, start, end), events[|events| - 1];
      if e.direction == direction && start <= e.day <= end then rest + 1 else rest
  }

  lemma {:induction false} CountSplits(events: seq<Punch>, direction: string, start: nat, end: nat)
    requires start <= end
    ensures CountIn(events, direction, start, end)
            == CountIn(events, direction, start, end - 1) + CountIn(events, direction, end, end)
    decreases |events|
  {
    if events != [] {
      CountSplits(events[..|events| - 1], direction, start, end);
    }
  }

  lemma {:induction false} DayCounts(events: seq<Punch>, day: nat)
    ensures Facts(events, day).entries == CountIn(events, "IN", day, day)
    ensures Facts(events, day).exits == CountIn(events, "OUT", day, day)
    decreases |events|
  {
    if events != [] {
      DayCounts(events[..|events| - 1], day);
    }
  }

  lemma {:induction false} EmptyCount(events: seq<Punch>, direction: string, start: nat, end: int)
    requires end < start
    ensures CountIn(events, direction, start, end) == 0
    decreases |events|
  {
    if events != [] {
      EmptyCount(events[..|events| - 1], direction, start, end);
    }
  }

  function DayRecord(events: seq<Punch>, day: nat): DailyRecord {
    WithHours(RecordOf(FormatDay(day), Facts(events, day)))
  }

  function Records(events: seq<Punch>, days: seq<nat>): seq<DailyRecord> {
    seq(|days|, i requires 0 <= i < |days| => DayRecord(events, days[i]))
  }

  function Amount(r: DailyRecord, direction: string): nat {
    if direction == "IN" then r.totalEntries else r.totalExits
  }

  /** The entries or the exits of the records, added up. */
  function AmountSum(records: seq<DailyRecord>, direction: string): nat
    decreases |records|
  {
    if records == [] then 0
    else AmountSum(records[..|records| - 1], direction) + Amount(records[|records| - 1], direction)
  }

  lemma AmountSumSnoc(events: seq<Punch>, days: seq<nat>, day: nat, direction: string)
    ensures AmountSum(Records(events, days + [day]), direction)
            == AmountSum(Records(events, days), direction) + Amount(DayRecord(events, day), direction)
  {
    var records := Records(events, days + [day]);
    assert records[..|records| - 1] == Records(events, days);
  }

  lemma RecordCounts(events: seq<Punch>, day: nat, direction: string)
    requires direction == "IN" || direction == "OUT"
    ensures Amount(DayRecord(events, day), direction) == CountIn(events, direction, day, day)
  {
    DayCounts(events, day);
    assert "IN" != "OUT";
  }

  /** The entries and exits that the report's records show are all the IN and OUT events of the
      range. */
  lemma {:induction false} ReportConserves(events: seq<Punch>, start: nat, end: int, direction: string)
    requires direction == "IN" || direction == "OUT"
    ensures AmountSum(Records(events, ActiveDays(events, start, end)), direction)
            == CountIn(events, direction, start, end)
    decreases end - start
  {
    if end < start {
      EmptyCount(events, direction, start, end);
    } else {
      var before := ActiveDays(events, start, end - 1);
      ReportConserves(events, start, end - 1, direction);
      CountSplits(events, direction, start, end);
      ActiveDaysStep(events, start, end);
      if Occurs(events, end) {
        AmountSumSnoc(events, before, end, direction);
        RecordCounts(events, end, direction);
      } else {
        AbsentDay(events, end);
        DayCounts(events, end);
      }
    }
  }

  /** The earliest or the latest event of one direction on a day. */
  predicate IsFirst(events: seq<Punch>, day: nat, e: Punch) {
    e in events && Happens(e, day, "IN") && forall x <- events :: Happens(x, day, "IN") ==> e.second <= x.second
  }

  predicate IsLast(events: seq<Punch>, day: nat, e: Punch) {
    e in events && Happens(e, day, "OUT") && forall x <- events :: Happens(x, day, "OUT") ==> x.second <= e.second
  }

  /** What the record of a day shows, field by field: its date, the times of its earliest IN and
      latest OUT, which are empty if there is none, how many there are, and the time between the
      two to the nearest hundredth of an hour, which is zero if one is missing or they are the
      wrong way round. */
  lemma RecordShows(events: seq<Punch>, day: nat)
    ensures var r := DayRecord(events, day);
            && r.date == FormatDay(day)
            && r.totalEntries == CountIn(events, "IN", day, day) && r.totalExits == CountIn(events, "OUT", day, day)
            && (forall e :: IsFirst(events, day, e) ==> r.firstIn == TimeText(e.second))
            && (forall e :: IsLast(events, day, e) ==> r.lastOut == TimeText(e.second))
            && (CountIn(events, "IN", day, day) == 0 <==> r.firstIn == "")
            && (CountIn(events, "OUT", day, day) == 0 <==> r.lastOut == "")
    ensures forall e, x :: IsFirst(events, day, e) && IsLast(events, day, x) && e.second < x.second ==>
              -18 <= 36 * DayRecord(events, day).hoursWorked - (x.second - e.second) <= 18
    ensures (forall e, x :: IsFirst(events, day, e) && IsLast(events, day, x) ==> x.second <= e.second) ==>
              DayRecord(events, day).hoursWorked == 0
  {
    EntriesShown(events, day);
    ExitsShown(events, day);
    HoursShown(events, day);
    HoursLeaveRest(FormatDay(day), Facts(events, day));
  }

  lemma HoursLeaveRest(date: string, f: DayFacts)
    ensures var r, s := RecordOf(date, f), WithHours(RecordOf(date, f));
            s.date == r.date && s.firstIn == r.firstIn && s.lastOut == r.lastOut
            && s.totalEntries == r.totalEntries && s.totalExits == r.totalExits
  {
  }

  lemma TextShown(t: Option<Second>)
    ensures TextOrEmpty(t) == "" <==> t.None?
  {
    if t.Some? {
      TimeRoundTrip(t.value);
    }
  }

  lemma FirstIsFact(events: seq<Punch>, day: nat)
    ensures var first := Facts(events, day).firstIn;
            && (forall e :: IsFirst(events, day, e) ==> first == Some(e.second))
            && (first.Some? ==> exists e :: IsFirst(events, day, e) && e.second == first.value)
            && (first.None? <==> CountIn(events, "IN", day, day) == 0)
  {
    FirstInIsEarliest(events, day);
    NoneCounted(events, "IN", day);
    var first := Facts(events, day).firstIn;
    if first.Some? {
      var e :| e in events && Happens(e, day, "IN") && e.second == first.value;
      assert IsFirst(events, day, e);
    }
  }

  lemma LastIsFact(events: seq<Punch>, day: nat)
    ensures var last := Facts(events, day).lastOut;
            && (forall x :: IsLast(events, day, x) ==> last == Some(x.second))
            && (last.Some? ==> exists x :: IsLast(events, day, x) && x.second == last.value)
            && (last.None? <==> CountIn(events, "OUT", day, day) == 0)
  {
    LastOutIsLatest(events, day);
    NoneCounted(events, "OUT", day);
    var last := Facts(events, day).lastOut;
    if last.Some? {
      var x :| x in events && Happens(x, day, "OUT") && x.second == last.value;
      assert IsLast(events, day, x);
    }
  }

  lemma EntriesShown(events: seq<Punch>, day: nat)
    ensures var r := RecordOf(FormatDay(day), Facts(events, day));
            && r.date == FormatDay(day) && r.totalEntries == CountIn(events, "IN", day, day)
            && (forall e :: IsFirst(events, day, e) ==> r.firstIn == TimeText(e.second))
            && (CountIn(events, "IN", day, day) == 0 <==> r.firstIn == "")
  {
    FirstIsFact(events, day);
    DayCounts(events, day);
    TextShown(Facts(events, day).firstIn);
  }

  lemma ExitsShown(events: seq<Punch>, day: nat)
    ensures var r := RecordOf(FormatDay(day), Facts(events, day));
            && r.totalExits == CountIn(events, "OUT", day, day)
            && (forall e :: IsLast(events, day, e) ==> r.lastOut == TimeText(e.second))
            && (CountIn(events, "OUT", day, day) == 0 <==> r.lastOut == "")
  {
    LastIsFact(events, day);
    DayCounts(events, day);
    TextShown(Facts(events, day).lastOut);
  }

  lemma HoursShown(events: seq<Punch>, day: nat)
    ensures forall e, x :: IsFirst(events, day, e) && IsLast(events, day, x) && e.second < x.second ==>
              -18 <= 36 * DayRecord(events, day).hoursWorked - (x.second - e.second) <= 18
    ensures (forall e, x :: IsFirst(events, day, e) && IsLast(events, day, x) ==> x.second <= e.second) ==>
              DayRecord(events, day).hoursWorked == 0
  {
    HoursAreElapsedTime(FormatDay(day), Facts(events, day));
    FirstIsFact(events, day);
    LastIsFact(events, day);
  }

  lemma {:induction false} NoneCounted(events: seq<Punch>, direction: string, day: nat)
    ensures CountIn(events, direction, day, day) == 0 <==> forall e <- events :: !Happens(e, day, direction)
    decreases |events|
  {
    if events != [] {
      var init, last := events[..|events| - 1], events[|events| - 1];
      assert events == init + [last];
      NoneCounted(init, direction, day);
      assert last in events && forall e <- init :: e in events;
    }
  }

  lemma OccursInBoth(a: seq<Punch>, b: seq<Punch>, day: nat)
    requires multiset(a) == multiset(b) && Occurs(a, day)
    ensures Occurs(b, day)
  {
    var i :| 0 <= i < |a| && a[i].day == day;
    assert a[i] in multiset(b);
    var j :| 0 <= j < |b| && b[j] == a[i];
    assert b[j].day == day;
  }

  lemma {:induction false} SameActiveDays(a: seq<Punch>, b: seq<Punch>, start: nat, end: int)
    requires multiset(a) == multiset(b)
    ensures ActiveDays(a, start, end) == ActiveDays(b, start, end)
    decreases end - start
  {
    if start <= end {
      SameActiveDays(a, b, start, end - 1);
      if Occurs(a, end) {
        OccursInBoth(a, b, end);
      }
      if Occurs(b, end) {
        OccursInBoth(b, a, end);
      }
    }
  }

  /** The whole report is the same for the events in any order. */
  lemma ReportIgnoresOrder(a: seq<Punch>, b: seq<Punch>, start: nat, end: int)
    requires multiset(a) == multiset(b)
    ensures Records(a, ActiveDays(a, start, end)) == Records(b, ActiveDays(b, start, end))
  {
    SameActiveDays(a, b, start, end);
    forall day: nat ensures DayRecord(a, day) == DayRecord(b, day) {
      OrderDoesNotMatter(a, b, day);
    }
  }

  /** GetPersonalReport after the query; None stands for a bound that does not parse. The demo
      records substituted for an empty report are left out. */
  method PersonalRecords(events: seq<Punch>, startDate: string, endDate: string)
    returns (records: Option<seq<DailyRecord>>)
    requires forall e <- events :: Dated(e)
    ensures records.Some? == (ParseDay(startDate).Some? && ParseDay(endDate).Some?)
    ensures records.Some? ==>
              records.value == Records(events, ActiveDays(events, ParseDay(startDate).value, ParseDay(endDate).value))
  {
    var grouped := GroupEventsByDate(events);
    var dayMap := CalculateHoursWorked(grouped);
    var start := ParseDay(startDate);
    if start.None? {
      return None;
    }
    var end := ParseDay(endDate);
    if end.None? {
      return None;
    }
    FormatParse(endDate);
    var found := CollectDays(events, grouped, dayMap, start.value, end.value);
    return Some(found);
  }

  ghost predicate AddsHours(grouped: map<string, DailyRecord>, dayMap: map<string, DailyRecord>) {
    dayMap == map date | date in grouped :: WithHours(grouped[date])
  }

  /** What the date loop finds under the name of one day. */
  lemma LookUpDay(events: seq<Punch>, grouped: map<string, DailyRecord>, dayMap: map<string, DailyRecord>, d: nat)
    requires MapsDays(events, grouped) && Nameable(d) && AddsHours(grouped, dayMap)
    ensures FormatDay(d) in dayMap <==> Occurs(events, d)
    ensures FormatDay(d) in dayMap ==> dayMap[FormatDay(d)] == DayRecord(events, d)
  {
  }

  lemma RecordsSnoc(events: seq<Punch>, days: seq<nat>, d: nat)
    ensures Records(events, days + [d]) == Records(events, days) + [DayRecord(events, d)]
  {
  }

  /** The body of the date loop. */
  method CollectDay(ghost events: seq<Punch>, ghost grouped: map<string, DailyRecord>, dayMap: map<string, DailyRecord>,
                    ghost start: nat, d: nat, before: seq<DailyRecord>)
    returns (records: seq<DailyRecord>)
    requires MapsDays(events, grouped) && Nameable(d) && start <= d
    requires AddsHours(grouped, dayMap)
    requires before == Records(events, ActiveDays(events, start, d - 1))
    ensures records == Records(events, ActiveDays(events, start, d))
  {
    records := before;
    var dateStr := FormatDay(d);
    LookUpDay(events, grouped, dayMap, d);
    ActiveDaysStep(events, start, d);
    RecordsSnoc(events, ActiveDays(events, start, d - 1), d);
    if dateStr in dayMap {
      records := records + [dayMap[dateStr]];
    }
  }

  method CollectDays(ghost events: seq<Punch>, ghost grouped: map<string, DailyRecord>,
                     dayMap: map<string, DailyRecord>, start: nat, end: nat)
    returns (records: seq<DailyRecord>)
    requires MapsDays(events, grouped) && Nameable(end)
    requires AddsHours(grouped, dayMap)
    ensures records == Records(events, ActiveDays(events, start, end))
  {
    records := [];
    var d := start;
    while d <= end
      invariant Collected(events, start, end, d, records)
      decreases end + 1 - d
    {
      EarlierIsNameable(d, end);
      records := CollectDay(events, grouped, dayMap, start, d, records);
      d := Advance(d, 1);
    }
    NothingInEmptyRange(events, start, end, d);
  }

  /** The loop has collected the days before d. */
  ghost predicate Collected(events: seq<Punch>, start: nat, end: nat, d: nat, records: seq<DailyRecord>) {
    start <= d && (d <= end + 1 || d == start) && records == Records(events, ActiveDays(events, start, d - 1))
  }

  lemma NothingInEmptyRange(events: seq<Punch>, start: nat, end: nat, d: nat)
    requires end < d && (d == end + 1 || d == start)
    ensures ActiveDays(events, start, d - 1) == ActiveDays(events, start, end)
  {
  }
}
