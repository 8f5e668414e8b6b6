/** The audit log: a static table of SQL texts chosen by a filter mask, arguments bound by
    position (report-api/internal/repository/inout_audit_queries.go), the count and the page
    read with them (report-api/internal/repository/inout.go) and the role and page rules of
    GetAuditLog (report-api/internal/service/report_service.go). */
module AuditQuery {
  import opened Options
  import OrgTree
  import opened Paging

  /** A row of inout_events; the time in milliseconds. */
  datatype Row = Row(eventId: string, employeeId: string, doorId: string, orgUnitId: string, status: string,
                     eventTime: int)

  datatype Filter = Filter(startDate: string, endDate: string, employeeId: string, doorId: string, status: string,
                           orgUnitIds: seq<string>)

  type Parser = string -> Option<string>

  const DAY: int := 86_400_000

  // ---------------------------------------------------------------------------
  // SQL texts, by the constants they are concatenated from.
  // ---------------------------------------------------------------------------

  datatype Fragment = SelectCountWhere | SelectColsWhere | DateRange | EmployeeIs | DoorIs | StatusIs | OrgUnitIn
      | OrderLimit

  datatype QuerySet = QuerySet(count: seq<Fragment>, selectSql: seq<Fragment>)

  datatype Arg = Text(text: string) | Id(id: string) | Ids(ids: seq<string>) | Number(n: int)

  function CountText(clauses: seq<Fragment>): seq<Fragment> {
    [SelectCountWhere, DateRange] + clauses
  }

  function SelectText(clauses: seq<Fragment>): seq<Fragment> {
    [SelectColsWhere, DateRange] + clauses + [OrderLimit]
  }

  /** auditQueries. */
  function Lookup(mask: bv8): Option<QuerySet> {
    if mask == 0 then Some(QuerySet(CountText([]), SelectText([])))
    else if mask == 1 then Some(QuerySet(CountText([EmployeeIs]), SelectText([EmployeeIs])))
    else if mask == 2 then Some(QuerySet(CountText([DoorIs]), SelectText([DoorIs])))
    else if mask == 3 then Some(QuerySet(CountText([EmployeeIs, DoorIs]), SelectText([EmployeeIs, DoorIs])))
    else if mask == 4 then Some(QuerySet(CountText([StatusIs]), SelectText([StatusIs])))
    else if mask == 5 then Some(QuerySet(CountText([EmployeeIs, StatusIs]), SelectText([EmployeeIs, StatusIs])))
    else if mask == 6 then Some(QuerySet(CountText([DoorIs, StatusIs]), SelectText([DoorIs, StatusIs])))
    else if mask == 7 then Some(QuerySet(CountText([EmployeeIs, DoorIs, StatusIs]),
                                         SelectText([EmployeeIs, DoorIs, StatusIs])))
    else if mask == 8 then Some(QuerySet(CountText([OrgUnitIn]), SelectText([OrgUnitIn])))
    else if mask == 9 then Some(QuerySet(CountText([EmployeeIs, OrgUnitIn]), SelectText([EmployeeIs, OrgUnitIn])))
    else if mask == 10 then Some(QuerySet(CountText([DoorIs, OrgUnitIn]), SelectText([DoorIs, OrgUnitIn])))
    else if mask == 11 then Some(QuerySet(CountText([EmployeeIs, DoorIs, OrgUnitIn]),
                                          SelectText([EmployeeIs, DoorIs, OrgUnitIn])))
    else if mask == 12 then Some(QuerySet(CountText([StatusIs, OrgUnitIn]), SelectText([StatusIs, OrgUnitIn])))
    else if mask == 13 then Some(QuerySet(CountText([EmployeeIs, StatusIs, OrgUnitIn]),
                                          SelectText([EmployeeIs, StatusIs, OrgUnitIn])))
    else if mask == 14 then Some(QuerySet(CountText([DoorIs, StatusIs, OrgUnitIn]),
                                          SelectText([DoorIs, StatusIs, OrgUnitIn])))
    else if mask == 15 then Some(QuerySet(CountText([EmployeeIs, DoorIs, StatusIs, OrgUnitIn]),
                                          SelectText([EmployeeIs, DoorIs, StatusIs, OrgUnitIn])))
    else None
  }

  // ---------------------------------------------------------------------------
  // What the database makes of a text and its arguments.
  // ---------------------------------------------------------------------------

  datatype Condition =
    | DaysBetween(from: string, to: string)
    | OfEmployee(id: string)
    | OfDoor(id: string)
    | OfStatus(status: string)
    | OfOrgUnits(ids: seq<string>)
    | Window(limit: int, offset: int)

  function Placeholders(f: Fragment): nat {
    match f
    case SelectCountWhere | SelectColsWhere => 0
    case DateRange | OrderLimit => 2
    case _ => 1
  }

  function BindOne(f: Fragment, args: seq<Arg>): Option<seq<Condition>>
    requires |args| == Placeholders(f)
  {
    match f
    case SelectCountWhere | SelectColsWhere => Some([])
    case DateRange => if args[0].Text? && args[1].Text? then Some([DaysBetween(args[0].text, args[1].text)]) else None
    case EmployeeIs => if args[0].Id? then Some([OfEmployee(args[0].id)]) else None
    case DoorIs => if args[0].Id? then Some([OfDoor(args[0].id)]) else None
    case StatusIs => if args[0].Text? then Some([OfStatus(args[0].text)]) else None
    case OrgUnitIn => if args[0].Ids? then Some([OfOrgUnits(args[0].ids)]) else None
    case OrderLimit => if args[0].Number? && args[1].Number? then Some([Window(args[0].n, args[1].n)]) else None
  }

  function Both(a: Option<seq<Condition>>, b: Option<seq<Condition>>): Option<seq<Condition>> {
    if a.Some? && b.Some? then Some(a.value + b.value) else None
  }

  /** Placeholders take the arguments from left to right, all of them, each of the right kind. */
  function Bind(q: seq<Fragment>, args: seq<Arg>): Option<seq<Condition>>
    decreases |q|
  {
    if q == [] then if args == [] then Some([]) else None
    else
      var n := Placeholders(q[0]);
      if |args| < n then None else Both(BindOne(q[0], args[..n]), Bind(q[1..], args[n..]))
  }

  lemma BindFirst(p: seq<Fragment>, a: seq<Arg>, q: seq<Fragment>, b: seq<Arg>)
    requires p != [] && Placeholders(p[0]) <= |a|
    ensures var n := Placeholders(p[0]);
            Bind(p + q, a + b) == Both(BindOne(p[0], a[..n]), Bind(p[1..] + q, a[n..] + b))
  {
    var n := Placeholders(p[0]);
    assert (p + q)[0] == p[0] && (p + q)[1..] == p[1..] + q;
    assert (a + b)[..n] == a[..n] && (a + b)[n..] == a[n..] + b;
  }

  lemma BothGroups(a: Option<seq<Condition>>, b: Option<seq<Condition>>, c: Option<seq<Condition>>)
    ensures Both(a, Both(b, c)) == Both(Both(a, b), c)
  {
    if a.Some? && b.Some? && c.Some? {
      assert a.value + (b.value + c.value) == a.value + b.value + c.value;
    }
  }

  lemma BindNothing(a: seq<Arg>, q: seq<Fragment>, b: seq<Arg>)
    requires a == [] && Bind(q, b).Some?
    ensures Bind([] + q, a + b) == Both(Bind([], a), Bind(q, b))
  {
    assert [] + q == q && a + b == b;
    assert [] + Bind(q, b).value == Bind(q, b).value;
  }

  lemma {:induction false} BindAppend(p: seq<Fragment>, a: seq<Arg>, q: seq<Fragment>, b: seq<Arg>)
    requires Bind(p, a).Some? && Bind(q, b).Some?
    ensures Bind(p + q, a + b) == Both(Bind(p, a), Bind(q, b))
    decreases |p|
  {
    if p == [] {
      BindNothing(a, q, b);
    } else {
      var n := Placeholders(p[0]);
      var first, rest := BindOne(p[0], a[..n]), Bind(p[1..], a[n..]);
      assert Bind(p, a) == Both(first, rest);
      assert Bind(p + q, a + b) == Both(first, Both(rest, Bind(q, b))) by {
        BindFirst(p, a, q, b);
        BindAppend(p[1..], a[n..], q, b);
      }
      BothGroups(first, rest, Bind(q, b));
    }
  }

  lemma BindSingle(f: Fragment, args: seq<Arg>)
    requires |args| == Placeholders(f)
    ensures Bind([f], args) == BindOne(f, args)
  {
    assert args[..|args|] == args && args[|args|..] == [];
    assert Bind([f][1..], args[|args|..]) == Some([]);
    if BindOne(f, args).Some? {
      assert BindOne(f, args).value + [] == BindOne(f, args).value;
    }
  }

  /** Whether a row meets a condition; instant reads the midnight a date text stands for. */
  predicate Meets(c: Condition, row: Row, instant: string -> Option<int>) {
    match c
    case DaysBetween(from, to) =>
      instant(from).Some? && instant(to).Some? && instant(from).value <= row.eventTime < instant(to).value + DAY
    case OfEmployee(id) => row.employeeId == id
    case OfDoor(id) => row.doorId == id
    case OfStatus(status) => row.status == status
    case OfOrgUnits(ids) => row.orgUnitId in ids
    case Window(_, _) => true
  }

  predicate MeetsAll(conditions: seq<Condition>, row: Row, instant: string -> Option<int>) {
    forall c <- conditions :: Meets(c, row, instant)
  }

  /** A date text the engine cannot convert makes the whole query fail. */
  predicate Convertible(conditions: seq<Condition>, instant: string -> Option<int>) {
    forall c <- conditions :: c.DaysBetween? ==> instant(c.from).Some? && instant(c.to).Some?
  }

  function Where(table: seq<Row>, conditions: seq<Condition>, instant: string -> Option<int>): seq<Row>
    decreases |table|
  {
    if table == [] then []
    else
      var rest, row := Where(table[..|table| - 1], conditions, instant), table[|table| - 1];
      if MeetsAll(conditions, row, instant) then rest + [row] else rest
  }

  /** SELECT COUNT(*). */
  function ExecuteCount(q: seq<Fragment>, args: seq<Arg>, table: seq<Row>,
                        instant: string -> Option<int>): Option<nat> {
    var bound := Bind(q, args);
    if |q| == 0 || q[0] != SelectCountWhere || bound.None? || !Convertible(bound.value, instant) then None
    else Some(|Where(table, bound.value, instant)|)
  }

  /** SELECT ... ORDER BY event_time DESC LIMIT ? OFFSET ?; sort stands for the engine's order. */
  function ExecuteSelect(q: seq<Fragment>, args: seq<Arg>, table: seq<Row>, instant: string -> Option<int>,
                         sort: seq<Row> -> seq<Row>): Option<seq<Row>> {
    var bound := Bind(q, args);
    if |q| == 0 || q[0] != SelectColsWhere || bound.None? || !Convertible(bound.value, instant) then None
    else
      var conditions := bound.value;
      if |conditions| == 0 || !conditions[|conditions| - 1].Window? then None
      else
        var w := conditions[|conditions| - 1];
        if w.limit < 0 || w.offset < 0 then None
        else Some(Slice(sort(Where(table, conditions, instant)), w.offset, w.limit))
  }

  // ---------------------------------------------------------------------------
  // Building the query.
  // ---------------------------------------------------------------------------

  datatype BuildError = InvalidEmployeeId | InvalidDoorId | InvalidStatus | UnsupportedCombination

  datatype Step = Building(mask: bv8, args: seq<Arg>) | Failed(error: BuildError)

  datatype Built = Ok(queries: QuerySet, args: seq<Arg>) | Err(error: BuildError)

  function AppendEmployeeFilter(employeeId: string, parse: Parser, mask: bv8, args: seq<Arg>): Step {
    if employeeId != "" then
      if parse(employeeId).None? then Failed(InvalidEmployeeId)
      else Building(mask | 1, args + [Id(parse(employeeId).value)])
    else Building(mask, args)
  }

  function AppendDoorFilter(doorId: string, parse: Parser, mask: bv8, args: seq<Arg>): Step {
    if doorId != "" then
      if parse(doorId).None? then Failed(InvalidDoorId)
      else Building(mask | 2, args + [Id(parse(doorId).value)])
    else Building(mask, args)
  }

  function AppendStatusFilter(status: string, mask: bv8, args: seq<Arg>): Step {
    if status != "" then
      if status != "ALLOW" && status != "DENY" then Failed(InvalidStatus)
      else Building(mask | 4, args + [Text(status)])
    else Building(mask, args)
  }

  /** The ids of the list that parse, in order. */
  function ParsedIds(ids: seq<string>, parse: Parser): seq<string>
    decreases |ids|
  {
    if ids == [] then []
    else
      var rest, id := ParsedIds(ids[..|ids| - 1], parse), parse(ids[|ids| - 1]);
      if id.Some? then rest + [id.value] else rest
  }

  method AppendOrgUnitsFilter(orgUnitIds: seq<string>, parse: Parser, mask: bv8, args: seq<Arg>)
    returns (newMask: bv8, newArgs: seq<Arg>)
    ensures orgUnitIds == [] ==> newMask == mask && newArgs == args
    ensures orgUnitIds != [] ==> newMask == mask | 8 && newArgs == args + [Ids(ParsedIds(orgUnitIds, parse))]
  {
    newMask, newArgs := mask, args;
    if |orgUnitIds| > 0 {
      var orgUuids: seq<string> := [];
      for i := 0 to |orgUnitIds|
        invariant orgUuids == ParsedIds(orgUnitIds[..i], parse)
      {
        assert orgUnitIds[..i + 1][..i] == orgUnitIds[..i];
        var u := parse(orgUnitIds[i]);
        if u.Some? {
          orgUuids := orgUuids + [u.value];
        }
      }
      assert orgUnitIds[..|orgUnitIds|] == orgUnitIds;
      newMask, newArgs := newMask | 8, newArgs + [Ids(orgUuids)];
    }
  }

  // ---------------------------------------------------------------------------
  // What a filter means.
  // ---------------------------------------------------------------------------

  function Complaint(f: Filter, parse: Parser): Option<BuildError> {
    if f.employeeId != "" && parse(f.employeeId).None? then Some(InvalidEmployeeId)
    else if f.doorId != "" && parse(f.doorId).None? then Some(InvalidDoorId)
    else if f.status !in {"", "ALLOW", "DENY"} then Some(InvalidStatus)
    else None
  }

  /** The filter read on a row: every field that is set must agree. */
  predicate Matches(f: Filter, parse: Parser, row: Row, instant: string -> Option<int>) {
    && instant(f.startDate).Some? && instant(f.endDate).Some?
    && instant(f.startDate).value <= row.eventTime < instant(f.endDate).value + DAY
    && (f.employeeId != "" ==> parse(f.employeeId) == Some(row.employeeId))
    && (f.doorId != "" ==> parse(f.doorId) == Some(row.doorId))
    && (f.status != "" ==> row.status == f.status)
    && (f.orgUnitIds != [] ==> exists id <- f.orgUnitIds :: parse(id) == Some(row.orgUnitId))
  }

  function When<T>(b: bool, t: T): seq<T> {
    if b then [t] else []
  }

  function Clauses(employee: bool, door: bool, status: bool, orgUnits: bool): seq<Fragment> {
    When(employee, EmployeeIs) + When(door, DoorIs) + When(status, StatusIs) + When(orgUnits, OrgUnitIn)
  }

  function MaskOf(employee: bool, door: bool, status: bool, orgUnits: bool): bv8 {
    var m0: bv8 := 0;
    var m1 := if employee then m0 | 1 else m0;
    var m2 := if door then m1 | 2 else m1;
    var m3 := if status then m2 | 4 else m2;
    if orgUnits then m3 | 8 else m3
  }

  lemma MaskBits(employee: bool, door: bool, status: bool, orgUnits: bool)
    ensures MaskOf(employee, door, status, orgUnits)
            == (if employee then 1 else 0) + (if door then 2 else 0) + (if status then 4 else 0)
                + (if orgUnits then 8 else 0)
  {
  }

  lemma TablePlain(employee: bool, door: bool)
    ensures var clauses := Clauses(employee, door, false, false);
            Lookup(MaskOf(employee, door, false, false)) == Some(QuerySet(CountText(clauses), SelectText(clauses)))
  {
    MaskBits(employee, door, false, false);
    assert Clauses(false, false, false, false) == [];
    assert Clauses(true, false, false, false) == [EmployeeIs];
    assert Clauses(false, true, false, false) == [DoorIs];
    assert Clauses(true, true, false, false) == [EmployeeIs, DoorIs];
  }

  lemma TableByStatus(employee: bool, door: bool)
    ensures var clauses := Clauses(employee, door, true, false);
            Lookup(MaskOf(employee, door, true, false)) == Some(QuerySet(CountText(clauses), SelectText(clauses)))
  {
    MaskBits(employee, door, true, false);
    assert Clauses(false, false, true, false) == [StatusIs];
    assert Clauses(true, false, true, false) == [EmployeeIs, StatusIs];
    assert Clauses(false, true, true, false) == [DoorIs, StatusIs];
    assert Clauses(true, true, true, false) == [EmployeeIs, DoorIs, StatusIs];
  }

  lemma TableByUnits(employee: bool, door: bool)
    ensures var clauses := Clauses(employee, door, false, true);
            Lookup(MaskOf(employee, door, false, true)) == Some(QuerySet(CountText(clauses), SelectText(clauses)))
  {
    MaskBits(employee, door, false, true);
    assert Clauses(false, false, false, true) == [OrgUnitIn];
    assert Clauses(true, false, false, true) == [EmployeeIs, OrgUnitIn];
    assert Clauses(false, true, false, true) == [DoorIs, OrgUnitIn];
    assert Clauses(true, true, false, true) == [EmployeeIs, DoorIs, OrgUnitIn];
  }

  lemma TableByStatusAndUnits(employee: bool, door: bool)
    ensures var clauses := Clauses(employee, door, true, true);
            Lookup(MaskOf(employee, door, true, true)) == Some(QuerySet(CountText(clauses), SelectText(clauses)))
  {
    MaskBits(employee, door, true, true);
    assert Clauses(false, false, true, true) == [StatusIs, OrgUnitIn];
    assert Clauses(true, false, true, true) == [EmployeeIs, StatusIs, OrgUnitIn];
    assert Clauses(false, true, true, true) == [DoorIs, StatusIs, OrgUnitIn];
    assert Clauses(true, true, true, true) == [EmployeeIs, DoorIs, StatusIs, OrgUnitIn];
  }

  /** All sixteen entries of the table are the same two texts around the clauses of the mask. */
  lemma TableIsSystematic(employee: bool, door: bool, status: bool, orgUnits: bool)
    ensures var clauses := Clauses(employee, door, status, orgUnits);
            Lookup(MaskOf(employee, door, status, orgUnits)) == Some(QuerySet(CountText(clauses), SelectText(clauses)))
  {
    if status {
      TableByStatusAndUnits(employee, door);
      TableByStatus(employee, door);
    } else {
      TableByUnits(employee, door);
      TablePlain(employee, door);
    }
  }

  function IdArg(id: string, parse: Parser): seq<Arg>
    requires id != "" ==> parse(id).Some?
  {
    if id != "" then [Id(parse(id).value)] else []
  }

  function ArgsOf(f: Filter, parse: Parser): seq<Arg>
    requires Complaint(f, parse).None?
  {
    IdArg(f.employeeId, parse) + IdArg(f.doorId, parse)
    + When(f.status != "", Text(f.status))
    + When(f.orgUnitIds != [], Ids(ParsedIds(f.orgUnitIds, parse)))
  }

  function ConditionsOf(f: Filter, parse: Parser): seq<Condition>
    requires Complaint(f, parse).None?
  {
    (if f.employeeId != "" then [OfEmployee(parse(f.employeeId).value)] else [])
    + (if f.doorId != "" then [OfDoor(parse(f.doorId).value)] else [])
    + When(f.status != "", OfStatus(f.status))
    + When(f.orgUnitIds != [], OfOrgUnits(ParsedIds(f.orgUnitIds, parse)))
  }

  lemma ClausesBind(f: Filter, parse: Parser)
    requires Complaint(f, parse).None?
    ensures Bind(Clauses(f.employeeId != "", f.doorId != "", f.status != "", f.orgUnitIds != []), ArgsOf(f, parse))
            == Some(ConditionsOf(f, parse))
  {
    var q1, q2, q3, q4 := When(f.employeeId != "", EmployeeIs), When(f.doorId != "", DoorIs),
        When(f.status != "", StatusIs), When(f.orgUnitIds != [], OrgUnitIn);
    var a1, a2 := IdArg(f.employeeId, parse), IdArg(f.doorId, parse);
    var a3, a4 := When(f.status != "", Text(f.status)), When(f.orgUnitIds != [], Ids(ParsedIds(f.orgUnitIds, parse)));
    if f.employeeId != "" {
      BindSingle(EmployeeIs, a1);
    }
    if f.doorId != "" {
      BindSingle(DoorIs, a2);
    }
    if f.status != "" {
      BindSingle(StatusIs, a3);
    }
    if f.orgUnitIds != [] {
      BindSingle(OrgUnitIn, a4);
    }
    BindAppend(q1, a1, q2, a2);
    BindAppend(q1 + q2, a1 + a2, q3, a3);
    BindAppend(q1 + q2 + q3, a1 + a2 + a3, q4, a4);
  }

  lemma {:induction false} ParsedMembers(ids: seq<string>, parse: Parser, u: string)
    ensures u in ParsedIds(ids, parse) <==> exists id <- ids :: parse(id) == Some(u)
    decreases |ids|
  {
    if ids != [] {
      var init, last := ids[..|ids| - 1], ids[|ids| - 1];
      assert ids == init + [last];
      ParsedMembers(init, parse, u);
    }
  }

  /** All of a filter's conditions together are the filter. */
  lemma ConditionsAreFilter(f: Filter, parse: Parser, row: Row, instant: string -> Option<int>, w: seq<Condition>)
    requires Complaint(f, parse).None? && forall c <- w :: c.Window?
    ensures MeetsAll([DaysBetween(f.startDate, f.endDate)] + ConditionsOf(f, parse) + w, row, instant)
            <==> Matches(f, parse, row, instant)
  {
    var d, e := DaysBetween(f.startDate, f.endDate), ConditionsOf(f, parse);
    var all := [d] + e + w;
    ParsedMembers(f.orgUnitIds, parse, row.orgUnitId);
    assert d in all;
    assert MeetsAll(all, row, instant) <==> Meets(d, row, instant) && MeetsAll(e, row, instant) by {
      assert forall c :: c in all <==> c == d || c in e || c in w;
    }
    FilterConditions(f, parse, row, instant);
  }

  lemma FilterConditions(f: Filter, parse: Parser, row: Row, instant: string -> Option<int>)
    requires Complaint(f, parse).None?
    ensures MeetsAll(ConditionsOf(f, parse), row, instant) <==>
            && (f.employeeId != "" ==> parse(f.employeeId) == Some(row.employeeId))
            && (f.doorId != "" ==> parse(f.doorId) == Some(row.doorId))
            && (f.status != "" ==> row.status == f.status)
            && (f.orgUnitIds != [] ==> row.orgUnitId in ParsedIds(f.orgUnitIds, parse))
  {
    var e := ConditionsOf(f, parse);
    if f.employeeId != "" {
      assert OfEmployee(parse(f.employeeId).value) in e;
    }
    if f.doorId != "" {
      assert OfDoor(parse(f.doorId).value) in e;
    }
    if f.status != "" {
      assert OfStatus(f.status) in e;
    }
    if f.orgUnitIds != [] {
      assert OfOrgUnits(ParsedIds(f.orgUnitIds, parse)) in e;
    }
  }

  lemma EmployeeStep(id: string, parse: Parser, args: seq<Arg>)
    requires id != "" ==> parse(id).Some?
    ensures AppendEmployeeFilter(id, parse, 0, args)
            == Building(MaskOf(id != "", false, false, false), args + IdArg(id, parse))
  {
    assert args + [] == args;
  }

  lemma DoorStep(id: string, parse: Parser, employee: bool, args: seq<Arg>)
    requires id != "" ==> parse(id).Some?
    ensures AppendDoorFilter(id, parse, MaskOf(employee, false, false, false), args)
            == Building(MaskOf(employee, id != "", false, false), args + IdArg(id, parse))
  {
    assert args + [] == args;
  }

  lemma StatusStep(status: string, employee: bool, door: bool, args: seq<Arg>)
    requires status in {"", "ALLOW", "DENY"}
    ensures AppendStatusFilter(status, MaskOf(employee, door, false, false), args)
            == Building(MaskOf(employee, door, status != "", false), args + When(status != "", Text(status)))
  {
    assert args + [] == args;
  }

  lemma OrgUnitsStep(f: Filter, parse: Parser, dates: seq<Arg>, mask: bv8, args: seq<Arg>)
    requires Complaint(f, parse).None?
    requires var (m, a) := (MaskOf(f.employeeId != "", f.doorId != "", f.status != "", false),
                            dates + IdArg(f.employeeId, parse) + IdArg(f.doorId, parse)
                                + When(f.status != "", Text(f.status)));
             && (f.orgUnitIds == [] ==> mask == m && args == a)
             && (f.orgUnitIds != [] ==> mask == m | 8 && args == a + [Ids(ParsedIds(f.orgUnitIds, parse))])
    ensures mask == MaskOf(f.employeeId != "", f.doorId != "", f.status != "", f.orgUnitIds != [])
    ensures args == dates + ArgsOf(f, parse)
  {
    assert args + [] == args;
    AppendGroups(dates, IdArg(f.employeeId, parse), IdArg(f.doorId, parse), When(f.status != "", Text(f.status)),
                 When(f.orgUnitIds != [], Ids(ParsedIds(f.orgUnitIds, parse))));
  }

  lemma AppendGroups(d: seq<Arg>, a: seq<Arg>, b: seq<Arg>, c: seq<Arg>, e: seq<Arg>)
    ensures d + a + b + c + e == d + (a + b + c + e)
  {
  }

  /** buildAuditQuery. An acceptable filter always finds its texts, and both bind. */
  method BuildAuditQuery(f: Filter, parse: Parser) returns (r: Built)
    ensures r.Err? <==> (f.employeeId != "" && parse(f.employeeId).None?) || (f.doorId != "" && parse(f.doorId).None?)
                        || (f.status != "" && f.status != "ALLOW" && f.status != "DENY")
    ensures r.Err? ==> r.error == (if f.employeeId != "" && parse(f.employeeId).None? then InvalidEmployeeId
                                   else if f.doorId != "" && parse(f.doorId).None? then InvalidDoorId
                                   else InvalidStatus)
    ensures r.Err? <==> Complaint(f, parse).Some?
    ensures r.Err? ==> Complaint(f, parse) == Some(r.error)
    ensures r.Ok? ==> FindsTheFilter(f, parse, r.queries, r.args)
  {
    var dates := [Text(f.startDate), Text(f.endDate)];
    var step := AppendEmployeeFilter(f.employeeId, parse, 0, dates);
    if step.Failed? {
      return Err(step.error);
    }
    EmployeeStep(f.employeeId, parse, dates);
    step := AppendDoorFilter(f.doorId, parse, step.mask, step.args);
    if step.Failed? {
      return Err(step.error);
    }
    DoorStep(f.doorId, parse, f.employeeId != "", dates + IdArg(f.employeeId, parse));
    step := AppendStatusFilter(f.status, step.mask, step.args);
    if step.Failed? {
      return Err(step.error);
    }
    StatusStep(f.status, f.employeeId != "", f.doorId != "",
               dates + IdArg(f.employeeId, parse) + IdArg(f.doorId, parse));
    var mask, args := AppendOrgUnitsFilter(f.orgUnitIds, parse, step.mask, step.args);
    OrgUnitsStep(f, parse, dates, mask, args);
    TableIsSystematic(f.employeeId != "", f.doorId != "", f.status != "", f.orgUnitIds != []);
    var q := Lookup(mask);
    if q.None? {
      return Err(UnsupportedCombination);
    }
    ClausesBind(f, parse);
    TextsBind(f, parse, q.value, args);
    return Ok(q.value, args);
  }

  /** The count text bound to the arguments, and the select text bound to the arguments with
      a limit and an offset behind, state the filter's conditions. */
  ghost predicate FindsTheFilter(f: Filter, parse: Parser, q: QuerySet, args: seq<Arg>)
  {
    && Complaint(f, parse).None?
    && |q.count| > 0 && q.count[0] == SelectCountWhere && |q.selectSql| > 0 && q.selectSql[0] == SelectColsWhere
    && var conditions := [DaysBetween(f.startDate, f.endDate)] + ConditionsOf(f, parse);
    && Bind(q.count, args) == Some(conditions)
    && forall limit: int, offset: int ::
        Bind(q.selectSql, args + [Number(limit), Number(offset)]) == Some(conditions + [Window(limit, offset)])
  }

  lemma HeadBinds(head: Fragment, start: string, end: string)
    requires head.SelectCountWhere? || head.SelectColsWhere?
    ensures Bind([head, DateRange], [Text(start), Text(end)]) == Some([DaysBetween(start, end)])
  {
    var args := [Text(start), Text(end)];
    BindSingle(head, []);
    BindSingle(DateRange, args);
    BindAppend([head], [], [DateRange], args);
    assert [head] + [DateRange] == [head, DateRange] && [] + args == args;
    assert [] + [DaysBetween(start, end)] == [DaysBetween(start, end)];
  }

  lemma TextsBind(f: Filter, parse: Parser, q: QuerySet, args: seq<Arg>)
    requires Complaint(f, parse).None?
    requires var clauses := Clauses(f.employeeId != "", f.doorId != "", f.status != "", f.orgUnitIds != []);
             && q == QuerySet(CountText(clauses), SelectText(clauses))
                 && Bind(clauses, ArgsOf(f, parse)) == Some(ConditionsOf(f, parse))
    requires args == [Text(f.startDate), Text(f.endDate)] + ArgsOf(f, parse)
    ensures FindsTheFilter(f, parse, q, args)
  {
    var clauses := Clauses(f.employeeId != "", f.doorId != "", f.status != "", f.orgUnitIds != []);
    var dates := [Text(f.startDate), Text(f.endDate)];
    HeadBinds(SelectCountWhere, f.startDate, f.endDate);
    HeadBinds(SelectColsWhere, f.startDate, f.endDate);
    BindAppend([SelectCountWhere, DateRange], dates, clauses, ArgsOf(f, parse));
    BindAppend([SelectColsWhere, DateRange], dates, clauses, ArgsOf(f, parse));
    var conditions := [DaysBetween(f.startDate, f.endDate)] + ConditionsOf(f, parse);
    forall limit: int, offset: int
      ensures Bind(q.selectSql, args + [Number(limit), Number(offset)]) == Some(conditions + [Window(limit, offset)]) {
      BindSingle(OrderLimit, [Number(limit), Number(offset)]);
      BindAppend([SelectColsWhere, DateRange] + clauses, args, [OrderLimit], [Number(limit), Number(offset)]);
    }
  }

  // ---------------------------------------------------------------------------
  // GetAuditEvents.
  // ---------------------------------------------------------------------------

  /** The rows the filter selects, in table order. */
  function Matching(table: seq<Row>, f: Filter, parse: Parser, instant: string -> Option<int>): seq<Row>
    decreases |table|
  {
    if table == [] then []
    else
      var rest, row := Matching(table[..|table| - 1], f, parse, instant), table[|table| - 1];
      if Matches(f, parse, row, instant) then rest + [row] else rest
  }

  lemma {:induction false} WhereIsMatching(table: seq<Row>, f: Filter, parse: Parser, instant: string -> Option<int>,
                                           w: seq<Condition>)
    requires Complaint(f, parse).None? && forall c <- w :: c.Window?
    ensures Where(table, [DaysBetween(f.startDate, f.endDate)] + ConditionsOf(f, parse) + w, instant)
            == Matching(table, f, parse, instant)
    decreases |table|
  {
    if table != [] {
      WhereIsMatching(table[..|table| - 1], f, parse, instant, w);
      ConditionsAreFilter(f, parse, table[|table| - 1], instant, w);
    }
  }

  predicate Answerable(f: Filter, parse: Parser, instant: string -> Option<int>) {
    Complaint(f, parse).None? && instant(f.startDate).Some? && instant(f.endDate).Some?
  }

  lemma ConvertibleDates(f: Filter, parse: Parser, instant: string -> Option<int>, w: seq<Condition>)
    requires Complaint(f, parse).None? && forall c <- w :: c.Window?
    ensures Convertible([DaysBetween(f.startDate, f.endDate)] + ConditionsOf(f, parse) + w, instant)
            <==> instant(f.startDate).Some? && instant(f.endDate).Some?
  {
    var d, e := DaysBetween(f.startDate, f.endDate), ConditionsOf(f, parse);
    assert d in [d] + e + w;
    assert forall c <- e :: !c.DaysBetween?;
    assert forall c :: c in [d] + e + w ==> c == d || c in e || c in w;
  }

  lemma CountAnswers(f: Filter, parse: Parser, q: QuerySet, args: seq<Arg>, table: seq<Row>,
                     instant: string -> Option<int>)
    requires FindsTheFilter(f, parse, q, args)
    ensures ExecuteCount(q.count, args, table, instant)
            == if Answerable(f, parse, instant) then Some(|Matching(table, f, parse, instant)|) else None
  {
    var conditions := [DaysBetween(f.startDate, f.endDate)] + ConditionsOf(f, parse);
    assert conditions + [] == conditions;
    ConvertibleDates(f, parse, instant, []);
    WhereIsMatching(table, f, parse, instant, []);
  }

  lemma SelectAnswers(f: Filter, parse: Parser, q: QuerySet, args: seq<Arg>, table: seq<Row>,
                      instant: string -> Option<int>,
                      sort: seq<Row> -> seq<Row>, limit: int, offset: int)
    requires FindsTheFilter(f, parse, q, args)
    ensures ExecuteSelect(q.selectSql, args + [Number(limit), Number(offset)], table, instant, sort)
            == if Answerable(f, parse, instant) && limit >= 0 && offset >= 0
               then Some(Slice(sort(Matching(table, f, parse, instant)), offset, limit)) else None
  {
    var w := Window(limit, offset);
    var conditions := [DaysBetween(f.startDate, f.endDate)] + ConditionsOf(f, parse) + [w];
    assert Bind(q.selectSql, args + [Number(limit), Number(offset)]) == Some(conditions);
    assert conditions[|conditions| - 1] == w;
    ConvertibleDates(f, parse, instant, [w]);
    WhereIsMatching(table, f, parse, instant, [w]);
  }

  datatype Events = Events(events: seq<Row>, totalCount: nat)

  /** The count query, on the arguments built for the filter. */
  method QueryCount(ghost f: Filter, ghost parse: Parser, q: QuerySet, args: seq<Arg>, table: seq<Row>,
                    instant: string -> Option<int>) returns (n: Option<nat>)
    requires FindsTheFilter(f, parse, q, args)
    ensures n == if Answerable(f, parse, instant) then Some(|Matching(table, f, parse, instant)|) else None
  {
    CountAnswers(f, parse, q, args, table, instant);
    return ExecuteCount(q.count, args, table, instant);
  }

  /** The select query, with the page size and the offset behind those arguments. */
  method QueryRows(ghost f: Filter, ghost parse: Parser, q: QuerySet, args: seq<Arg>, table: seq<Row>,
                   instant: string -> Option<int>, sort: seq<Row> -> seq<Row>, pageSize: int, offset: int)
    returns (rows: Option<seq<Row>>)
    requires FindsTheFilter(f, parse, q, args)
    ensures rows == if Answerable(f, parse, instant) && pageSize >= 0 && offset >= 0
                    then Some(Slice(sort(Matching(table, f, parse, instant)), offset, pageSize)) else None
  {
    SelectAnswers(f, parse, q, args, table, instant, sort, pageSize, offset);
    return ExecuteSelect(q.selectSql, args + [Number(pageSize), Number(offset)], table, instant, sort);
  }

  /** GetAuditEvents: the requested window of the matching rows in the engine's order, and how
      many match. The count and the page see the same rows. */
  method GetAuditEvents(f: Filter, page: int, pageSize: int, parse: Parser, table: seq<Row>,
                        instant: string -> Option<int>, sort: seq<Row> -> seq<Row>)
    returns (r: Option<Events>)
    ensures r.Some? <==> Answerable(f, parse, instant) && pageSize >= 0 && (page - 1) * pageSize >= 0
    ensures r.Some? ==>
              var matching := Matching(table, f, parse, instant);
              r.value == Events(Slice(sort(matching), (page - 1) * pageSize, pageSize), |matching|)
  {
    var built := BuildAuditQuery(f, parse);
    if built.Err? {
      return None;
    }
    var totalCount := QueryCount(f, parse, built.queries, built.args, table, instant);
    if totalCount.None? {
      return None;
    }
    var offset := (page - 1) * pageSize;
    var rows := QueryRows(f, parse, built.queries, built.args, table, instant, sort, pageSize, offset);
    if rows.None? {
      return None;
    }
    var events: seq<Row> := [];
    for i := 0 to |rows.value|
      invariant events == rows.value[..i]
    {
      events := events + [rows.value[i]];
    }
    return Some(Events(events, totalCount.value));
  }

  lemma {:induction false} MatchingMembers(table: seq<Row>, f: Filter, parse: Parser, instant: string -> Option<int>,
                                           row: Row)
    ensures multiset(Matching(table, f, parse, instant))[row]
            == if Matches(f, parse, row, instant) then multiset(table)[row] else 0
    decreases |table|
  {
    if table != [] {
      var init, last := table[..|table| - 1], table[|table| - 1];
      assert table == init + [last];
      MatchingMembers(init, f, parse, instant, row);
    }
  }

  /** Pages 1 to ceil(totalCount / pageSize) of GetAuditEvents, read in one order, show a stored
      row as often as it is stored if it matches the filter, and no other row. */
  lemma PagesAreTheResult(table: seq<Row>, f: Filter, parse: Parser, instant: string -> Option<int>,
                          sort: seq<Row> -> seq<Row>, pageSize: nat, row: Row)
    requires pageSize > 0 && multiset(sort(Matching(table, f, parse, instant)))
             == multiset(Matching(table, f, parse, instant))
    ensures var matching := Matching(table, f, parse, instant);
            var shown := Pages((p: nat) => sort(matching), pageSize, PageCount(|matching|, pageSize));
            multiset(shown)[row] == if Matches(f, parse, row, instant) then multiset(table)[row] else 0
  {
    var matching := Matching(table, f, parse, instant);
    SameBagSameLength(sort(matching), matching);
    FixedOrderTiles((p: nat) => sort(matching), sort(matching), pageSize);
    MatchingMembers(table, f, parse, instant, row);
  }

  function EventTime(row: Row): int {
    row.eventTime
  }

  /** Paging exactly: for each page size, reading pages 1 to ceil(totalCount / pageSize) of
      GetAuditEvents shows every matching event once, whatever the engine does with ties at
      each request, if and only if no two different matching events of one time lie on either
      side of a page boundary; `order` is any order the engine may give the matching events. */
  lemma AuditPagingIsExact(table: seq<Row>, f: Filter, parse: Parser, instant: string -> Option<int>, order: seq<Row>,
                           pageSize: nat)
    requires pageSize > 0 && Ordering(EventTime, order, Matching(table, f, parse, instant))
    ensures EveryRunIsComplete(EventTime, Matching(table, f, parse, instant), pageSize)
            <==> CleanPages(EventTime, order, pageSize)
  {
    PagingIsExact(EventTime, Matching(table, f, parse, instant), order, pageSize);
  }

  // ---------------------------------------------------------------------------
  // GetAuditLog.
  // ---------------------------------------------------------------------------

  datatype ReportRole = CEO | CFO | VP | Director | TeamManager | Employee

  predicate CanViewFullAudit(role: ReportRole) {
    role != Employee
  }

  datatype Request = Request(startDate: string, endDate: string, employeeId: string, doorId: string, status: string,
                             page: int, pageSize: int)

  datatype Response = Response(events: seq<Row>, page: nat, pageSize: nat, totalCount: nat)

  /** Page and size as GetAuditLog corrects them. */
  method ClampPage(req: Request) returns (page: nat, pageSize: nat)
    ensures page >= 1 && (req.page >= 1 ==> page == req.page) && (req.page < 1 ==> page == 1)
    ensures 1 <= pageSize <= 200 && pageSize == if 1 <= req.pageSize <= 200 then req.pageSize else 50
  {
    var p, size := req.page, req.pageSize;
    if p < 1 {
      p := 1;
    }
    if size < 1 || size > 200 {
      size := 50;
    }
    return p, size;
  }

  predicate KnownUnit(rows: seq<OrgTree.Unit>, parse: Parser, id: string) {
    parse(id).Some? && OrgTree.Find(rows, parse(id).value).Some?
  }

  /** The request's filter, narrowed to the requester's subtree and, without the full audit
      right, to the requester. */
  ghost function ScopedFilter(req: Request, requesterUserId: string, requesterOrgUnitId: string, role: ReportRole,
                              rows: seq<OrgTree.Unit>, parse: Parser): Filter
    requires KnownUnit(rows, parse, requesterOrgUnitId)
  {
    Filter(req.startDate, req.endDate, if CanViewFullAudit(role) then req.employeeId else requesterUserId, req.doorId,
           req.status,
           OrgTree.Below(rows, rows, parse(requesterOrgUnitId).value))
  }

  /** GetAuditLog; None stands for an error. It answers exactly for a known unit and a filter
      the database understands, with one page of the matching events and their number. */
  method GetAuditLog(req: Request, requesterUserId: string, requesterOrgUnitId: string, role: ReportRole,
                     rows: seq<OrgTree.Unit>, parse: Parser, table: seq<Row>, instant: string -> Option<int>,
                         sort: seq<Row> -> seq<Row>)
    returns (r: Option<Response>)
    requires OrgTree.UuidTree(rows)
    ensures r.Some? <==> KnownUnit(rows, parse, requesterOrgUnitId)
                         && Answerable(ScopedFilter(req, requesterUserId, requesterOrgUnitId, role, rows, parse),
                                       parse, instant)
    ensures r.Some? ==>
              var f := ScopedFilter(req, requesterUserId, requesterOrgUnitId, role, rows, parse);
              ShowsPage(r.value, req, Matching(table, f, parse, instant), sort)
  {
    var subtree := OrgTree.GetSubtreeIDs(rows, parse, requesterOrgUnitId);
    if parse(requesterOrgUnitId).Some? {
      OrgTree.FindIsMember(rows, parse(requesterOrgUnitId).value);
    }
    if subtree.None? {
      return None;
    }
    var employeeId := req.employeeId;
    if !CanViewFullAudit(role) {
      employeeId := requesterUserId;
    }
    var page, pageSize := ClampPage(req);
    var filter := Filter(req.startDate, req.endDate, employeeId, req.doorId, req.status, subtree.value);
    assert (page - 1) * pageSize >= 0;
    var events := GetAuditEvents(filter, page, pageSize, parse, table, instant, sort);
    if events.None? {
      return None;
    }
    return Some(Response(events.value.events, page, pageSize, events.value.totalCount));
  }

  /** The response holds the requested page of the matching events. */
  ghost predicate ShowsPage(r: Response, req: Request, matching: seq<Row>, sort: seq<Row> -> seq<Row>) {
    && r.page >= 1 && r.page == (if req.page < 1 then 1 else req.page)
    && 1 <= r.pageSize <= 200 && r.pageSize == (if 1 <= req.pageSize <= 200 then req.pageSize else 50)
    && r.totalCount == |matching|
    && r.events == Slice(sort(matching), (r.page - 1) * r.pageSize, r.pageSize)
  }

  /** What the log shows to whom, by role: of the swipes from the start of the first to the end of
      the last asked day, at the asked door and with the asked status, those whose unit is the
      requester's own or below it; to an employee the employee's own, whatever the request names,
      and to anybody else those of the employee the request names, or everybody's. */
  ghost predicate Shown(req: Request, requesterUserId: string, requesterOrgUnitId: string, role: ReportRole,
                        rows: seq<OrgTree.Unit>, parse: Parser, row: Row, instant: string -> Option<int>)
    requires KnownUnit(rows, parse, requesterOrgUnitId)
  {
    && instant(req.startDate).Some? && instant(req.endDate).Some?
    && instant(req.startDate).value <= row.eventTime < instant(req.endDate).value + 86_400_000
    && (req.doorId == "" || parse(req.doorId) == Some(row.doorId)) && (req.status == "" || row.status == req.status)
    && OrgTree.Ancestor(rows, parse(requesterOrgUnitId).value, row.orgUnitId)
    && match role
       case Employee => parse(requesterUserId) == Some(row.employeeId)
       case CEO => req.employeeId == "" || parse(req.employeeId) == Some(row.employeeId)
       case CFO => req.employeeId == "" || parse(req.employeeId) == Some(row.employeeId)
       case VP => req.employeeId == "" || parse(req.employeeId) == Some(row.employeeId)
       case Director => req.employeeId == "" || parse(req.employeeId) == Some(row.employeeId)
       case TeamManager => req.employeeId == "" || parse(req.employeeId) == Some(row.employeeId)
  }

  /** The audit log is scoped: the matching events are exactly those. The handler passes on only a
      requester id that parses. The unit list is never empty, so the log is never unscoped. */
  lemma AuditIsScoped(req: Request, requesterUserId: string, requesterOrgUnitId: string, role: ReportRole,
                      rows: seq<OrgTree.Unit>, parse: Parser, row: Row, instant: string -> Option<int>)
    requires OrgTree.UuidTree(rows) && (forall u <- rows :: parse(u.id) == Some(u.id))
             && KnownUnit(rows, parse, requesterOrgUnitId)
    requires requesterUserId != "" && parse(requesterUserId).Some?
    ensures ScopedFilter(req, requesterUserId, requesterOrgUnitId, role, rows, parse).orgUnitIds != []
    ensures Matches(ScopedFilter(req, requesterUserId, requesterOrgUnitId, role, rows, parse), parse, row, instant)
            <==> Shown(req, requesterUserId, requesterOrgUnitId, role, rows, parse, row, instant)
  {
    var unit := parse(requesterOrgUnitId).value;
    var u := OrgTree.Find(rows, unit).value;
    OrgTree.FindIsMember(rows, unit);
    OrgTree.InBelow(rows, unit, u);
    OrgTree.AncestryIsPartialOrder(rows, u, u, u);
    assert u.id in OrgTree.Below(rows, rows, unit);
    UnitListIsSubtree(rows, parse, unit, row.orgUnitId);
  }

  /** An employee's request for another employee changes nothing, nor does the user id of anybody
      with the full audit right. */
  lemma RoleDecides(req: Request, requesterUserId: string, requesterOrgUnitId: string, role: ReportRole,
                    rows: seq<OrgTree.Unit>, parse: Parser, other: string)
    requires KnownUnit(rows, parse, requesterOrgUnitId)
    ensures var f := ScopedFilter(req, requesterUserId, requesterOrgUnitId, role, rows, parse);
            if role == Employee
            then ScopedFilter(req.(employeeId := other), requesterUserId, requesterOrgUnitId, role, rows, parse) == f
            else ScopedFilter(req, other, requesterOrgUnitId, role, rows, parse) == f
  {
  }

  /** What a response of GetAuditLog holds: events that may be shown and nothing else, and their
      number; and the pages show each of them as often as it is stored. */
  lemma AuditLogIsExact(r: Response, req: Request, requesterUserId: string, requesterOrgUnitId: string,
                        role: ReportRole, rows: seq<OrgTree.Unit>, parse: Parser, table: seq<Row>,
                        instant: string -> Option<int>, sort: seq<Row> -> seq<Row>, row: Row)
    requires OrgTree.UuidTree(rows) && (forall u <- rows :: parse(u.id) == Some(u.id))
             && KnownUnit(rows, parse, requesterOrgUnitId)
    requires requesterUserId != "" && parse(requesterUserId).Some?
    requires forall s: seq<Row> :: multiset(sort(s)) == multiset(s)
    requires var f := ScopedFilter(req, requesterUserId, requesterOrgUnitId, role, rows, parse);
             ShowsPage(r, req, Matching(table, f, parse, instant), sort)
    ensures row in r.events ==>
              row in table && Shown(req, requesterUserId, requesterOrgUnitId, role, rows, parse, row, instant)
    ensures var f := ScopedFilter(req, requesterUserId, requesterOrgUnitId, role, rows, parse);
            var matching := Matching(table, f, parse, instant);
            multiset(Pages((p: nat) => sort(matching), r.pageSize, PageCount(r.totalCount, r.pageSize)))[row]
            == if Shown(req, requesterUserId, requesterOrgUnitId, role, rows, parse, row, instant)
               then multiset(table)[row] else 0
  {
    var f := ScopedFilter(req, requesterUserId, requesterOrgUnitId, role, rows, parse);
    var matching := Matching(table, f, parse, instant);
    AuditIsScoped(req, requesterUserId, requesterOrgUnitId, role, rows, parse, row, instant);
    MatchingMembers(table, f, parse, instant, row);
    PagesAreTheResult(table, f, parse, instant, sort, r.pageSize, row);
    if row in r.events {
      SliceMembers(sort(matching), (r.page - 1) * r.pageSize, r.pageSize, row);
      assert row in multiset(sort(matching));
      assert multiset(matching)[row] > 0;
      assert multiset(table)[row] > 0;
    }
  }

  lemma SliceMembers(rows: seq<Row>, offset: int, limit: nat, row: Row)
    requires offset >= 0 && row in Slice(rows, offset, limit)
    ensures row in rows
  {
  }

  lemma UnitListIsSubtree(rows: seq<OrgTree.Unit>, parse: Parser, unit: string, id: string)
    requires OrgTree.UuidTree(rows) && forall u <- rows :: parse(u.id) == Some(u.id)
    ensures (exists x <- OrgTree.Below(rows, rows, unit) :: parse(x) == Some(id)) <==> OrgTree.Ancestor(rows, unit, id)
  {
    var below := OrgTree.Below(rows, rows, unit);
    OrgTree.BelowMembers(rows, rows, unit, id);
    if exists x <- below :: parse(x) == Some(id) {
      var x :| x in below && parse(x) == Some(id);
      OrgTree.BelowMembers(rows, rows, unit, x);
    }
    if OrgTree.Ancestor(rows, unit, id) {
      var k: nat :| OrgTree.Up(rows, id, k) == Some(unit);
      OrgTree.FindIsMember(rows, id);
      assert id in below && parse(id) == Some(id);
    }
  }
}
