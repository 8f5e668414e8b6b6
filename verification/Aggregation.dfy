/** The event pipeline's consumer: every decodable swipe is enriched with its org unit and
    inserted; only an insert that succeeded, or an undecodable message, is committed
    (aggregation-worker). */
module Aggregation {
  import opened PartitionReader
  import Runs

  const ROOT_ORG: string := "a0000000-0000-0000-0000-000000000001"
  const ZERO_ORG: string := "00000000-0000-0000-0000-000000000000"

  /** `wellFormed`: the three identifiers of the event parse as UUIDs, without which Insert
      returns an error before it reaches the database. */
  datatype Message = Garbage | Swipe(id: string, employee: string, wellFormed: bool)

  /** The org lookup: an org unit, no row, or an error. */
  datatype Lookup = Found(org: string) | Missing | LookupFailed

  /** The database's answer to the insert; a failed one may still have been stored. */
  datatype Insert = Inserted | InsertFailed(landed: bool)

  datatype Row = Row(id: string, employee: string, org: string)

  datatype Event =
    | Produce(msg: Message)
    | Fetch
    | Process(lookup: Lookup, insert: Insert)
    | Commit(accepted: bool)
    | Flush
    | Restart

  /** `refused` (the offsets whose Insert returned an error at least once), `landed` (those whose
      row was stored at least once) and `high` (the number of messages ever processed) only
      record history. */
  datatype System = System(log: seq<Message>, reader: Reader, rows: seq<Row>, refused: set<nat>, landed: set<nat>,
                           high: nat)

  const EMPTY: System := System([], START, [], {}, {}, 0)

  /** A failed lookup stores the zero unit, an unregistered employee the company root. */
  function OrgFor(lookup: Lookup): string {
    match lookup
    case Found(org) => if org == "" then ROOT_ORG else org
    case Missing => ROOT_ORG
    case LookupFailed => ZERO_ORG
  }

  predicate Accepted(msg: Message, insert: Insert) {
    msg.Garbage? || (msg.wellFormed && insert.Inserted?)
  }

  /** The row reaches the table, whatever Insert reports. */
  predicate Lands(msg: Message, insert: Insert) {
    msg.Swipe? && msg.wellFormed && (insert.Inserted? || insert.landed)
  }

  function Stored(rows: seq<Row>, msg: Message, lookup: Lookup, insert: Insert): seq<Row> {
    if Lands(msg, insert) then rows + [Row(msg.id, msg.employee, OrgFor(lookup))] else rows
  }

  function Processed(s: System, lookup: Lookup, insert: Insert): System
    requires s.reader.phase.Fetched? && s.reader.phase.offset < |s.log|
  {
    var o := s.reader.phase.offset;
    var ok := Accepted(s.log[o], insert);
    System(s.log, Finish(s.reader, ok), Stored(s.rows, s.log[o], lookup, insert),
           if ok then s.refused else s.refused + {o},
           if Lands(s.log[o], insert) then s.landed + {o} else s.landed,
           if o + 1 > s.high then o + 1 else s.high)
  }

  function Step(s: System, e: Event): System {
    match e
    case Produce(msg) => s.(log := s.log + [msg])
    case Fetch => s.(reader := FetchNext(s.reader, |s.log|))
    case Process(lookup, insert) =>
      if s.reader.phase.Fetched? && s.reader.phase.offset < |s.log| then Processed(s, lookup, insert) else s
    case Commit(accepted) => s.(reader := CommitHandled(s.reader, accepted))
    case Flush => s.(reader := FlushStash(s.reader))
    case Restart => s.(reader := Resume(s.reader))
  }

  function After(s: System, events: seq<Event>): System {
    Runs.After(Step, s, events)
  }

  predicate HasId(row: Row, id: string) {
    row.id == id
  }

  predicate IsStored(rows: seq<Row>, id: string) {
    exists k :: 0 <= k < |rows| && HasId(rows[k], id)
  }

  lemma StoredGrows(rows: seq<Row>, more: seq<Row>, id: string)
    ensures IsStored(rows, id) ==> IsStored(rows + more, id)
  {
    if IsStored(rows, id) {
      var k :| 0 <= k < |rows| && HasId(rows[k], id);
      assert HasId((rows + more)[k], id);
    }
  }

  // ---------------------------------------------------------------------------
  // What the committed offset means.
  // ---------------------------------------------------------------------------

  ghost predicate Accounted(s: System, i: nat)
    requires i < |s.log|
  {
    s.log[i].Swipe? ==> (i in s.landed && IsStored(s.rows, s.log[i].id)) || i in s.refused
  }

  predicate Carries(msg: Message, id: string) {
    msg.Swipe? && msg.id == id
  }

  /** Some message that carries the id was stored. */
  ghost predicate SomeLanded(s: System, id: string) {
    exists o :: o in s.landed && o < |s.log| && Carries(s.log[o], id)
  }

  ghost predicate Inv(s: System) {
    && Valid(s.reader, |s.log|)
    && Next(s.reader) <= s.high <= |s.log|
    && (forall i :: 0 <= i < s.high ==> Accounted(s, i))
    && (forall o :: o in s.landed || o in s.refused ==> o < s.high)
    && (forall id :: IsStored(s.rows, id) <==> SomeLanded(s, id))
  }

  lemma StoredSnoc(rows: seq<Row>, row: Row, id: string)
    ensures IsStored(rows + [row], id) <==> IsStored(rows, id) || row.id == id
  {
    StoredGrows(rows, [row], id);
    if row.id == id {
      assert HasId((rows + [row])[|rows|], id);
    }
    if IsStored(rows + [row], id) {
      var k :| 0 <= k < |rows + [row]| && HasId((rows + [row])[k], id);
      assert k < |rows| ==> HasId(rows[k], id);
    }
  }

  lemma LandedGrows(s: System, t: System, o: nat, id: string)
    requires t.log == s.log && t.landed == s.landed + {o} && o < |s.log|
    ensures SomeLanded(t, id) <==> SomeLanded(s, id) || Carries(s.log[o], id)
  {
    if SomeLanded(s, id) {
      var i :| i in s.landed && i < |s.log| && Carries(s.log[i], id);
      assert i in t.landed;
    }
    if Carries(s.log[o], id) {
      assert o in t.landed;
    }
  }

  lemma ProcessKeepsStored(s: System, lookup: Lookup, insert: Insert, id: string)
    requires Inv(s) && s.reader.phase.Fetched?
    ensures var t := Processed(s, lookup, insert); IsStored(t.rows, id) <==> SomeLanded(t, id)
  {
    var t := Processed(s, lookup, insert);
    var o := s.reader.phase.offset;
    assert IsStored(s.rows, id) <==> SomeLanded(s, id);
    if Lands(s.log[o], insert) {
      StoredSnoc(s.rows, Row(s.log[o].id, s.log[o].employee, OrgFor(lookup)), id);
      LandedGrows(s, t, o, id);
    }
  }

  lemma ProcessKeepsInv(s: System, lookup: Lookup, insert: Insert)
    requires Inv(s) && s.reader.phase.Fetched?
    ensures Inv(Processed(s, lookup, insert))
  {
    var t := Processed(s, lookup, insert);
    var o := s.reader.phase.offset;
    forall id ensures IsStored(t.rows, id) <==> SomeLanded(t, id) {
      ProcessKeepsStored(s, lookup, insert, id);
    }
    forall i | 0 <= i < t.high ensures Accounted(t, i) {
      if i < s.high {
        assert Accounted(s, i);
      }
      if i in t.landed && t.log[i].Swipe? {
        assert SomeLanded(t, t.log[i].id);
      }
    }
  }

  lemma StepKeepsInv(s: System, e: Event)
    requires Inv(s)
    ensures Inv(Step(s, e))
  {
    var t := Step(s, e);
    if e.Process? {
      if s.reader.phase.Fetched? {
        ProcessKeepsInv(s, e.lookup, e.insert);
      }
    } else {
      forall i | 0 <= i < t.high ensures Accounted(t, i) {
        assert Accounted(s, i);
      }
      forall id ensures IsStored(t.rows, id) <==> SomeLanded(t, id) {
        OthersKeepLanded(s, e, id);
        assert IsStored(s.rows, id) <==> SomeLanded(s, id);
      }
    }
  }

  lemma OthersKeepLanded(s: System, e: Event, id: string)
    requires Inv(s) && !e.Process?
    ensures SomeLanded(Step(s, e), id) <==> SomeLanded(s, id)
  {
    var t := Step(s, e);
    if SomeLanded(s, id) {
      var o :| o in s.landed && o < |s.log| && Carries(s.log[o], id);
      assert o in t.landed && Carries(t.log[o], id);
    }
    if SomeLanded(t, id) {
      var o :| o in t.landed && o < |t.log| && Carries(t.log[o], id);
      assert o in s.landed && o < s.high && Carries(s.log[o], id);
    }
  }

  lemma {:induction false} RunKeepsInv(s: System, events: seq<Event>)
    requires Inv(s)
    ensures Inv(After(s, events))
    decreases |events|
  {
    if events != [] {
      RunKeepsInv(s, events[..|events| - 1]);
      StepKeepsInv(After(s, events[..|events| - 1]), events[|events| - 1]);
    }
  }

  /** Under arbitrary insert failures, lost commits, crashes and restarts, every decodable
      message below the committed offset is stored or had its Insert return an error. */
  lemma CommittedMeansAccounted(events: seq<Event>)
    ensures var s := After(EMPTY, events);
            s.reader.committed <= |s.log| && forall i :: 0 <= i < s.reader.committed ==> Accounted(s, i)
  {
    RunKeepsInv(EMPTY, events);
  }

  ghost function StoredIds(s: System): set<string> {
    set k | 0 <= k < |s.rows| :: s.rows[k].id
  }

  ghost function DecodableIds(log: seq<Message>): set<string> {
    set i | 0 <= i < |log| && log[i].Swipe? :: log[i].id
  }

  lemma StoredIdsAre(s: System, id: string)
    ensures id in StoredIds(s) <==> IsStored(s.rows, id)
  {
    if IsStored(s.rows, id) {
      var k :| 0 <= k < |s.rows| && HasId(s.rows[k], id);
      assert s.rows[k].id in StoredIds(s);
    }
    if id in StoredIds(s) {
      var k :| 0 <= k < |s.rows| && s.rows[k].id == id;
      assert HasId(s.rows[k], id);
    }
  }

  /** At the end of the log, whatever failed or was processed twice, the stored identifiers are
      exactly those of the messages with an insert that landed; so all decodable ones are
      stored if and only if each has such a message, and one that is missing was refused with
      every message that carries it. */
  lemma EndOfLogIsExact(events: seq<Event>)
    ensures var s := After(EMPTY, events);
            Next(s.reader) == |s.log| ==>
              && (forall id :: id in StoredIds(s) <==> SomeLanded(s, id))
              && StoredIds(s) <= DecodableIds(s.log)
              && (StoredIds(s) == DecodableIds(s.log)
                  <==> forall i :: 0 <= i < |s.log| && s.log[i].Swipe? ==> SomeLanded(s, s.log[i].id))
              && (forall i :: 0 <= i < |s.log| && s.log[i].Swipe? && !SomeLanded(s, s.log[i].id) ==> i in s.refused)
  {
    RunKeepsInv(EMPTY, events);
    var s := After(EMPTY, events);
    if Next(s.reader) == |s.log| {
      forall id ensures id in StoredIds(s) <==> SomeLanded(s, id) {
        StoredIdsAre(s, id);
      }
      forall id | id in StoredIds(s) ensures id in DecodableIds(s.log) {
        var o :| o in s.landed && o < |s.log| && Carries(s.log[o], id);
        assert s.log[o].id in DecodableIds(s.log);
      }
      forall i | 0 <= i < |s.log| && s.log[i].Swipe? ensures s.log[i].id in DecodableIds(s.log) {
      }
      forall i | 0 <= i < |s.log| && s.log[i].Swipe? && !SomeLanded(s, s.log[i].id) ensures i in s.refused {
        assert Accounted(s, i) && Carries(s.log[i], s.log[i].id);
      }
    }
  }

  predicate NoFailedInsert(log: seq<Message>, events: seq<Event>) {
    && (forall m <- log :: m.Swipe? ==> m.wellFormed)
    && (forall e <- events :: (e.Produce? && e.msg.Swipe? ==> e.msg.wellFormed) && (e.Process? ==> e.insert.Inserted?))
  }

  lemma {:induction false} NothingRefused(s: System, events: seq<Event>)
    requires s.refused == {} && NoFailedInsert(s.log, events)
    ensures After(s, events).refused == {}
    ensures forall m <- After(s, events).log :: m.Swipe? ==> m.wellFormed
    decreases |events|
  {
    if events != [] {
      NothingRefused(s, events[..|events| - 1]);
      assert events[|events| - 1] in events;
    }
  }

  /** With no insert failure the stored identifiers at the end of the log are exactly the
      decodable ones, however much was processed twice. */
  lemma AtLeastOnceIsComplete(events: seq<Event>)
    requires NoFailedInsert([], events)
    ensures var s := After(EMPTY, events);
            Next(s.reader) == |s.log| ==> StoredIds(s) == DecodableIds(s.log)
  {
    NothingRefused(EMPTY, events);
    EndOfLogIsExact(events);
    var s := After(EMPTY, events);
    assert forall i :: 0 <= i < |s.log| && s.log[i].Swipe? ==> i !in s.refused;
  }

  // ---------------------------------------------------------------------------
  // The table, row by row.
  // ---------------------------------------------------------------------------

  /** The unit a row is stored under: the one found for the employee; the company root if there
      is no row for the employee or no unit in it; the zero id if the lookup failed. */
  predicate StoredUnder(lookup: Lookup, org: string) {
    match lookup
    case Found(unit) => org == if unit != "" then unit else "a0000000-0000-0000-0000-000000000001"
    case Missing => org == "a0000000-0000-0000-0000-000000000001"
    case LookupFailed => org == "00000000-0000-0000-0000-000000000000"
  }

  predicate Handles(s: System, e: Event) {
    e.Process? && s.reader.phase.Fetched? && s.reader.phase.offset < |s.log|
  }

  /** The step's insert lands: of a well-formed swipe, and the database took it. */
  predicate StepLands(s: System, e: Event) {
    && Handles(s, e) && s.log[s.reader.phase.offset].Swipe? && s.log[s.reader.phase.offset].wellFormed
    && (e.insert.Inserted? || e.insert.landed)
  }

  /** Then this is its row. */
  predicate Puts(s: System, e: Event, row: Row) {
    && StepLands(s, e) && s.log[s.reader.phase.offset] == Swipe(row.id, row.employee, true)
    && StoredUnder(e.lookup, row.org)
  }

  predicate LandsAt(events: seq<Event>, n: nat) {
    n < |events| && StepLands(After(EMPTY, events[..n]), events[n])
  }

  predicate PutsAt(events: seq<Event>, n: nat, row: Row) {
    n < |events| && Puts(After(EMPTY, events[..n]), events[n], row)
  }

  /** The steps `at`, in this order, are those whose inserts landed, and the rows are theirs. */
  ghost predicate Traced(events: seq<Event>, rows: seq<Row>, at: seq<nat>) {
    && |at| == |rows| && (forall j, k :: 0 <= j < k < |at| ==> at[j] < at[k])
    && (forall k :: 0 <= k < |at| ==> PutsAt(events, at[k], rows[k]))
    && (forall n: nat :: LandsAt(events, n) ==> n in at)
  }

  lemma StepPuts(s: System, e: Event) returns (row: Row)
    ensures Step(s, e).rows == if StepLands(s, e) then s.rows + [row] else s.rows
    ensures StepLands(s, e) ==> Puts(s, e, row)
  {
    row := Row("", "", "");
    if StepLands(s, e) {
      row := Step(s, e).rows[|s.rows|];
    }
  }

  lemma BeforeLast(events: seq<Event>, n: nat, row: Row)
    requires events != []
    ensures n < |events| - 1 ==>
              && (LandsAt(events, n) <==> LandsAt(events[..|events| - 1], n))
              && (PutsAt(events, n, row) <==> PutsAt(events[..|events| - 1], n, row))
  {
    var init := events[..|events| - 1];
    assert n < |init| ==> init[..n] == events[..n] && init[n] == events[n];
  }

  lemma TracedSkip(events: seq<Event>, rows: seq<Row>, at: seq<nat>)
    requires events != [] && Traced(events[..|events| - 1], rows, at) && !LandsAt(events, |events| - 1)
    ensures Traced(events, rows, at)
  {
    forall n: nat | LandsAt(events, n) ensures n in at {
      BeforeLast(events, n, Row("", "", ""));
    }
    forall k | 0 <= k < |at| ensures PutsAt(events, at[k], rows[k]) {
      BeforeLast(events, at[k], rows[k]);
    }
  }

  lemma TracedMore(events: seq<Event>, rows: seq<Row>, at: seq<nat>, row: Row)
    requires events != [] && Traced(events[..|events| - 1], rows, at) && PutsAt(events, |events| - 1, row)
    ensures Traced(events, rows + [row], at + [|events| - 1])
  {
    var more, all := at + [|events| - 1], rows + [row];
    forall n: nat | LandsAt(events, n) ensures n in more {
      BeforeLast(events, n, row);
      assert n == |events| - 1 ==> more[|at|] == n;
    }
    forall k | 0 <= k < |more| ensures PutsAt(events, more[k], all[k]) {
      BeforeLast(events, more[k], all[k]);
    }
  }

  lemma TableStep(events: seq<Event>, before: seq<nat>) returns (at: seq<nat>)
    requires events != [] && Traced(events[..|events| - 1], After(EMPTY, events[..|events| - 1]).rows, before)
    ensures Traced(events, After(EMPTY, events).rows, at)
  {
    var s, n := After(EMPTY, events[..|events| - 1]), |events| - 1;
    var row := StepPuts(s, events[n]);
    if LandsAt(events, n) {
      at := before + [n];
      TracedMore(events, s.rows, before, row);
    } else {
      at := before;
      TracedSkip(events, s.rows, before);
    }
  }

  /** The table in every run, under any failures and restarts: exactly one row for each insert
      that landed, in that order, with the id and the employee of the message handled then and the
      unit its own lookup gave. */
  lemma {:induction false} TableIsExact(events: seq<Event>) returns (at: seq<nat>)
    ensures Traced(events, After(EMPTY, events).rows, at)
    decreases |events|
  {
    if events == [] {
      at := [];
    } else {
      var before := TableIsExact(events[..|events| - 1]);
      at := TableStep(events, before);
    }
  }

  /** What is committed after a message is handled: an undecodable one always, a swipe only if its
      ids parse and the insert reports success, whatever landed. */
  lemma CommitsExactly(s: System, lookup: Lookup, insert: Insert)
    requires Handles(s, Process(lookup, insert))
    ensures var o, t := s.reader.phase.offset, After(s, [Process(lookup, insert), Commit(true)]);
            && t.reader.phase.Idle? && t.reader.position == s.reader.position
            && t.reader.stashed == (if s.log[o].Garbage? || (s.log[o].wellFormed && insert.Inserted?) then o + 1
                                    else s.reader.stashed)
  {
    Runs.AfterTwo(Step, s, Process(lookup, insert), Commit(true));
  }

  // ---------------------------------------------------------------------------
  // A skipped message is lost for good.
  // ---------------------------------------------------------------------------

  /** A message that can put a row with this id into the table. */
  predicate Storable(msg: Message, id: string) {
    Carries(msg, id) && msg.wellFormed
  }

  /** No message at the committed offset or beyond can store `id`. */
  ghost predicate OnlyBelowCommit(s: System, id: string) {
    forall i :: s.reader.committed <= i < |s.log| ==> !Storable(s.log[i], id)
  }

  predicate NeverProduced(events: seq<Event>, id: string) {
    forall e <- events :: e.Produce? ==> !Storable(e.msg, id)
  }

  lemma {:induction false} LostForGood(s: System, events: seq<Event>, id: string)
    requires Inv(s) && !IsStored(s.rows, id)
    requires OnlyBelowCommit(s, id) && NeverProduced(events, id)
    ensures var t := After(s, events);
            !IsStored(t.rows, id) && OnlyBelowCommit(t, id) && t.reader.committed >= s.reader.committed
    decreases |events|
  {
    if events != [] {
      var init, e := events[..|events| - 1], events[|events| - 1];
      assert e in events;
      LostForGood(s, init, id);
      RunKeepsInv(s, init);
      StaysLost(After(s, init), e, id);
    }
  }

  lemma StaysLost(m: System, e: Event, id: string)
    requires Inv(m) && !IsStored(m.rows, id) && OnlyBelowCommit(m, id) && (e.Produce? ==> !Storable(e.msg, id))
    ensures var t := Step(m, e);
            !IsStored(t.rows, id) && OnlyBelowCommit(t, id) && t.reader.committed >= m.reader.committed
  {
    if e.Process? && m.reader.phase.Fetched? {
      var o := m.reader.phase.offset;
      assert !Storable(m.log[o], id);
      if Lands(m.log[o], e.insert) {
        StoredSnoc(m.rows, Row(m.log[o].id, m.log[o].employee, OrgFor(e.lookup)), id);
      }
    }
  }

  /** The reading of n messages from the read position, each insert a success. */
  function ReadOn(n: nat): seq<Event> {
    if n == 0 then [] else ReadOn(n - 1) + [Fetch, Process(Missing, Inserted), Commit(false)]
  }

  lemma ReadOne(s: System)
    requires Inv(s) && s.reader.phase.Idle? && s.reader.position < |s.log|
    ensures var t := After(s, [Fetch, Process(Missing, Inserted), Commit(false)]);
            && t.log == s.log && t.reader.phase.Idle? && t.reader.position == s.reader.position + 1
            && (forall id :: IsStored(t.rows, id) <==> IsStored(s.rows, id) || Storable(s.log[s.reader.position], id))
  {
    Runs.AfterThree(Step, s, Fetch, Process(Missing, Inserted), Commit(false));
    var msg := s.log[s.reader.position];
    var u := Step(Step(s, Fetch), Process(Missing, Inserted));
    assert u.rows == Stored(s.rows, msg, Missing, Inserted);
    if Lands(msg, Inserted) {
      forall id ensures IsStored(u.rows, id) <==> IsStored(s.rows, id) || Storable(msg, id) {
        StoredSnoc(s.rows, Row(msg.id, msg.employee, OrgFor(Missing)), id);
      }
    }
  }

  lemma {:induction false} ReadOnStores(s: System, n: nat)
    requires Inv(s) && s.reader.phase.Idle? && s.reader.position + n <= |s.log|
    ensures var t := After(s, ReadOn(n));
            && Inv(t) && t.log == s.log && t.reader.phase.Idle? && t.reader.position == s.reader.position + n
            && forall i, id ::
                s.reader.position <= i < s.reader.position + n && Storable(s.log[i], id) ==> IsStored(t.rows, id)
  {
    if n > 0 {
      ReadOnStores(s, n - 1);
      var m := After(s, ReadOn(n - 1));
      RunKeepsInv(s, ReadOn(n));
      Runs.AfterConcat(Step, s, ReadOn(n - 1), [Fetch, Process(Missing, Inserted), Commit(false)]);
      ReadOne(m);
    }
  }

  lemma ReadOnProducesNothing(n: nat, id: string)
    ensures NeverProduced(ReadOn(n), id)
  {
    if n > 0 {
      ReadOnProducesNothing(n - 1, id);
    }
  }

  /** The continuation that repairs a skipped message: a restart before its offset is passed by
      the committed one. */
  lemma StillReachable(s: System, id: string, i: nat) returns (events: seq<Event>)
    requires Inv(s) && s.reader.committed <= i < |s.log| && Storable(s.log[i], id)
    ensures NeverProduced(events, id) && IsStored(After(s, events).rows, id)
  {
    var n := i + 1 - s.reader.committed;
    events := [Restart] + ReadOn(n);
    Runs.AfterConcat(Step, s, [Restart], ReadOn(n));
    Runs.AfterSnoc(Step, s, [], Restart);
    assert [] + [Restart] == [Restart];
    var r := Step(s, Restart);
    StepKeepsInv(s, Restart);
    ReadOnStores(r, n);
    assert Storable(r.log[i], id);
    ReadOnProducesNothing(n, id);
  }

  /** Exactly when is an event lost: from a reachable state no continuation that does not
      produce it anew can store it if and only if it is not stored and no well-formed message
      that carries it lies at the committed offset or beyond. */
  lemma LostExactly(init: seq<Event>, id: string)
    ensures var s := After(EMPTY, init);
            (forall events :: NeverProduced(events, id) ==> !IsStored(After(s, events).rows, id))
            <==> !IsStored(s.rows, id) && OnlyBelowCommit(s, id)
  {
    var s := After(EMPTY, init);
    RunKeepsInv(EMPTY, init);
    if !IsStored(s.rows, id) && OnlyBelowCommit(s, id) {
      forall events | NeverProduced(events, id) ensures !IsStored(After(s, events).rows, id) {
        LostForGood(s, events, id);
      }
    } else if IsStored(s.rows, id) {
      assert NeverProduced([], id) && After(s, []) == s;
    } else {
      var i :| s.reader.committed <= i < |s.log| && Storable(s.log[i], id);
      var events := StillReachable(s, id, i);
    }
  }

  function SkipFirst(lookup: Lookup): seq<Event> {
    [Fetch, Process(lookup, InsertFailed(false))] + [Fetch, Process(lookup, Inserted), Commit(true)] + [Flush, Restart]
  }

  lemma SkipFirstRun(s: System, a: Message, b: Message, lookup: Lookup)
    requires a.Swipe? && b.Swipe? && b.wellFormed && s == EMPTY.(log := [a, b])
    ensures After(s, SkipFirst(lookup)) ==
            System([a, b], Reader(2, 2, 2, Idle), [Row(b.id, b.employee, OrgFor(lookup))], {0}, {1}, 2)
  {
    var skip, take := [Fetch, Process(lookup, InsertFailed(false))], [Fetch, Process(lookup, Inserted), Commit(true)];
    Runs.AfterConcat(Step, s, skip + take, [Flush, Restart]);
    Runs.AfterConcat(Step, s, skip, take);
    Runs.AfterTwo(Step, s, Fetch, Process(lookup, InsertFailed(false)));
    var s1 := System([a, b], Reader(1, 0, 0, Idle), [], {0}, {}, 1);
    assert After(s, skip) == s1;
    Runs.AfterThree(Step, s1, Fetch, Process(lookup, Inserted), Commit(true));
    var s2 := System([a, b], Reader(2, 2, 0, Idle), [Row(b.id, b.employee, OrgFor(lookup))], {0}, {1}, 2);
    assert After(s1, take) == s2;
    Runs.AfterTwo(Step, s2, Flush, Restart);
  }

  /** One failed insert followed by one committed success: the first event is below the
      committed offset, unstored, and stays so in every continuation. */
  lemma SkippedSwipeStaysLost(a: Message, b: Message, lookup: Lookup, events: seq<Event>)
    requires a.Swipe? && b.Swipe? && b.wellFormed && a.id != b.id && NeverProduced(events, a.id)
    ensures var s := After(EMPTY, [Produce(a), Produce(b)] + SkipFirst(lookup));
            s.reader.committed == |s.log| && !IsStored(After(s, events).rows, a.id)
  {
    Runs.AfterConcat(Step, EMPTY, [Produce(a), Produce(b)], SkipFirst(lookup));
    Runs.AfterTwo(Step, EMPTY, Produce(a), Produce(b));
    assert After(EMPTY, [Produce(a), Produce(b)]) == EMPTY.(log := [a, b]);
    SkipFirstRun(EMPTY.(log := [a, b]), a, b, lookup);
    var s := After(EMPTY, [Produce(a), Produce(b)] + SkipFirst(lookup));
    RunKeepsInv(EMPTY, [Produce(a), Produce(b)] + SkipFirst(lookup));
    assert !HasId(s.rows[0], a.id);
    LostForGood(s, events, a.id);
  }

  // ---------------------------------------------------------------------------
  // Without restarts, exactly once and in order.
  // ---------------------------------------------------------------------------

  function IdsUpTo(log: seq<Message>, n: nat): seq<string>
    requires n <= |log|
  {
    if n == 0 then [] else IdsUpTo(log, n - 1) + (if log[n - 1].Swipe? then [log[n - 1].id] else [])
  }

  function RowIds(rows: seq<Row>): seq<string> {
    seq(|rows|, k requires 0 <= k < |rows| => rows[k].id)
  }

  lemma {:induction false} IdsUpToPrefix(log: seq<Message>, more: seq<Message>, n: nat)
    requires n <= |log|
    ensures IdsUpTo(log + more, n) == IdsUpTo(log, n)
  {
    if n > 0 {
      IdsUpToPrefix(log, more, n - 1);
    }
  }

  /** If nothing fails and nothing restarts, the table holds each decodable message read so
      far exactly once, in log order. */
  lemma {:induction false} ExactlyOnceWithoutRestart(events: seq<Event>)
    requires NoFailedInsert([], events) && forall e <- events :: !e.Restart?
    ensures var s := After(EMPTY, events);
            Next(s.reader) <= |s.log| && RowIds(s.rows) == IdsUpTo(s.log, Next(s.reader))
    decreases |events|
  {
    if events != [] {
      var init, e := events[..|events| - 1], events[|events| - 1];
      assert e in events;
      ExactlyOnceWithoutRestart(init);
      RunKeepsInv(EMPTY, init);
      NothingRefused(EMPTY, init);
      StepStoresOnce(After(EMPTY, init), e);
    }
  }

  /** One step without failure or restart. */
  lemma StepStoresOnce(s: System, e: Event)
    requires Inv(s) && RowIds(s.rows) == IdsUpTo(s.log, Next(s.reader))
    requires forall m <- s.log :: m.Swipe? ==> m.wellFormed
    requires !e.Restart? && (e.Process? ==> e.insert.Inserted?)
    ensures var t := Step(s, e); Next(t.reader) <= |t.log| && RowIds(t.rows) == IdsUpTo(t.log, Next(t.reader))
  {
    var t := Step(s, e);
    match e
    case Produce(msg) => IdsUpToPrefix(s.log, [msg], Next(s.reader));
    case Process(_, _) =>
      if s.reader.phase.Fetched? {
        var o := s.reader.phase.offset;
        assert s.log[o] in s.log;
        assert RowIds(t.rows) == RowIds(s.rows) + (if s.log[o].Swipe? then [s.log[o].id] else []);
      }
    case _ =>
  }

  // ---------------------------------------------------------------------------
  // The worker's loop.
  // ---------------------------------------------------------------------------

  datatype Turn = FetchError | Turn(lookup: Lookup, insert: Insert, commitAccepted: bool)

  function TurnEvents(turn: Turn): seq<Event> {
    match turn
    case FetchError => []
    case Turn(lookup, insert, accepted) => [Fetch, Process(lookup, insert), Commit(accepted)]
  }

  function AllEvents(turns: seq<Turn>): seq<Event>
    decreases |turns|
  {
    if turns == [] then [] else AllEvents(turns[..|turns| - 1]) + TurnEvents(turns[|turns| - 1])
  }

  class Worker {
    var log: seq<Message>
    var reader: Reader
    var rows: seq<Row>
    ghost var refused: set<nat>
    ghost var landed: set<nat>
    ghost var high: nat

    ghost function View(): System
      reads this
    {
      System(log, reader, rows, refused, landed, high)
    }

    constructor (log: seq<Message>)
      ensures View() == EMPTY.(log := log)
    {
      this.log, this.reader, this.rows := log, START, [];
      this.refused, this.landed, this.high := {}, {}, 0;
    }

    /** The unit stored with a swipe. */
    method ResolveOrg(lookup: Lookup) returns (org: string)
      ensures org == OrgFor(lookup)
    {
      org := match lookup
        case Found(unit) => unit
        case Missing => ""
        case LookupFailed => ZERO_ORG;
      if !lookup.LookupFailed? && org == "" {
        org := ROOT_ORG;
      }
    }

    /** The Insert of a decoded message; one with a malformed id fails, and a failed write may
        have landed. */
    method InsertEvent(o: nat, org: string, insert: Insert) returns (ok: bool)
      requires o < |log| && log[o].Swipe?
      modifies this`rows, this`landed, this`refused
      ensures ok == (log[o].wellFormed && insert.Inserted?)
      ensures var lands := log[o].wellFormed && (insert.Inserted? || insert.landed);
              && rows == (if lands then old(rows) + [Row(log[o].id, log[o].employee, org)] else old(rows))
              && landed == (if lands then old(landed) + {o} else old(landed))
      ensures refused == if ok then old(refused) else old(refused) + {o}
    {
      var msg := log[o];
      if msg.wellFormed && (insert.Inserted? || insert.landed) {
        rows := rows + [Row(msg.id, msg.employee, org)];
        landed := landed + {o};
      }
      ok := msg.wellFormed && insert.Inserted?;
      if !ok {
        refused := refused + {o};
      }
    }

    method ProcessMessage(lookup: Lookup, insert: Insert, commitAccepted: bool)
      requires reader.phase.Fetched? && reader.phase.offset < |log|
      modifies this
      ensures View() == Step(Step(old(View()), Process(lookup, insert)), Commit(commitAccepted))
      ensures reader.phase.Idle?
    {
      var o := reader.phase.offset;
      var msg := log[o];
      high := if o + 1 > high then o + 1 else high;
      if msg.Garbage? {
        reader := CommitHandled(Finish(reader, true), commitAccepted);
        return;
      }
      var org := ResolveOrg(lookup);
      var ok := InsertEvent(o, org, insert);
      if !ok {
        reader := Finish(reader, false);
        return;
      }
      reader := CommitHandled(Finish(reader, true), commitAccepted);
    }

    /** One iteration of the loop. */
    method TakeTurn(turn: Turn)
      requires reader.phase.Idle?
      modifies this
      ensures View() == After(old(View()), TurnEvents(turn)) && reader.phase.Idle?
      ensures turn.FetchError? || old(reader.position) >= |log| ==> reader == old(reader) && rows == old(rows)
      ensures turn.Turn? && old(reader.position) < |log| ==>
                var (o, msg) := (old(reader.position), log[old(reader.position)]);
                && reader.position == o + 1 && reader.committed == old(reader.committed)
                && reader.stashed == (if turn.commitAccepted
                                         && (msg.Garbage? || (msg.wellFormed && turn.insert.Inserted?))
                                      then o + 1 else old(reader.stashed))
    {
      if turn.FetchError? {
        return;
      }
      Runs.AfterThree(Step, View(), Fetch, Process(turn.lookup, turn.insert), Commit(turn.commitAccepted));
      if reader.position < |log| {
        reader := FetchNext(reader, |log|);
        ProcessMessage(turn.lookup, turn.insert, turn.commitAccepted);
      }
    }

    /** The endless loop for as many turns as the environment grants; a fetch at the end of the
        log blocks, which here is a turn that does nothing. */
    method Run(turns: seq<Turn>)
      requires reader.phase.Idle?
      modifies this
      ensures View() == After(old(View()), AllEvents(turns)) && reader.phase.Idle?
    {
      ghost var start := View();
      for i := 0 to |turns|
        invariant View() == After(start, AllEvents(turns[..i])) && reader.phase.Idle?
      {
        assert turns[..i + 1][..i] == turns[..i];
        Runs.AfterConcat(Step, start, AllEvents(turns[..i]), TurnEvents(turns[i]));
        TakeTurn(turns[i]);
      }
      assert turns[..|turns|] == turns;
    }
  }
}
