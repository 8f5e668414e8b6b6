/** The outbox file as the events it holds, for any disk: whole lines, and possibly a torn last
    line without a newline, which the next append continues
    (access-api/internal/queue/outbox.go). A line too long for the scanner counts as held,
    although Replay gives up on it. */
module Spool {
  import opened Options
  import opened Events
  import opened Counting
  import opened Outbox

  /** `tail` holds what the torn line decodes to, at most one event. */
  datatype Shelf = Shelf(lines: seq<InOutEvent>, tail: seq<InOutEvent>, torn: bool)

  const EMPTY: Shelf := Shelf([], [], false)

  function Held(shelf: Shelf): seq<InOutEvent> {
    shelf.lines + shelf.tail
  }

  // ---------------------------------------------------------------------------
  // Appends and rewrites of a shelf.
  // ---------------------------------------------------------------------------

  /** What became of one append: nothing was written; the line is torn and decodes to `found`;
      or the line is complete, where `found` is what it decodes to if it continues a torn one,
      and `ok` says whether the append reports success. */
  datatype AppendFate = Refused | LeftTorn(found: seq<InOutEvent>) | Finished(found: seq<InOutEvent>, ok: bool)

  /** The shelf after an operation and its result. `spoiled` are the events that can no longer
      be found, `extra` those that can be found although no append that succeeded wrote them. */
  datatype Change = Change(shelf: Shelf, ok: bool, spoiled: seq<InOutEvent>, extra: seq<InOutEvent>)

  function Put(shelf: Shelf, e: InOutEvent, fate: AppendFate): Change {
    match fate
    case Refused => Change(shelf, false, [], [])
    case LeftTorn(found) => Change(Shelf(shelf.lines, found, true), false, shelf.tail, found)
    case Finished(found, ok) =>
      if shelf.torn then Change(Shelf(shelf.lines + found, [], false), ok, shelf.tail + (if ok then [e] else []), found)
      else Change(Shelf(shelf.lines + [e], [], false), ok, [], if ok then [] else [e])
  }

  /** What became of a rewrite: the file holds what it was given; it could not be replaced; or
      it holds the first `lines` events and a torn line that decodes to `found`. */
  datatype RewriteFate = Kept | Untouched | Broken(lines: nat, found: seq<InOutEvent>, torn: bool)

  function Rewrite(shelf: Shelf, still: seq<InOutEvent>, fate: RewriteFate): Change {
    match fate
    case Kept => Change(Shelf(still, [], false), true, [], [])
    case Untouched => Change(shelf, false, [], [])
    case Broken(lines, found, torn) =>
      var n, left := Upto(lines, |still|), if torn then found else [];
      Change(Shelf(still[..n], left, torn), false, still[n..], left)
  }

  /** An append moves its event onto the shelf, except for what it spoils and uncovers. */
  lemma PutBalances(shelf: Shelf, e: InOutEvent, fate: AppendFate, c: Measure)
    requires Additive(c) && (!shelf.torn ==> shelf.tail == [])
    ensures var put := Put(shelf, e, fate);
            && c(Held(put.shelf)) + c(put.spoiled) == c(Held(shelf)) + c(put.extra) + (if put.ok then c([e]) else 0)
            && (!put.shelf.torn ==> put.shelf.tail == [])
  {
    assert shelf.lines + [] == shelf.lines;
    if fate.Finished? {
      assert shelf.lines + fate.found + [] == shelf.lines + fate.found && shelf.lines + [e] + [] == shelf.lines + [e];
      assert shelf.tail + [] == shelf.tail;
    }
  }

  /** A rewrite replaces the shelf by what remains, except for what a broken one spoils. */
  lemma RewriteBalances(shelf: Shelf, still: seq<InOutEvent>, fate: RewriteFate, c: Measure)
    requires Additive(c) && !fate.Untouched?
    ensures var rewrite := Rewrite(shelf, still, fate);
            c(Held(rewrite.shelf)) + c(rewrite.spoiled) == c(still) + c(rewrite.extra)
  {
    assert still + [] == still;
    if fate.Broken? {
      MeasureSplit(c, still, Upto(fate.lines, |still|));
    }
  }

  // ---------------------------------------------------------------------------
  // The shelf of a file.
  // ---------------------------------------------------------------------------

  /** The bytes behind the first line. */
  function Rest(data: Bytes): (rest: Bytes)
    requires data != []
    ensures |rest| < |data|
  {
    if LineEnd(data) < |data| then data[LineEnd(data) + 1..] else []
  }

  /** All lines, whatever their length. */
  function Split(data: Bytes): seq<Bytes>
    decreases |data|
  {
    if data == [] then [] else [DropReturn(data[..LineEnd(data)])] + Split(Rest(data))
  }

  lemma ScanStep(data: Bytes)
    requires data != []
    ensures Scan(data) == if LineEnd(data) >= MAX_TOKEN then TooLong
            else Before(DropReturn(data[..LineEnd(data)]), Scan(Rest(data)))
  {
  }

  lemma {:induction false} ScanIsSplit(data: Bytes)
    ensures Scan(data).Lines? ==> Scan(data) == Lines(Split(data))
    decreases |data|
  {
    if data != [] && Scan(data).Lines? {
      ScanStep(data);
      ScanIsSplit(Rest(data));
      BeforeLines(DropReturn(data[..LineEnd(data)]), Scan(Rest(data)), Split(Rest(data)));
    }
  }

  lemma BeforeLines(line: Bytes, rest: Scanned, lines: seq<Bytes>)
    requires rest.Lines? ==> rest == Lines(lines)
    ensures Before(line, rest).Lines? ==> Before(line, rest) == Lines([line] + lines)
  {
  }

  lemma SplitFirst(data: Bytes, i: nat)
    requires i < |data| && NEWLINE !in data[..i] && data[i] == NEWLINE
    ensures Split(data) == [DropReturn(data[..i])] + Split(data[i + 1..])
  {
    LineEndIs(data, i);
  }

  lemma {:induction false} SplitConcat(a: Bytes, b: Bytes)
    requires WholeLines(a)
    ensures Split(a + b) == Split(a) + Split(b)
    decreases |a|
  {
    if a == [] {
      assert a + b == b && [] + Split(b) == Split(b);
    } else {
      LastIsNewline(a);
      var i := LineEnd(a);
      var rest, first := a[i + 1..], DropReturn(a[..i]);
      assert (a + b)[..i] == a[..i] && (a + b)[i + 1..] == rest + b && WholeLines(rest);
      assert Split(a) == [first] + Split(rest) by {
        SplitFirst(a, i);
      }
      assert Split(a + b) == [first] + Split(rest + b) by {
        SplitFirst(a + b, i);
      }
      SplitConcat(rest, b);
      Groups([first], Split(rest), Split(b));
    }
  }

  lemma Groups(a: seq<Bytes>, b: seq<Bytes>, c: seq<Bytes>)
    ensures a + (b + c) == a + b + c
  {
  }

  lemma SplitOne(raw: Bytes)
    requires NEWLINE !in raw
    ensures Split(raw) == if raw == [] then [] else [DropReturn(raw)]
    ensures Split(raw + [NEWLINE]) == [DropReturn(raw)]
  {
    var data := raw + [NEWLINE];
    assert data[..|raw|] == raw && data[|raw| + 1..] == [];
    LineEndIs(data, |raw|);
    if raw != [] {
      assert raw[..|raw|] == raw;
      LineEndIs(raw, |raw|);
    }
  }

  /** Where the torn line begins. */
  function WholePart(data: Bytes): (k: nat)
    ensures k <= |data| && WholeLines(data[..k]) && NEWLINE !in data[k..]
    decreases |data|
  {
    if WholeLines(data) then assert data[..|data|] == data; |data|
    else
      var k := WholePart(data[..|data| - 1]);
      assert data[..|data| - 1][..k] == data[..k];
      assert data[k..] == data[..|data| - 1][k..] + [data[|data| - 1]];
      k
  }

  function Data(file: Option<Bytes>): Bytes {
    if file.Some? then file.value else []
  }

  function ShelfOfBytes(codec: Codec, whole: Bytes, tail: Bytes): Shelf {
    Shelf(Pending(codec, Split(whole)), Decoded(codec, tail), tail != [])
  }

  function ShelfOf(codec: Codec, file: Option<Bytes>): Shelf {
    var data := Data(file);
    ShelfOfBytes(codec, data[..WholePart(data)], data[WholePart(data)..])
  }

  lemma {:induction false} WholePartIs(whole: Bytes, tail: Bytes)
    requires WholeLines(whole) && NEWLINE !in tail
    ensures WholePart(whole + tail) == |whole| && (whole + tail)[..|whole|] == whole
            && (whole + tail)[|whole|..] == tail
    decreases |tail|
  {
    var data := whole + tail;
    if tail == [] {
      assert data == whole;
    } else {
      assert data[|data| - 1] == tail[|tail| - 1];
      assert data[..|data| - 1] == whole + tail[..|tail| - 1];
      WholePartIs(whole, tail[..|tail| - 1]);
    }
  }

  lemma ShelfOfIs(codec: Codec, whole: Bytes, tail: Bytes)
    requires WholeLines(whole) && NEWLINE !in tail
    ensures ShelfOf(codec, Some(whole + tail)) == ShelfOfBytes(codec, whole, tail)
  {
    WholePartIs(whole, tail);
  }

  /** A readable file shows its shelf. */
  lemma ShelfShows(codec: Codec, file: Option<Bytes>)
    ensures Contents(codec, file).Some? ==> Contents(codec, file).value == Held(ShelfOf(codec, file))
    ensures !ShelfOf(codec, file).torn ==> ShelfOf(codec, file).tail == []
  {
    var data := Data(file);
    var whole, tail := data[..WholePart(data)], data[WholePart(data)..];
    if Contents(codec, file).Some? && file.Some? {
      assert data == whole + tail;
      ScanIsSplit(data);
      SplitConcat(whole, tail);
      SplitOne(tail);
      PendingConcat(codec, Split(whole), Split(tail));
      DecodedIsPending(codec, tail);
    }
  }

  // ---------------------------------------------------------------------------
  // The file operations are the shelf operations.
  // ---------------------------------------------------------------------------

  function TornLine(file: Option<Bytes>): Bytes {
    Data(file)[WholePart(Data(file))..]
  }

  function Reaching(disk: AppendDisk, length: nat): nat {
    if disk.Torn? then Upto(disk.count, length) else length
  }

  /** What became of the first n bytes of a body and its newline behind a torn line. */
  function FateBytes(codec: Codec, tail: Bytes, body: Bytes, n: nat, ok: bool): AppendFate {
    if n == 0 then Refused
    else if n <= |body| then LeftTorn(Decoded(codec, tail + body[..n]))
    else Finished(Decoded(codec, tail + body), ok)
  }

  function FateOf(codec: Codec, file: Option<Bytes>, e: InOutEvent, disk: AppendDisk): AppendFate {
    if disk.CannotOpen? || codec.marshal(e).None? then Refused
    else
      var body := codec.marshal(e).value;
      FateBytes(codec, TornLine(file), body, Reaching(disk, |body| + 1), disk.Written?)
  }

  lemma AppendedBytes(codec: Codec, file: Option<Bytes>, e: InOutEvent, disk: AppendDisk)
    requires !disk.CannotOpen? && codec.marshal(e).Some?
    ensures var line := codec.marshal(e).value + [NEWLINE];
            Appended(codec, file, e, disk) == (Some(Data(file) + line[..Reaching(disk, |line|)]), disk.Written?)
  {
    var line := codec.marshal(e).value + [NEWLINE];
    assert line[..|line|] == line;
  }

  /** A line completed behind whole lines. */
  lemma FinishedLine(codec: Codec, whole: Bytes, raw: Bytes)
    requires WholeLines(whole) && NEWLINE !in raw
    ensures ShelfOf(codec, Some(whole + (raw + [NEWLINE])))
            == Shelf(Pending(codec, Split(whole)) + Decoded(codec, raw), [], false)
  {
    var data := whole + (raw + [NEWLINE]);
    assert data + [] == data && WholeLines(data);
    ShelfOfIs(codec, data, []);
    assert Split(data) == Split(whole) + [DropReturn(raw)] by {
      SplitConcat(whole, raw + [NEWLINE]);
      SplitOne(raw);
    }
    PendingConcat(codec, Split(whole), [DropReturn(raw)]);
    PendingOne(codec, DropReturn(raw));
  }

  lemma TornAppend(codec: Codec, file: Option<Bytes>, whole: Bytes, tail: Bytes, part: Bytes)
    requires Data(file) == whole + tail && WholeLines(whole) && NEWLINE !in tail && NEWLINE !in part
    ensures ShelfOf(codec, Some(Data(file) + part)) == ShelfOfBytes(codec, whole, tail + part)
  {
    assert Data(file) + part == whole + (tail + part);
    ShelfOfIs(codec, whole, tail + part);
  }

  lemma FinishedAppend(codec: Codec, file: Option<Bytes>, whole: Bytes, tail: Bytes, body: Bytes)
    requires Data(file) == whole + tail && WholeLines(whole) && NEWLINE !in tail && NEWLINE !in body
    ensures ShelfOf(codec, Some(Data(file) + (body + [NEWLINE])))
            == Shelf(Pending(codec, Split(whole)) + Decoded(codec, tail + body), [], false)
  {
    assert Data(file) + (body + [NEWLINE]) == whole + ((tail + body) + [NEWLINE]);
    FinishedLine(codec, whole, tail + body);
  }

  lemma OwnLine(codec: Codec, e: InOutEvent)
    requires Faithful(codec) && codec.marshal(e).Some?
    ensures OneLine(codec.marshal(e).value) && Decoded(codec, codec.marshal(e).value) == [e]
            && [] + codec.marshal(e).value == codec.marshal(e).value
  {
    assert DropReturn(codec.marshal(e).value) == codec.marshal(e).value;
  }

  lemma RefusedAppend(codec: Codec, file: Option<Bytes>, e: InOutEvent, disk: AppendDisk)
    requires disk.CannotOpen? || codec.marshal(e).None?
    ensures ShelfOf(codec, Appended(codec, file, e, disk).0) == ShelfOf(codec, file)
            && !Appended(codec, file, e, disk).1
  {
  }

  lemma AnsweredAppend(codec: Codec, file: Option<Bytes>, e: InOutEvent, disk: AppendDisk)
    requires Faithful(codec) && !disk.CannotOpen? && codec.marshal(e).Some?
    ensures ShelfOf(codec, Appended(codec, file, e, disk).0)
            == Put(ShelfOf(codec, file), e, FateOf(codec, file, e, disk)).shelf
  {
    var body := codec.marshal(e).value;
    OwnLine(codec, e);
    AppendedBytes(codec, file, e, disk);
    BytesRefine(codec, file, Data(file)[..WholePart(Data(file))], TornLine(file), body, e, Reaching(disk, |body| + 1),
                disk.Written?);
  }

  /** An append to the file is an append to its shelf, on any disk. */
  lemma AppendRefines(codec: Codec, file: Option<Bytes>, e: InOutEvent, disk: AppendDisk)
    requires Faithful(codec)
    ensures var (after, ok) := Appended(codec, file, e, disk);
            var c := Put(ShelfOf(codec, file), e, FateOf(codec, file, e, disk));
            ShelfOf(codec, after) == c.shelf && ok == c.ok
  {
    if disk.CannotOpen? || codec.marshal(e).None? {
      RefusedAppend(codec, file, e, disk);
    } else {
      AnsweredAppend(codec, file, e, disk);
      AppendedBytes(codec, file, e, disk);
      assert Put(ShelfOf(codec, file), e, FateOf(codec, file, e, disk)).ok == disk.Written? by {
        assert Reaching(disk, |codec.marshal(e).value| + 1) <= |codec.marshal(e).value| + 1;
      }
    }
  }

  /** Exactly when does an append behind whole lines leave its event to be found: if the line was
      written, or at least as much of it as decodes to the event, whatever the append reports. */
  lemma AppendKeepsExactly(codec: Codec, file: Option<Bytes>, e: InOutEvent, disk: AppendDisk)
    requires Faithful(codec) && codec.marshal(e).Some? && TornLine(file) == []
    ensures Held(ShelfOf(codec, Appended(codec, file, e, disk).0)) == Held(ShelfOf(codec, file)) + [e]
            <==> disk.Written? || (disk.Torn? && Decoded(codec, Fragment(codec, e, disk.count)) == [e])
  {
    var shelf, fate := ShelfOf(codec, file), FateOf(codec, file, e, disk);
    ShelfShows(codec, file);
    AppendRefines(codec, file, e, disk);
    OwnLine(codec, e);
    PutAdds(shelf, e, fate);
    FateAdds(codec, file, e, disk);
    SameBehind(Held(shelf), Added(fate, e), [e]);
  }

  /** What an append puts behind whole lines. */
  function Added(fate: AppendFate, e: InOutEvent): seq<InOutEvent> {
    match fate case Refused => [] case LeftTorn(found) => found case Finished(_, _) => [e]
  }

  lemma PutAdds(shelf: Shelf, e: InOutEvent, fate: AppendFate)
    requires !shelf.torn && shelf.tail == []
    ensures Held(Put(shelf, e, fate).shelf) == Held(shelf) + Added(fate, e)
  {
  }

  lemma FateAdds(codec: Codec, file: Option<Bytes>, e: InOutEvent, disk: AppendDisk)
    requires codec.marshal(e).Some? && Decoded(codec, codec.marshal(e).value) == [e] && TornLine(file) == []
    ensures Added(FateOf(codec, file, e, disk), e) ==
              match disk case CannotOpen =>
                  [] case Written => [e] case Torn(count) => Decoded(codec, Fragment(codec, e, count))
  {
    if !disk.CannotOpen? {
      var body := codec.marshal(e).value;
      BytesAdd(codec, body, Reaching(disk, |body| + 1), disk.Written?, e);
      assert disk.Torn? ==> Upto(Reaching(disk, |body| + 1), |body|) == Upto(disk.count, |body|);
      assert body[..|body|] == body;
    }
  }

  lemma BytesAdd(codec: Codec, body: Bytes, n: nat, ok: bool, e: InOutEvent)
    requires Decoded(codec, body) == [e]
    ensures Added(FateBytes(codec, [], body, n, ok), e) == Decoded(codec, body[..Upto(n, |body|)])
  {
    assert Decoded(codec, []) == [] && body[..|body|] == body;
    assert n <= |body| ==> [] + body[..n] == body[..n];
  }

  lemma SameBehind<T>(a: seq<T>, b: seq<T>, c: seq<T>)
    ensures a + b == a + c <==> b == c
  {
    if a + b == a + c {
      assert b == (a + b)[|a|..] && c == (a + c)[|a|..];
    }
  }

  /** An append whose write stops right before the newline reports an error, and its event is
      found all the same. */
  lemma UnendedLineIsHeld(codec: Codec, e: InOutEvent)
    requires Faithful(codec) && codec.marshal(e).Some?
    ensures var (after, ok) := Appended(codec, None, e, Torn(|codec.marshal(e).value|));
            !ok && Held(ShelfOf(codec, after)) == [e]
  {
    var body := codec.marshal(e).value;
    assert ShelfOf(codec, None) == EMPTY by {
      assert Data(None)[..0] == [] && Data(None)[0..] == [];
    }
    AppendKeepsExactly(codec, None, e, Torn(|body|));
    assert body[..|body|] == body;
    OwnLine(codec, e);
  }

  lemma BytesRefine(codec: Codec, file: Option<Bytes>, whole: Bytes, tail: Bytes, body: Bytes, e: InOutEvent, n: nat,
                    ok: bool)
    requires Data(file) == whole + tail && WholeLines(whole) && NEWLINE !in tail && NEWLINE !in body && n <= |body| + 1
    requires Decoded(codec, body) == [e] && [] + body == body
    ensures ShelfOf(codec, Some(Data(file) + (body + [NEWLINE])[..n]))
            == Put(ShelfOfBytes(codec, whole, tail), e, FateBytes(codec, tail, body, n, ok)).shelf
  {
    var line := body + [NEWLINE];
    if n == 0 {
      assert Data(file) + line[..0] == Data(file) + [] && tail + [] == tail;
      TornAppend(codec, file, whole, tail, []);
    } else if n <= |body| {
      assert line[..n] == body[..n];
      PartLine(codec, file, whole, tail, body[..n], e);
    } else {
      assert line[..n] == line;
      EndedLine(codec, file, whole, tail, body, e, ok);
    }
  }

  lemma PartLine(codec: Codec, file: Option<Bytes>, whole: Bytes, tail: Bytes, part: Bytes, e: InOutEvent)
    requires Data(file) == whole + tail && WholeLines(whole) && NEWLINE !in tail && NEWLINE !in part && part != []
    ensures ShelfOf(codec, Some(Data(file) + part))
            == Put(ShelfOfBytes(codec, whole, tail), e, LeftTorn(Decoded(codec, tail + part))).shelf
  {
    TornAppend(codec, file, whole, tail, part);
  }

  lemma EndedLine(codec: Codec, file: Option<Bytes>, whole: Bytes, tail: Bytes, body: Bytes, e: InOutEvent, ok: bool)
    requires Data(file) == whole + tail && WholeLines(whole) && NEWLINE !in tail && NEWLINE !in body
    requires Decoded(codec, body) == [e] && [] + body == body
    ensures ShelfOf(codec, Some(Data(file) + (body + [NEWLINE])))
            == Put(ShelfOfBytes(codec, whole, tail), e, Finished(Decoded(codec, tail + body), ok)).shelf
  {
    FinishedAppend(codec, file, whole, tail, body);
  }

  function RewriteFateOf(codec: Codec, events: seq<InOutEvent>, disk: RewriteDisk): RewriteFate {
    match disk
    case Replaced => Kept
    case CannotReplace => Untouched
    case Breaks(line, count) =>
      if line >= |events| then Kept
      else if codec.marshal(events[line]).Some? && count > |codec.marshal(events[line]).value|
          then Broken(line + 1, [], false)
      else Broken(line, Decoded(codec, Fragment(codec, events[line], count)),
                  Fragment(codec, events[line], count) != [])
  }

  lemma EncodedShelf(codec: Codec, events: seq<InOutEvent>)
    requires Faithful(codec) && forall e <- events :: codec.marshal(e).Some?
    ensures Pending(codec, Split(EncodeAll(codec, events))) == events
  {
    RoundTrip(codec, events);
    ScanIsSplit(EncodeAll(codec, events));
  }

  /** A rewrite of the file is a rewrite of its shelf, on any disk. */
  lemma RewriteRefines(codec: Codec, file: Option<Bytes>, events: seq<InOutEvent>, disk: RewriteDisk)
    requires Faithful(codec) && forall e <- events :: codec.marshal(e).Some?
    ensures var (after, ok) := Rewritten(codec, file, events, disk);
            var c := Rewrite(ShelfOf(codec, file), events, RewriteFateOf(codec, events, disk));
            ShelfOf(codec, after) == c.shelf && ok == c.ok
  {
    if disk.Breaks? && disk.line < |events| {
      BrokenRewrite(codec, file, events, disk);
    } else if !disk.CannotReplace? {
      WholeRewrite(codec, events, disk);
    }
  }

  lemma WholeRewrite(codec: Codec, events: seq<InOutEvent>, disk: RewriteDisk)
    requires Faithful(codec) && (forall e <- events :: codec.marshal(e).Some?) && !disk.CannotReplace?
    requires disk.Breaks? ==> disk.line >= |events|
    ensures forall file ::
            Rewritten(codec, file, events, disk).1
                && ShelfOf(codec, Rewritten(codec, file, events, disk).0) == Shelf(events, [], false)
  {
    var data := EncodeAll(codec, events);
    UnbrokenLines(codec, events, disk, |events|);
    assert events[..|events|] == events;
    RoundTrip(codec, events);
    EncodedShelf(codec, events);
    ShelfOfIs(codec, data, []);
    assert data + [] == data;
  }

  lemma BrokenRewrite(codec: Codec, file: Option<Bytes>, events: seq<InOutEvent>, disk: RewriteDisk)
    requires Faithful(codec) && (forall e <- events :: codec.marshal(e).Some?) && disk.Breaks? && disk.line < |events|
    ensures var (after, ok) := Rewritten(codec, file, events, disk);
            !ok && ShelfOf(codec, after) == Rewrite(ShelfOf(codec, file), events,
                                                    RewriteFateOf(codec, events, disk)).shelf
  {
    var n, e := disk.line, events[disk.line];
    var whole, body := EncodeAll(codec, events[..n]), codec.marshal(e).value;
    var line := body + [NEWLINE];
    assert Rewritten(codec, file, events, disk) == (Some(whole + line[..Upto(disk.count, |line|)]), false) by {
      BrokenLines(codec, events, disk);
    }
    assert WholeLines(whole) && Pending(codec, Split(whole)) == events[..n] by {
      RoundTrip(codec, events[..n]);
      EncodedShelf(codec, events[..n]);
    }
    PartWritten(body, disk.count);
    OwnLine(codec, e);
    BrokenShelf(codec, whole, events, n, body, disk.count);
    BrokenFate(codec, ShelfOf(codec, file), events, disk, body);
  }

  /** The shelf a write that breaks after `count` bytes of line n leaves. */
  function ShelfAfterBreak(codec: Codec, events: seq<InOutEvent>, n: nat, body: Bytes, count: nat): Shelf
    requires n < |events|
  {
    if count > |body| then Shelf(events[..n + 1], [], false)
    else Shelf(events[..n], Decoded(codec, body[..count]), body[..count] != [])
  }

  lemma BrokenShelf(codec: Codec, whole: Bytes, events: seq<InOutEvent>, n: nat, body: Bytes, count: nat)
    requires n < |events| && WholeLines(whole) && Pending(codec, Split(whole)) == events[..n]
    requires NEWLINE !in body && Decoded(codec, body) == [events[n]]
    ensures ShelfOf(codec, Some(whole + WrittenPart(body, count))) == ShelfAfterBreak(codec, events, n, body, count)
  {
    if count > |body| {
      BrokenBehindNewline(codec, whole, events, n, body);
    } else {
      BrokenInside(codec, whole, events[..n], body[..count]);
    }
  }

  /** The first `count` bytes of a line and its newline. */
  function WrittenPart(body: Bytes, count: nat): Bytes {
    if count > |body| then body + [NEWLINE] else body[..count]
  }

  lemma PartWritten(body: Bytes, count: nat)
    ensures (body + [NEWLINE])[..Upto(count, |body| + 1)] == WrittenPart(body, count)
  {
  }

  lemma BrokenFate(codec: Codec, shelf: Shelf, events: seq<InOutEvent>, disk: RewriteDisk, body: Bytes)
    requires disk.Breaks? && disk.line < |events| && codec.marshal(events[disk.line]) == Some(body)
    ensures Rewrite(shelf, events, RewriteFateOf(codec, events, disk)).shelf
            == ShelfAfterBreak(codec, events, disk.line, body, disk.count)
  {
    assert Decoded(codec, []) == [];
  }

  lemma JoinedShelf(shelf: Shelf, a: seq<InOutEvent>, b: seq<InOutEvent>, events: seq<InOutEvent>, n: nat)
    requires n < |events| && a == events[..n] && b == [events[n]] && shelf == Shelf(a + b, [], false)
    ensures shelf == Shelf(events[..n + 1], [], false)
  {
  }

  lemma BrokenBehindNewline(codec: Codec, whole: Bytes, events: seq<InOutEvent>, n: nat, body: Bytes)
    requires n < |events| && WholeLines(whole) && Pending(codec, Split(whole)) == events[..n]
    requires NEWLINE !in body && Decoded(codec, body) == [events[n]]
    ensures ShelfOf(codec, Some(whole + (body + [NEWLINE]))) == Shelf(events[..n + 1], [], false)
  {
    FinishedLine(codec, whole, body);
    JoinedShelf(ShelfOf(codec, Some(whole + (body + [NEWLINE]))), Pending(codec, Split(whole)), Decoded(codec, body),
                events, n);
  }

  lemma BrokenInside(codec: Codec, whole: Bytes, lines: seq<InOutEvent>, part: Bytes)
    requires WholeLines(whole) && Pending(codec, Split(whole)) == lines && NEWLINE !in part
    ensures ShelfOf(codec, Some(whole + part)) == Shelf(lines, Decoded(codec, part), part != [])
  {
    ShelfOfIs(codec, whole, part);
  }

  // ---------------------------------------------------------------------------
  // Whole runs of the outbox.
  // ---------------------------------------------------------------------------

  /** An append, a replay, or a replay whose process dies after n publish attempts. */
  datatype Op =
    | Append(event: InOutEvent, disk: AppendDisk)
    | Replay(publish: Publisher, readable: bool, rewrite: RewriteDisk)
    | Interrupted(publish: Publisher, n: nat)

  /** `taken` lists the events whose Append returned nil, `sent` those a replay published, once
      for each time; `repeated` those among them that stayed in the file. */
  datatype History = History(file: Option<Bytes>, taken: seq<InOutEvent>, sent: seq<InOutEvent>,
                             repeated: seq<InOutEvent>, spoiled: seq<InOutEvent>, extra: seq<InOutEvent>)

  function DoAppend(codec: Codec, h: History, e: InOutEvent, disk: AppendDisk): History {
    var (file, ok) := Appended(codec, h.file, e, disk);
    var c := Put(ShelfOf(codec, h.file), e, FateOf(codec, h.file, e, disk));
    h.(file := file, taken := h.taken + (if ok then [e] else []), spoiled := h.spoiled + c.spoiled,
       extra := h.extra + c.extra)
  }

  function DoReplay(codec: Codec, h: History, publish: Publisher, disk: RewriteDisk): History
    requires Contents(codec, h.file).Some?
  {
    var found := Contents(codec, h.file).value;
    var still := StillPending(found, publish);
    var c := Rewrite(ShelfOf(codec, h.file), still, RewriteFateOf(codec, still, disk));
    h.(file := Rewritten(codec, h.file, still, disk).0, sent := h.sent + Sent(found, publish),
       repeated := h.repeated + (if disk.CannotReplace? then Sent(found, publish) else []),
       spoiled := h.spoiled + c.spoiled, extra := h.extra + c.extra)
  }

  function Do(codec: Codec, h: History, op: Op): History {
    match op
    case Append(e, disk) => DoAppend(codec, h, e, disk)
    case Replay(publish, readable, disk) =>
      if !readable || Contents(codec, h.file).None? || h.file.None? || h.file.value == [] then h
      else DoReplay(codec, h, publish, disk)
    case Interrupted(publish, n) =>
      if Contents(codec, h.file).None? then h
      else
        var found := Contents(codec, h.file).value;
        var sent := Sent(found[..Upto(n, |found|)], publish);
        h.(sent := h.sent + sent, repeated := h.repeated + sent)
  }

  function DoAll(codec: Codec, ops: seq<Op>): History
    decreases |ops|
  {
    if ops == [] then History(None, [], [], [], [], []) else Do(codec, DoAll(codec, ops[..|ops| - 1]), ops[|ops| - 1])
  }

  ghost predicate Conserved(codec: Codec, h: History, c: Measure) {
    c(h.taken) + c(h.repeated) + c(h.extra) == c(h.sent) + c(Held(ShelfOf(codec, h.file))) + c(h.spoiled)
  }

  /** What was decoded can be encoded. */
  ghost predicate Remarshals(codec: Codec) {
    forall b, e :: codec.unmarshal(b) == Some(e) ==> codec.marshal(e).Some?
  }

  lemma {:induction false} PendingMarshals(codec: Codec, lines: seq<Bytes>)
    requires Remarshals(codec)
    ensures forall e <- Pending(codec, lines) :: codec.marshal(e).Some?
    decreases |lines|
  {
    if lines != [] {
      PendingMarshals(codec, lines[..|lines| - 1]);
    }
  }

  lemma AppendConserves(codec: Codec, h: History, e: InOutEvent, disk: AppendDisk, c: Measure)
    requires Additive(c) && Faithful(codec) && Conserved(codec, h, c)
    ensures Conserved(codec, DoAppend(codec, h, e, disk), c)
  {
    ShelfShows(codec, h.file);
    AppendRefines(codec, h.file, e, disk);
    PutBalances(ShelfOf(codec, h.file), e, FateOf(codec, h.file, e, disk), c);
  }

  lemma {:induction false} SentCounts(events: seq<InOutEvent>, publish: Publisher, c: Measure)
    requires Additive(c)
    ensures c(events) == c(Sent(events, publish)) + c(StillPending(events, publish))
    decreases |events|
  {
    if events != [] {
      var k := |events| - 1;
      SentCounts(events[..k], publish, c);
      assert events == events[..k] + [events[k]];
    }
  }

  lemma ReplayShelf(codec: Codec, file: Option<Bytes>, publish: Publisher, disk: RewriteDisk)
    requires Faithful(codec) && Remarshals(codec) && Contents(codec, file).Some?
    ensures var found := Contents(codec, file).value;
            var still := StillPending(found, publish);
            && found == Held(ShelfOf(codec, file))
            && ShelfOf(codec, Rewritten(codec, file, still, disk).0)
                == Rewrite(ShelfOf(codec, file), still, RewriteFateOf(codec, still, disk)).shelf
  {
    var found := Contents(codec, file).value;
    ShelfShows(codec, file);
    FoundMarshal(codec, file);
    ReplaySplits(found, publish);
    RewriteRefines(codec, file, StillPending(found, publish), disk);
  }

  /** Published and remaining events make up the shelf, and the rewrite keeps the latter. */
  lemma ReplayBalances(shelf: Shelf, sent: seq<InOutEvent>, still: seq<InOutEvent>, fate: RewriteFate, c: Measure)
    requires Additive(c) && c(Held(shelf)) == c(sent) + c(still)
    ensures var rewrite := Rewrite(shelf, still, fate);
            c(Held(shelf)) + c(rewrite.extra) + (if fate.Untouched? then c(sent) else 0)
            == c(sent) + c(Held(rewrite.shelf)) + c(rewrite.spoiled)
  {
    if !fate.Untouched? {
      RewriteBalances(shelf, still, fate, c);
    }
  }

  lemma ReplayConserves(codec: Codec, h: History, publish: Publisher, disk: RewriteDisk, c: Measure)
    requires Additive(c) && Faithful(codec) && Remarshals(codec) && Contents(codec, h.file).Some?
             && Conserved(codec, h, c)
    ensures Conserved(codec, DoReplay(codec, h, publish, disk), c)
  {
    var found := Contents(codec, h.file).value;
    var sent, still := Sent(found, publish), StillPending(found, publish);
    ReplayShelf(codec, h.file, publish, disk);
    SentCounts(found, publish, c);
    ReplayBalances(ShelfOf(codec, h.file), sent, still, RewriteFateOf(codec, still, disk), c);
  }

  lemma FoundMarshal(codec: Codec, file: Option<Bytes>)
    requires Remarshals(codec) && Contents(codec, file).Some?
    ensures forall e <- Contents(codec, file).value :: codec.marshal(e).Some?
  {
    if file.Some? {
      PendingMarshals(codec, Scan(file.value).lines);
    }
  }

  lemma StepConserves(codec: Codec, h: History, op: Op, c: Measure)
    requires Additive(c) && Faithful(codec) && Remarshals(codec) && Conserved(codec, h, c)
    ensures Conserved(codec, Do(codec, h, op), c)
  {
    match op
    case Append(e, disk) => AppendConserves(codec, h, e, disk, c);
    case Replay(publish, _, disk) =>
      if Contents(codec, h.file).Some? {
        ReplayConserves(codec, h, publish, disk, c);
      }
    case Interrupted(_, _) =>
  }

  /** Over any run on any disk, with replays that die half way, each event an Append accepted
      was published, is still held or was spoiled, exactly once, but for the events published
      from a file that kept them and those a broken line uncovered; by any additive measure,
      such as the occurrences of one event. */
  lemma {:induction false} OutboxConserves(codec: Codec, ops: seq<Op>, c: Measure)
    requires Additive(c) && Faithful(codec) && Remarshals(codec)
    ensures Conserved(codec, DoAll(codec, ops), c)
    decreases |ops|
  {
    if ops == [] {
      assert Split([]) == [] && Pending(codec, []) == [];
      assert Data(None)[..0] == [] && Data(None)[0..] == [];
    } else {
      OutboxConserves(codec, ops[..|ops| - 1], c);
      StepConserves(codec, DoAll(codec, ops[..|ops| - 1]), ops[|ops| - 1], c);
    }
  }

  /** Whether the operation cuts a replay short that has published something. */
  predicate CutsShort(codec: Codec, h: History, op: Op) {
    if Contents(codec, h.file).None? then false
    else
      var found := Contents(codec, h.file).value;
      match op
      case Append(_, _) => false
      case Replay(publish, readable, disk) => readable && disk.CannotReplace? && Sent(found, publish) != []
      case Interrupted(publish, n) => Sent(found[..Upto(n, |found|)], publish) != []
  }

  predicate CutSomewhere(codec: Codec, ops: seq<Op>)
    decreases |ops|
  {
    ops != [] && (CutSomewhere(codec, ops[..|ops| - 1])
                  || CutsShort(codec, DoAll(codec, ops[..|ops| - 1]), ops[|ops| - 1]))
  }

  lemma RepeatsOf(codec: Codec, h: History, op: Op)
    ensures Do(codec, h, op).repeated == [] <==> h.repeated == [] && !CutsShort(codec, h, op)
  {
    match op
    case Append(_, _) =>
    case Replay(publish, _, _) =>
      if h.file == None || h.file == Some([]) {
        assert Scan([]) == Lines([]) && Pending(codec, []) == [];
      }
    case Interrupted(_, _) =>
  }

  /** No published event stays in the file exactly if no replay that published something
      was cut short, by a process that died or a file that could not be replaced. */
  lemma {:induction false} NoRepeats(codec: Codec, ops: seq<Op>)
    ensures DoAll(codec, ops).repeated == [] <==> !CutSomewhere(codec, ops)
    decreases |ops|
  {
    if ops != [] {
      NoRepeats(codec, ops[..|ops| - 1]);
      RepeatsOf(codec, DoAll(codec, ops[..|ops| - 1]), ops[|ops| - 1]);
    }
  }

  function Dying(e: InOutEvent): seq<Op> {
    [Append(e, Written), Interrupted((i, event) => true, 1)]
  }

  /** A failing input: the process dies after it published the one event, which stays in the file. */
  lemma InterruptedRepeats(codec: Codec, e: InOutEvent)
    requires Faithful(codec) && codec.marshal(e).Some?
    ensures var h := DoAll(codec, Dying(e));
            h.repeated == [e] && h.sent == [e] && Contents(codec, h.file) == Some([e])
  {
    var ops, always := Dying(e), (i, event) => true;
    var h := DoAppend(codec, History(None, [], [], [], [], []), e, Written);
    assert DoAll(codec, ops[..1]) == h by {
      assert ops[..1] == [Append(e, Written)] && ops[..1][..0] == [];
    }
    assert Contents(codec, h.file) == Some([e]) by {
      AppendAdds(codec, None, e, Written);
      assert [] + [e] == [e];
    }
    assert DoAll(codec, ops) == Do(codec, h, Interrupted(always, 1));
    DiesAfterOne(codec, h, e, always);
  }

  lemma DiesAfterOne(codec: Codec, h: History, e: InOutEvent, always: Publisher)
    requires Contents(codec, h.file) == Some([e]) && always(0, e) && h.sent == [] && h.repeated == []
    ensures Do(codec, h, Interrupted(always, 1)) == h.(sent := [e], repeated := [e])
  {
    assert [e][..1] == [e] && [e][..0] == [] && [] + [e] == [e];
    assert Sent([e], always) == [e];
  }

  /** No write tears and every rewrite succeeds. */
  predicate Sound(op: Op) {
    match op
    case Append(_, disk) => !disk.Torn?
    case Replay(_, _, disk) => disk.Replaced?
    case Interrupted(_, _) => true
  }

  /** Then nothing is spoiled and nothing uncovered: each accepted event was published or is
      held exactly once, but for the repeats. */
  lemma {:induction false} SoundDiskKeepsAll(codec: Codec, ops: seq<Op>)
    requires Faithful(codec) && Remarshals(codec) && forall i :: 0 <= i < |ops| ==> Sound(ops[i])
    ensures var h := DoAll(codec, ops); h.spoiled == [] && h.extra == [] && !ShelfOf(codec, h.file).torn
    decreases |ops|
  {
    if ops == [] {
      assert Data(None)[0..] == [];
    } else {
      var init, op := ops[..|ops| - 1], ops[|ops| - 1];
      SoundDiskKeepsAll(codec, init);
      SoundStep(codec, DoAll(codec, init), op);
    }
  }

  lemma SoundStep(codec: Codec, h: History, op: Op)
    requires Faithful(codec) && Remarshals(codec) && Sound(op)
    requires h.spoiled == [] && h.extra == [] && !ShelfOf(codec, h.file).torn
    ensures var t := Do(codec, h, op); t.spoiled == [] && t.extra == [] && !ShelfOf(codec, t.file).torn
  {
    match op
    case Append(e, disk) =>
      AppendRefines(codec, h.file, e, disk);
      SoundPut(ShelfOf(codec, h.file), e, FateOf(codec, h.file, e, disk));
    case Replay(publish, _, disk) =>
      if Contents(codec, h.file).Some? {
        ReplayShelf(codec, h.file, publish, disk);
      }
    case Interrupted(_, _) =>
  }

  lemma SoundPut(shelf: Shelf, e: InOutEvent, fate: AppendFate)
    requires !shelf.torn && (fate.Refused? || (fate.Finished? && fate.ok))
    ensures var c := Put(shelf, e, fate); c.spoiled == [] && c.extra == [] && !c.shelf.torn
  {
  }
}
