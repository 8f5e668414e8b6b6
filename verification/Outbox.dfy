/** The on-disk outbox: one JSON document a line, appended by failed publishes and drained by
    Replay (access-api/internal/queue/outbox.go). The JSON codec is a parameter; what is
    assumed of it is the predicate `Faithful`, and only where it is needed. */
module Outbox {
  import opened Options
  import opened Events

  type Bytes = seq<bv8>

  const NEWLINE: bv8 := 10
  const CARRIAGE_RETURN: bv8 := 13

  /** bufio.MaxScanTokenSize: a line of this many bytes no longer fits the scanner. */
  const MAX_TOKEN: nat := 65536

  datatype Codec = Codec(marshal: InOutEvent -> Option<Bytes>, unmarshal: Bytes -> Option<InOutEvent>)

  /** Marshalling yields one short non-empty line, and unmarshalling undoes it. */
  ghost predicate Faithful(codec: Codec) {
    forall e ::
      codec.marshal(e).Some? ==> OneLine(codec.marshal(e).value) && codec.unmarshal(codec.marshal(e).value) == Some(e)
  }

  ghost predicate OneLine(body: Bytes) {
    0 < |body| < MAX_TOKEN && NEWLINE !in body && body[|body| - 1] != CARRIAGE_RETURN
  }

  // ---------------------------------------------------------------------------
  // The line scanner (bufio.Scanner with ScanLines).
  // ---------------------------------------------------------------------------

  datatype Scanned = Lines(lines: seq<Bytes>) | TooLong

  /** The index of the first newline, or the length if there is none. */
  function LineEnd(data: Bytes): (i: nat)
    ensures i <= |data| && NEWLINE !in data[..i] && (i < |data| ==> data[i] == NEWLINE)
  {
    if data == [] || data[0] == NEWLINE then 0
    else
      var rest := LineEnd(data[1..]);
      assert data[..rest + 1] == [data[0]] + data[1..][..rest];
      rest + 1
  }

  function DropReturn(line: Bytes): Bytes {
    if line != [] && line[|line| - 1] == CARRIAGE_RETURN then line[..|line| - 1] else line
  }

  function Scan(data: Bytes): Scanned
    decreases |data|
  {
    if data == [] then Lines([])
    else
      var i := LineEnd(data);
      if i >= MAX_TOKEN then TooLong
      else
        Before(DropReturn(data[..i]), Scan(if i < |data| then data[i + 1..] else []))
  }

  function Before(line: Bytes, rest: Scanned): Scanned {
    if rest.TooLong? then TooLong else Lines([line] + rest.lines)
  }

  /** Empty lines and lines that do not decode are skipped. */
  function Pending(codec: Codec, lines: seq<Bytes>): seq<InOutEvent>
    decreases |lines|
  {
    if lines == [] then []
    else
      var init, line := Pending(codec, lines[..|lines| - 1]), lines[|lines| - 1];
      if line != [] && codec.unmarshal(line).Some? then init + [codec.unmarshal(line).value] else init
  }

  /** The events a replay would find, or None if the scanner gives up. */
  function Contents(codec: Codec, file: Option<Bytes>): Option<seq<InOutEvent>> {
    match file
    case None => Some([])
    case Some(data) =>
      var scanned := Scan(data);
      if scanned.TooLong? then None else Some(Pending(codec, scanned.lines))
  }

  predicate WholeLines(data: Bytes) {
    data == [] || data[|data| - 1] == NEWLINE
  }

  lemma {:induction false} LineEndIs(data: Bytes, i: nat)
    requires i <= |data| && NEWLINE !in data[..i] && (i < |data| ==> data[i] == NEWLINE)
    ensures LineEnd(data) == i
  {
    if i > 0 {
      assert data[..i][0] == data[0] && data[..i][1..] == data[1..][..i - 1];
      LineEndIs(data[1..], i - 1);
    }
  }

  lemma ScanFirst(data: Bytes, i: nat)
    requires i < |data| && NEWLINE !in data[..i] && data[i] == NEWLINE
    ensures Scan(data) == (if i >= MAX_TOKEN then TooLong else Before(DropReturn(data[..i]), Scan(data[i + 1..])))
  {
    LineEndIs(data, i);
  }

  lemma LastIsNewline(data: Bytes)
    requires data != [] && WholeLines(data)
    ensures LineEnd(data) < |data|
  {
    assert data[..|data|] == data && NEWLINE in data;
  }

  lemma BeforeConcat(line: Bytes, a: Scanned, b: Scanned, both: Scanned)
    requires both == Joined(a, b)
    ensures Before(line, both) == Joined(Before(line, a), b)
  {
    if a.Lines? && b.Lines? {
      assert [line] + (a.lines + b.lines) == [line] + a.lines + b.lines;
    }
  }

  function Joined(a: Scanned, b: Scanned): Scanned {
    if a.TooLong? || b.TooLong? then TooLong else Lines(a.lines + b.lines)
  }

  /** Scanning is compositional at line boundaries. */
  lemma {:induction false} ScanConcat(a: Bytes, b: Bytes)
    requires WholeLines(a)
    ensures Scan(a + b) == Joined(Scan(a), Scan(b))
    decreases |a|
  {
    if a == [] {
      assert a + b == b;
      assert Scan(b).Lines? ==> [] + Scan(b).lines == Scan(b).lines;
    } else {
      LastIsNewline(a);
      var i := LineEnd(a);
      assert (a + b)[..i] == a[..i];
      ScanFirst(a, i);
      ScanFirst(a + b, i);
      var rest := a[i + 1..];
      assert (a + b)[i + 1..] == rest + b;
      assert WholeLines(rest);
      ScanConcat(rest, b);
      BeforeConcat(DropReturn(a[..i]), Scan(rest), Scan(b), Scan(rest + b));
    }
  }

  /** One unterminated stretch without newlines, closed by a newline, is one line. */
  lemma ScanOneLine(body: Bytes)
    requires body != [] && NEWLINE !in body
    ensures Scan(body + [NEWLINE]) == (if |body| >= 65_536 then TooLong else Lines([DropReturn(body)]))
  {
    var data := body + [NEWLINE];
    assert data[..|body|] == body && data[|body| + 1..] == [];
    assert Scan(data) == if |body| >= MAX_TOKEN then TooLong else Before(DropReturn(body), Scan([])) by {
      ScanFirst(data, |body|);
    }
    LastLine(DropReturn(body));
  }

  lemma LastLine(line: Bytes)
    ensures Before(line, Scan([])) == Lines([line])
  {
    assert Scan([]) == Lines([]) && [line] + [] == [line];
  }

  /** A carriage return before the newline is not part of the line. */
  lemma ScanDropsReturn(body: Bytes)
    requires NEWLINE !in body && |body| + 1 < MAX_TOKEN
    ensures Scan(body + [CARRIAGE_RETURN] + [NEWLINE]) == Lines([body])
  {
    var line := body + [CARRIAGE_RETURN];
    assert line[..|body|] == body;
    ScanOneLine(line);
  }

  lemma {:induction false} PendingConcat(codec: Codec, a: seq<Bytes>, b: seq<Bytes>)
    ensures Pending(codec, a + b) == Pending(codec, a) + Pending(codec, b)
    decreases |b|
  {
    if b == [] {
      assert a + b == a;
    } else {
      assert (a + b)[..|a + b| - 1] == a + b[..|b| - 1];
      PendingConcat(codec, a, b[..|b| - 1]);
    }
  }

  lemma PendingOne(codec: Codec, line: Bytes)
    ensures Pending(codec, [line]) ==
            (if line != [] && codec.unmarshal(line).Some? then [codec.unmarshal(line).value] else [])
  {
    assert [line][..0] == [];
  }

  /** What the file says after one more line is written behind whole lines. */
  lemma AppendedLine(codec: Codec, data: Bytes, body: Bytes)
    requires WholeLines(data) && body != [] && NEWLINE !in body && Scan(data).Lines?
    ensures WholeLines(data + body + [NEWLINE])
    ensures Contents(codec, Some(data + body + [NEWLINE])) ==
            if |body| >= MAX_TOKEN then None
            else Some(Contents(codec, Some(data)).value + Pending(codec, [DropReturn(body)]))
  {
    assert data + body + [NEWLINE] == data + (body + [NEWLINE]);
    ScanConcat(data, body + [NEWLINE]);
    ScanOneLine(body);
    PendingConcat(codec, Scan(data).lines, [DropReturn(body)]);
  }

  /** An event's line behind whole lines adds that event. */
  lemma AppendedEvent(codec: Codec, data: Bytes, e: InOutEvent)
    requires Faithful(codec) && codec.marshal(e).Some? && WholeLines(data) && Scan(data).Lines?
    ensures var after := data + codec.marshal(e).value + [NEWLINE];
            && WholeLines(after) && Scan(after).Lines?
            && Contents(codec, Some(after)) == Some(Contents(codec, Some(data)).value + [e])
  {
    var body := codec.marshal(e).value;
    assert OneLine(body) && codec.unmarshal(body) == Some(e);
    assert DropReturn(body) == body;
    AppendedLine(codec, data, body);
    PendingOne(codec, body);
  }

  // ---------------------------------------------------------------------------
  // Round trip.
  // ---------------------------------------------------------------------------

  /** The bytes of a sequence of marshallable events. */
  function EncodeAll(codec: Codec, events: seq<InOutEvent>): Bytes
    requires forall e <- events :: codec.marshal(e).Some?
    decreases |events|
  {
    if events == [] then []
    else EncodeAll(codec, events[..|events| - 1]) + codec.marshal(events[|events| - 1]).value + [NEWLINE]
  }

  /** Scanning the bytes left by any sequence of successful appends yields exactly those
      events, in order. */
  lemma {:induction false} RoundTrip(codec: Codec, events: seq<InOutEvent>)
    requires Faithful(codec) && forall e <- events :: codec.marshal(e).Some?
    ensures WholeLines(EncodeAll(codec, events)) && Scan(EncodeAll(codec, events)).Lines?
    ensures Contents(codec, Some(EncodeAll(codec, events))) == Some(events)
    decreases |events|
  {
    if events == [] {
      RoundTripNone(codec);
    } else {
      var init, last := events[..|events| - 1], events[|events| - 1];
      assert last in events && (forall e <- init :: e in events) && events == init + [last];
      RoundTrip(codec, init);
      RoundTripOneMore(codec, events, init, last);
    }
  }

  lemma RoundTripNone(codec: Codec)
    ensures WholeLines([]) && Scan([]) == Lines([]) && Contents(codec, Some([])) == Some([])
  {
  }

  lemma RoundTripOneMore(codec: Codec, events: seq<InOutEvent>, init: seq<InOutEvent>, last: InOutEvent)
    requires Faithful(codec) && codec.marshal(last).Some? && forall e <- init :: codec.marshal(e).Some?
    requires events == init + [last] && WholeLines(EncodeAll(codec, init)) && Scan(EncodeAll(codec, init)).Lines?
    requires Contents(codec, Some(EncodeAll(codec, init))) == Some(init)
    ensures WholeLines(EncodeAll(codec, events)) && Scan(EncodeAll(codec, events)).Lines?
    ensures Contents(codec, Some(EncodeAll(codec, events))) == Some(events)
  {
    assert events[..|events| - 1] == init;
    var after := EncodeAll(codec, init) + codec.marshal(last).value + [NEWLINE];
    assert EncodeAll(codec, events) == after;
    AppendedEvent(codec, EncodeAll(codec, init), last);
  }

  // ---------------------------------------------------------------------------
  // Append.
  // ---------------------------------------------------------------------------

  /** What the disk does to one append: fails to open, writes only the first `count` bytes
      and reports an error, or writes the whole line. */
  datatype AppendDisk = CannotOpen | Torn(count: nat) | Written

  function Appended(codec: Codec, file: Option<Bytes>, e: InOutEvent, disk: AppendDisk): (Option<Bytes>, bool) {
    if disk.CannotOpen? then (file, false)
    else
      var data := if file.Some? then file.value else [];
      if codec.marshal(e).None? then (Some(data), false)
      else
        var line := codec.marshal(e).value + [NEWLINE];
        match disk
        case Torn(count) => (Some(data + line[..if count < |line| then count else |line|]), false)
        case _ => (Some(data + line), true)
  }

  /** The file consists of whole lines the scanner can read. */
  ghost predicate Clean(file: Option<Bytes>) {
    file.Some? ==> WholeLines(file.value) && Scan(file.value).Lines?
  }

  /** An append that reports success adds exactly its event at the end; one that fails without
      writing leaves the contents alone. */
  lemma AppendAdds(codec: Codec, file: Option<Bytes>, e: InOutEvent, disk: AppendDisk)
    requires Faithful(codec) && Clean(file) && !disk.Torn?
    ensures var (after, ok) := Appended(codec, file, e, disk);
            && Clean(after)
            && ok == (disk.Written? && codec.marshal(e).Some?)
            && Contents(codec, after) == Some(Contents(codec, file).value + (if ok then [e] else []))
  {
    var data := if file.Some? then file.value else [];
    assert Contents(codec, Some(data)) == Contents(codec, file);
    if disk.Written? && codec.marshal(e).Some? {
      var body := codec.marshal(e).value;
      AppendedEvent(codec, data, e);
      assert data + (body + [NEWLINE]) == data + body + [NEWLINE];
    } else {
      assert Contents(codec, file).value + [] == Contents(codec, file).value;
    }
  }

  /** After a torn append the next event shares a line with the fragment. It survives if and
      only if the glued line decodes to it, and a glued line that outgrows the scanner makes
      the whole outbox unreadable. */
  lemma TornAppendGlues(codec: Codec, file: Option<Bytes>, lost: InOutEvent, e: InOutEvent, count: nat)
    requires Faithful(codec) && Clean(file)
    requires codec.marshal(lost).Some? && codec.marshal(e).Some? && 0 < count <= |codec.marshal(lost).value|
    ensures var torn := Appended(codec, file, lost, Torn(count)).0;
            var (after, ok) := Appended(codec, torn, e, Written);
            var glued := codec.marshal(lost).value[..count] + codec.marshal(e).value;
            && ok
            && (|glued| >= MAX_TOKEN <==> Contents(codec, after).None?)
            && (|glued| < MAX_TOKEN ==>
                 (Contents(codec, after) == Some(Contents(codec, file).value + [e])
                  <==> codec.unmarshal(glued) == Some(e)))
  {
    var data := if file.Some? then file.value else [];
    assert Contents(codec, Some(data)) == Contents(codec, file);
    var fragment, body := codec.marshal(lost).value[..count], codec.marshal(e).value;
    var glued := fragment + body;
    assert (codec.marshal(lost).value + [NEWLINE])[..count] == fragment;
    assert data + fragment + (body + [NEWLINE]) == data + glued + [NEWLINE];
    assert OneLine(codec.marshal(lost).value) && OneLine(body);
    GluedLine(codec, data, fragment, body, e);
  }

  lemma GluedLine(codec: Codec, data: Bytes, fragment: Bytes, body: Bytes, e: InOutEvent)
    requires WholeLines(data) && Scan(data).Lines? && NEWLINE !in fragment && OneLine(body)
    ensures var (glued, after) := (fragment + body, Some(data + (fragment + body) + [NEWLINE]));
            && (|glued| >= MAX_TOKEN <==> Contents(codec, after).None?)
            && (|glued| < MAX_TOKEN ==>
                 (Contents(codec, after) == Some(Contents(codec, Some(data)).value + [e])
                  <==> codec.unmarshal(glued) == Some(e)))
  {
    var glued, before := fragment + body, Contents(codec, Some(data)).value;
    AppendedLine(codec, data, glued);
    assert DropReturn(glued) == glued;
    PendingOne(codec, glued);
    assert |before + [e]| == |before| + 1 && (before + [e])[|before|] == e;
    if codec.unmarshal(glued).Some? {
      var other := codec.unmarshal(glued).value;
      assert (before + [other])[|before|] == other;
    }
  }

  // ---------------------------------------------------------------------------
  // Replay.
  // ---------------------------------------------------------------------------

  /** Whether the k-th publish of a replay succeeds for the event it is given. */
  type Publisher = (nat, InOutEvent) -> bool

  function StillPending(events: seq<InOutEvent>, publish: Publisher): seq<InOutEvent>
    decreases |events|
  {
    if events == [] then []
    else
      var k := |events| - 1;
      StillPending(events[..k], publish) + (if publish(k, events[k]) then [] else [events[k]])
  }

  function Sent(events: seq<InOutEvent>, publish: Publisher): seq<InOutEvent>
    decreases |events|
  {
    if events == [] then []
    else
      var k := |events| - 1;
      Sent(events[..k], publish) + (if publish(k, events[k]) then [events[k]] else [])
  }

  /** What Kafka receives: the events whose publish succeeds, and those whose publish reports an
      error but arrives. */
  function Reached(events: seq<InOutEvent>, publish: Publisher, arrives: Publisher): seq<InOutEvent>
    decreases |events|
  {
    if events == [] then []
    else
      var k := |events| - 1;
      Reached(events[..k], publish, arrives)
          + (if publish(k, events[k]) || arrives(k, events[k]) then [events[k]] else [])
  }

  /** `picked` are the events at the positions `at`: those the test holds for, in order. */
  ghost predicate PicksAt(events: seq<InOutEvent>, keep: Publisher, picked: seq<InOutEvent>, at: seq<nat>) {
    && |at| == |picked| && (forall j, k :: 0 <= j < k < |at| ==> at[j] < at[k])
    && (forall k :: 0 <= k < |at| ==> at[k] < |events| && picked[k] == events[at[k]] && keep(at[k], events[at[k]]))
    && (forall n: nat :: n < |events| && keep(n, events[n]) ==> n in at)
  }

  ghost predicate Picks(events: seq<InOutEvent>, keep: Publisher, picked: seq<InOutEvent>) {
    exists at: seq<nat> :: PicksAt(events, keep, picked, at)
  }

  lemma PicksMore(events: seq<InOutEvent>, e: InOutEvent, keep: Publisher, picked: seq<InOutEvent>, at: seq<nat>)
    requires PicksAt(events, keep, picked, at) && keep(|events|, e)
    ensures PicksAt(events + [e], keep, picked + [e], at + [|events|])
  {
    var all, more := events + [e], at + [|events|];
    forall n: nat | n < |all| && keep(n, all[n]) ensures n in more {
      assert n == |events| ==> more[|at|] == n;
    }
  }

  lemma PicksSkip(events: seq<InOutEvent>, e: InOutEvent, keep: Publisher, picked: seq<InOutEvent>, at: seq<nat>)
    requires PicksAt(events, keep, picked, at) && !keep(|events|, e)
    ensures PicksAt(events + [e], keep, picked, at)
  {
  }

  /** The events the test holds for, in order. */
  function Kept(events: seq<InOutEvent>, keep: Publisher): seq<InOutEvent>
    decreases |events|
  {
    if events == [] then []
    else
      var k := |events| - 1;
      if keep(k, events[k]) then Kept(events[..k], keep) + [events[k]] else Kept(events[..k], keep)
  }

  lemma {:induction false} KeptAt(events: seq<InOutEvent>, keep: Publisher) returns (at: seq<nat>)
    ensures PicksAt(events, keep, Kept(events, keep), at)
    decreases |events|
  {
    at := [];
    if events != [] {
      var init, e := events[..|events| - 1], events[|events| - 1];
      assert events == init + [e];
      var before := KeptAt(init, keep);
      if keep(|init|, e) {
        at := before + [|init|];
        PicksMore(init, e, keep, Kept(init, keep), before);
      } else {
        at := before;
        PicksSkip(init, e, keep, Kept(init, keep), before);
      }
    }
  }

  function Not(publish: Publisher): Publisher {
    (k: nat, e: InOutEvent) => !publish(k, e)
  }

  function Either(publish: Publisher, arrives: Publisher): Publisher {
    (k: nat, e: InOutEvent) => publish(k, e) || arrives(k, e)
  }

  /** Which events a replay publishes, keeps and brings to Kafka: those whose publish reports
      success, those whose publish does not, and those whose publish does or that arrive all the
      same, each in order. */
  lemma ReplayPicks(events: seq<InOutEvent>, publish: Publisher, arrives: Publisher)
    ensures Picks(events, publish, Sent(events, publish))
    ensures Picks(events, Not(publish), StillPending(events, publish))
    ensures Picks(events, Either(publish, arrives), Reached(events, publish, arrives))
  {
    ReplayKeeps(events, publish, arrives);
    var sent := KeptAt(events, publish);
    var pending := KeptAt(events, Not(publish));
    var reached := KeptAt(events, Either(publish, arrives));
  }

  lemma {:induction false} ReplayKeeps(events: seq<InOutEvent>, publish: Publisher, arrives: Publisher)
    ensures Sent(events, publish) == Kept(events, publish)
    ensures StillPending(events, publish) == Kept(events, Not(publish))
    ensures Reached(events, publish, arrives) == Kept(events, Either(publish, arrives))
    decreases |events|
  {
    if events != [] {
      var init := events[..|events| - 1];
      ReplayKeeps(init, publish, arrives);
      AppendNothing(Sent(init, publish));
      AppendNothing(StillPending(init, publish));
      AppendNothing(Reached(init, publish, arrives));
    }
  }

  lemma AppendNothing(events: seq<InOutEvent>)
    ensures events + [] == events
  {
  }

  lemma {:induction false} ReplaySplits(events: seq<InOutEvent>, publish: Publisher)
    ensures |Sent(events, publish)| + |StillPending(events, publish)| == |events|
    ensures multiset(Sent(events, publish)) + multiset(StillPending(events, publish)) == multiset(events)
    ensures forall e <- StillPending(events, publish) :: e in events
    decreases |events|
  {
    if events != [] {
      var k := |events| - 1;
      ReplaySplits(events[..k], publish);
      assert events == events[..k] + [events[k]];
    }
  }

  /** What the disk does to a rewrite: the remove or the open fails, the write of line `line`
      fails after `count` bytes, or everything is written. */
  datatype RewriteDisk = CannotReplace | Breaks(line: nat, count: nat) | Replaced

  /** The file after the first `n` of the remaining events were written, and whether they were. */
  function RewrittenLines(codec: Codec, events: seq<InOutEvent>, disk: RewriteDisk, n: nat): (Bytes, bool)
    requires n <= |events|
  {
    if n == 0 then ([], true)
    else
      var (data, ok) := RewrittenLines(codec, events, disk, n - 1);
      var body := codec.marshal(events[n - 1]);
      if !ok || body.None? then (data, false)
      else
        var line := body.value + [NEWLINE];
        if disk.Breaks? && disk.line == n - 1
        then (data + line[..if disk.count < |line| then disk.count else |line|], false)
        else (data + line, true)
  }

  function Rewritten(codec: Codec, file: Option<Bytes>, events: seq<InOutEvent>, disk: RewriteDisk): (Option<Bytes>,
      bool) {
    if disk.CannotReplace? then (file, false)
    else if events == [] then (None, true)
    else
      var (data, ok) := RewrittenLines(codec, events, disk, |events|);
      (Some(data), ok)
  }

  lemma {:induction false} RewriteEncodes(codec: Codec, events: seq<InOutEvent>, n: nat)
    requires n <= |events| && forall e <- events :: codec.marshal(e).Some?
    ensures RewrittenLines(codec, events, Replaced, n) == (EncodeAll(codec, events[..n]), true)
  {
    if n > 0 {
      RewriteEncodes(codec, events, n - 1);
      assert events[..n][..n - 1] == events[..n - 1];
      var line := codec.marshal(events[n - 1]).value;
      assert EncodeAll(codec, events[..n - 1]) + (line + [NEWLINE])
          == EncodeAll(codec, events[..n - 1]) + line + [NEWLINE];
    }
  }

  /** A rewrite on a healthy disk leaves exactly the events it was given. */
  lemma RewriteKeeps(codec: Codec, file: Option<Bytes>, events: seq<InOutEvent>)
    requires Faithful(codec) && forall e <- events :: codec.marshal(e).Some?
    ensures var (after, ok) := Rewritten(codec, file, events, Replaced);
            ok && Clean(after) && Contents(codec, after) == Some(events)
  {
    if events != [] {
      RewriteEncodes(codec, events, |events|);
      assert events[..|events|] == events;
      RoundTrip(codec, events);
    }
  }

  lemma {:induction false} UnbrokenLines(codec: Codec, events: seq<InOutEvent>, disk: RewriteDisk, n: nat)
    requires n <= |events| && (disk.Breaks? ==> n <= disk.line) && forall e <- events :: codec.marshal(e).Some?
    ensures RewrittenLines(codec, events, disk, n) == (EncodeAll(codec, events[..n]), true)
  {
    if n > 0 {
      UnbrokenLines(codec, events, disk, n - 1);
      assert events[..n][..n - 1] == events[..n - 1];
      var body := codec.marshal(events[n - 1]).value + [NEWLINE];
      assert EncodeAll(codec, events[..n - 1]) + body
          == EncodeAll(codec, events[..n - 1]) + codec.marshal(events[n - 1]).value + [NEWLINE];
    }
  }

  /** The file a failing write of line `disk.line` leaves: the lines before it, whole, and the
      first bytes of that line. */
  lemma BrokenLines(codec: Codec, events: seq<InOutEvent>, disk: RewriteDisk)
    requires disk.Breaks? && disk.line < |events| && forall e <- events :: codec.marshal(e).Some?
    ensures var line := codec.marshal(events[disk.line]).value + [NEWLINE];
            RewrittenLines(codec, events, disk, |events|)
            == (EncodeAll(codec, events[..disk.line]) + line[..Upto(disk.count, |line|)], false)
  {
    UnbrokenLines(codec, events, disk, disk.line);
    BrokenStays(codec, events, disk, disk.line + 1, |events|);
  }

  /** A last line without a newline. */
  lemma ScanFragment(data: Bytes, fragment: Bytes)
    requires WholeLines(data) && Scan(data).Lines? && NEWLINE !in fragment && |fragment| < MAX_TOKEN
    ensures Scan(data + fragment) == Lines(Scan(data).lines + if fragment == [] then [] else [DropReturn(fragment)])
  {
    ScanConcat(data, fragment);
    if fragment != [] {
      assert fragment[..|fragment|] == fragment;
      LineEndIs(fragment, |fragment|);
    }
  }

  /** What the scanner and the decoder make of the bytes of one line. */
  function Decoded(codec: Codec, raw: Bytes): seq<InOutEvent> {
    var line := DropReturn(raw);
    if line != [] && codec.unmarshal(line).Some? then [codec.unmarshal(line).value] else []
  }

  lemma FragmentShows(codec: Codec, data: Bytes, fragment: Bytes)
    requires WholeLines(data) && Scan(data).Lines? && NEWLINE !in fragment && |fragment| < MAX_TOKEN
    ensures Contents(codec, Some(data + fragment)) == Some(Contents(codec, Some(data)).value + Decoded(codec, fragment))
  {
    var lines := Scan(data).lines;
    var more: seq<Bytes> := if fragment == [] then [] else [DropReturn(fragment)];
    assert Contents(codec, Some(data + fragment)) == Some(Pending(codec, lines + more)) by {
      ScanFragment(data, fragment);
    }
    PendingConcat(codec, lines, more);
    DecodedIsPending(codec, fragment);
  }

  lemma DecodedIsPending(codec: Codec, raw: Bytes)
    ensures Decoded(codec, raw) == Pending(codec, if raw == [] then [] else [DropReturn(raw)])
  {
    PendingOne(codec, DropReturn(raw));
  }

  /** How much of the body of line `line` a broken write left. */
  function Fragment(codec: Codec, e: InOutEvent, count: nat): Bytes {
    var body := codec.marshal(e);
    if body.None? then [] else body.value[..Upto(count, |body.value|)]
  }

  /** The rewrite truncates first: a disk that fails at line k keeps the first k events and what
      the fragment of line k decodes to, and the others are lost although none of them was
      published; a file that cannot be replaced stays as it was. */
  lemma FailedRewriteLoses(codec: Codec, file: Option<Bytes>, events: seq<InOutEvent>, disk: RewriteDisk)
    requires Faithful(codec) && forall e <- events :: codec.marshal(e).Some?
    requires disk.CannotReplace? || (disk.Breaks? && disk.line < |events|)
    ensures var (after, ok) := Rewritten(codec, file, events, disk);
            !ok && if disk.CannotReplace? then after == file
                   else Contents(codec, after) == Some(events[..disk.line]
                                                       + Decoded(codec, Fragment(codec, events[disk.line], disk.count)))
  {
    if disk.Breaks? {
      var whole, last := EncodeAll(codec, events[..disk.line]), events[disk.line];
      BrokenLines(codec, events, disk);
      RoundTrip(codec, events[..disk.line]);
      assert last in events;
      BrokenLineShows(codec, whole, last, codec.marshal(last).value, disk.count);
    }
  }

  lemma BrokenLineShows(codec: Codec, whole: Bytes, e: InOutEvent, body: Bytes, count: nat)
    requires Faithful(codec) && WholeLines(whole) && Scan(whole).Lines? && codec.marshal(e) == Some(body)
    ensures Contents(codec, Some(whole + (body + [NEWLINE])[..Upto(count, |body| + 1)]))
            == Some(Contents(codec, Some(whole)).value + Decoded(codec, Fragment(codec, e, count)))
  {
    var line := body + [NEWLINE];
    if count > |body| {
      assert line[..|line|] == line && body[..|body|] == body && DropReturn(body) == body;
      AppendedEvent(codec, whole, e);
      assert whole + line == whole + body + [NEWLINE];
    } else {
      assert line[..count] == body[..count];
      FragmentShows(codec, whole, body[..count]);
    }
  }

  /** Exactly when a rewrite leaves the events it was given: nothing broke, or only the last
      line did and what was written of it still decodes to its event, or the file could not be
      replaced and held just these events before. */
  lemma RewriteKeepsExactly(codec: Codec, file: Option<Bytes>, events: seq<InOutEvent>, disk: RewriteDisk)
    requires Faithful(codec) && forall e <- events :: codec.marshal(e).Some?
    ensures Contents(codec, Rewritten(codec, file, events, disk).0) == Some(events) <==>
            match disk
            case Replaced => true
            case CannotReplace => Contents(codec, file) == Some(events)
            case Breaks(line, count) =>
                line >= |events| || (line == |events| - 1
                                     && Decoded(codec, Fragment(codec, events[line], count)) == [events[line]])
  {
    match disk
    case Replaced => RewriteKeeps(codec, file, events);
    case CannotReplace =>
    case Breaks(line, count) =>
      if line >= |events| {
        UnbrokenLines(codec, events, disk, |events|);
        assert events[..|events|] == events;
        RoundTrip(codec, events);
      } else {
        FailedRewriteLoses(codec, file, events, disk);
        var found := Decoded(codec, Fragment(codec, events[line], count));
        assert |events[..line] + found| <= line + 1;
        assert events[..line] + [events[line]] == events[..line + 1];
        if line == |events| - 1 {
          assert events[..line + 1] == events;
          assert events[..line] + found == events ==> found == events[line..];
        }
      }
  }

  lemma {:induction false} AllRemain(events: seq<InOutEvent>, publish: Publisher)
    requires Sent(events, publish) == []
    ensures StillPending(events, publish) == events
    decreases |events|
  {
    if events != [] {
      AllRemain(events[..|events| - 1], publish);
    }
  }

  lemma NothingSent(events: seq<InOutEvent>, publish: Publisher)
    ensures StillPending(events, publish) == events <==> Sent(events, publish) == []
  {
    ReplaySplits(events, publish);
    if Sent(events, publish) == [] {
      AllRemain(events, publish);
    }
  }

  /** Exactly when a replay leaves the events it could not publish: on a file that cannot be
      replaced only if nothing was published, as otherwise the published events stay and are
      published again. */
  lemma ReplayKeepsRemainder(codec: Codec, file: Option<Bytes>, publish: Publisher, disk: RewriteDisk)
    requires Faithful(codec) && Contents(codec, file).Some?
             && forall e <- Contents(codec, file).value :: codec.marshal(e).Some?
    ensures var found := Contents(codec, file).value;
            var still := StillPending(found, publish);
            Contents(codec, Rewritten(codec, file, still, disk).0) == Some(still) <==>
            match disk
            case Replaced => true
            case CannotReplace => Sent(found, publish) == []
            case Breaks(line, count) =>
                line >= |still| || (line == |still| - 1
                                    && Decoded(codec, Fragment(codec, still[line], count)) == [still[line]])
  {
    var found := Contents(codec, file).value;
    ReplaySplits(found, publish);
    RewriteKeepsExactly(codec, file, StillPending(found, publish), disk);
    NothingSent(found, publish);
  }

  // ---------------------------------------------------------------------------
  // The outbox object.
  // ---------------------------------------------------------------------------

  class FileOutbox {
    const codec: Codec
    var file: Option<Bytes>

    constructor (codec: Codec, file: Option<Bytes>)
      ensures this.codec == codec && this.file == file
    {
      this.codec, this.file := codec, file;
    }

    method Append(event: InOutEvent, disk: AppendDisk) returns (ok: bool)
      modifies this
      ensures (file, ok) == Appended(codec, old(file), event, disk)
    {
      if disk.CannotOpen? {
        return false;
      }
      if file.None? {
        file := Some([]);
      }
      var body := codec.marshal(event);
      if body.None? {
        return false;
      }
      var line := body.value + [NEWLINE];
      if disk.Torn? {
        file := Some(file.value + line[..if disk.count < |line| then disk.count else |line|]);
        return false;
      }
      file := Some(file.value + line);
      return true;
    }

    method RewriteLocked(events: seq<InOutEvent>, disk: RewriteDisk) returns (ok: bool)
      modifies this
      ensures (file, ok) == Rewritten(codec, old(file), events, disk)
    {
      if disk.CannotReplace? {
        return false;
      }
      if events == [] {
        file := None;
        return true;
      }
      file := Some([]);
      for k := 0 to |events|
        invariant file.Some? && RewrittenLines(codec, events, disk, k) == (file.value, true)
      {
        var body := codec.marshal(events[k]);
        if body.None? {
          BrokenStays(codec, events, disk, k + 1, |events|);
          return false;
        }
        var line := body.value + [NEWLINE];
        if disk.Breaks? && disk.line == k {
          file := Some(file.value + line[..if disk.count < |line| then disk.count else |line|]);
          BrokenStays(codec, events, disk, k + 1, |events|);
          return false;
        }
        file := Some(file.value + line);
      }
      return true;
    }

    /** Returns the number of published events and whether an error is reported; `sent` lists
        the published events in order and `reached` what arrived in Kafka. */
    method Replay(publish: Publisher, arrives: Publisher, readable: bool, disk: RewriteDisk)
      returns (replayed: nat, ok: bool, sent: seq<InOutEvent>, reached: seq<InOutEvent>)
      modifies this
      ensures replayed == |sent|
      ensures var found := Contents(codec, old(file));
              if old(file) == None || (readable && old(file) == Some([]))
                  then ok && sent == reached == [] && file == old(file)
              else if !readable || found.None? then !ok && sent == reached == [] && file == old(file)
              else
                && sent == Sent(found.value, publish) && reached == Reached(found.value, publish, arrives)
                && replayed + |StillPending(found.value, publish)| == |found.value|
                && (file, ok) == Rewritten(codec, old(file), StillPending(found.value, publish), disk)
    {
      sent, reached := [], [];
      if file.None? {
        return 0, true, sent, reached;
      }
      if !readable {
        return 0, false, sent, reached;
      }
      if file.value == [] {
        return 0, true, sent, reached;
      }
      var scanOk, pending := ScanPending();
      if !scanOk {
        return 0, false, sent, reached;
      }
      replayed := 0;
      var stillPending := [];
      for k := 0 to |pending|
        invariant stillPending == StillPending(pending[..k], publish)
        invariant sent == Sent(pending[..k], publish) && replayed == |sent|
        invariant reached == Reached(pending[..k], publish, arrives)
      {
        assert pending[..k + 1][..k] == pending[..k];
        if publish(k, pending[k]) || arrives(k, pending[k]) {
          reached := reached + [pending[k]];
        }
        if publish(k, pending[k]) {
          sent := sent + [pending[k]];
          replayed := replayed + 1;
        } else {
          stillPending := stillPending + [pending[k]];
        }
      }
      assert pending[..|pending|] == pending;
      ReplaySplits(pending, publish);
      ok := RewriteLocked(stillPending, disk);
    }

    /** The scan loop of Replay. */
    method ScanPending() returns (ok: bool, pending: seq<InOutEvent>)
      requires file.Some?
      ensures ok == Contents(codec, file).Some?
      ensures ok ==> pending == Contents(codec, file).value
    {
      var rest := file.value;
      pending := [];
      ghost var lines: seq<Bytes> := [];
      JoinedNothing(Scan(rest));
      while rest != []
        invariant Scan(file.value) == Joined(Lines(lines), Scan(rest))
        invariant pending == Pending(codec, lines)
        decreases |rest|
      {
        var i := LineEnd(rest);
        if i >= MAX_TOKEN {
          assert Scan(rest).TooLong?;
          return false, pending;
        }
        var line := DropReturn(rest[..i]);
        var tail := if i < |rest| then rest[i + 1..] else [];
        assert Scan(rest) == Before(line, Scan(tail));
        JoinedLine(lines, line, Scan(tail));
        PendingConcat(codec, lines, [line]);
        PendingOne(codec, line);
        if line != [] {
          var event := codec.unmarshal(line);
          if event.Some? {
            pending := pending + [event.value];
          }
        }
        lines := lines + [line];
        rest := tail;
      }
      JoinedNothing(Lines(lines));
      return true, pending;
    }
  }

  lemma JoinedNothing(a: Scanned)
    ensures Joined(a, Lines([])) == a == Joined(Lines([]), a)
  {
    if a.Lines? {
      assert a.lines + [] == a.lines == [] + a.lines;
    }
  }

  lemma JoinedLine(lines: seq<Bytes>, line: Bytes, rest: Scanned)
    ensures Joined(Lines(lines), Before(line, rest)) == Joined(Lines(lines + [line]), rest)
  {
    if rest.Lines? {
      assert lines + ([line] + rest.lines) == lines + [line] + rest.lines;
    }
  }

  lemma {:induction false} BrokenStays(codec: Codec, events: seq<InOutEvent>, disk: RewriteDisk, m: nat, n: nat)
    requires m <= n <= |events| && !RewrittenLines(codec, events, disk, m).1
    ensures RewrittenLines(codec, events, disk, n) == RewrittenLines(codec, events, disk, m)
  {
    if m < n {
      BrokenStays(codec, events, disk, m, n - 1);
    }
  }
}
