/** The event producer: publishers, the bounded retry buffer, the retry goroutine, the outbox and
    its replay, interleaved step by step (access-api/internal/queue/kafka_producer.go). */
module Producer {
  import opened Options
  import opened Events
  import opened Counting
  import Outbox
  import opened Spool
  import Runs

  const RETRY_CAPACITY: nat := 1024

  /** Where the retry goroutine is. */
  datatype Loop = Waiting | Writing(event: InOutEvent) | Enqueueing(event: InOutEvent) | Storing(event: InOutEvent)
      | Stopped

  /** Where a replay of the outbox is, which holds the outbox lock all the while: what it still
      has to try, what it published and what failed. */
  datatype Replay = Resting | Replaying(pending: seq<InOutEvent>, sent: seq<InOutEvent>, still: seq<InOutEvent>)

  /** `writing`, `enqueueing` and `storing` hold the events of the publishers inside a Kafka
      write, between a failed write and enqueueRetry, and on the way to the outbox after finding
      the buffer full, in no particular order; `outbox` is None if none is configured. `kafka`
      is the topic, where a write that reported an error may have arrived all the same. The
      last group only records history: `unspooled` holds the events whose append reported an
      error, `repeated` the published events a replay left in the outbox, `spoiled` and `extra`
      what torn lines cost and uncovered. */
  datatype System = System(
    queue: seq<InOutEvent>,
    writing: seq<InOutEvent>,
    enqueueing: seq<InOutEvent>,
    storing: seq<InOutEvent>,
    loop: Loop,
    closed: bool,
    outbox: Option<Shelf>,
    replay: Replay,
    kafka: seq<InOutEvent>,
    accepted: seq<InOutEvent>,
    acked: seq<InOutEvent>,
    returnedNil: seq<InOutEvent>,
    overflowed: seq<InOutEvent>,
    unspooled: seq<InOutEvent>,
    wiped: seq<InOutEvent>,
    repeated: seq<InOutEvent>,
    spoiled: seq<InOutEvent>,
    extra: seq<InOutEvent>)

  /** Publishers are picked by their position `i` in `writing`, `enqueueing` or `storing`. */
  datatype Event =
    | Publish(event: InOutEvent)
    | WriteDone(i: nat)
    | WriteFailed(i: nat, arrived: bool)
    | Enqueue(i: nat)
    | Store(i: nat, fate: AppendFate)
    | Take
    | RetryDone
    | RetryFailed(arrived: bool)
    | Requeue
    | StoreRetry(fate: AppendFate)
    | Close
    | SeeDone
    | BeginReplay
    | ReplayDone
    | ReplayFailed(arrived: bool)
    | EndReplay(rewrite: RewriteFate)
    | Crash

  function Initial(hasOutbox: bool): System {
    System([], [], [], [], Waiting, false, if hasOutbox then Some(EMPTY) else None, Resting,
           [], [], [], [], [], [], [], [], [], [])
  }

  /** enqueueRetry before the outbox: the event goes to the buffer, is dropped if that is full
      and there is no outbox, or goes on to wait for the outbox lock. */
  datatype Verdict = Queued | Dropped | Waits

  function Offer(s: System): Verdict {
    if |s.queue| < RETRY_CAPACITY then Queued else if s.outbox.None? then Dropped else Waits
  }

  function AfterOffer(s: System, e: InOutEvent): System {
    match Offer(s)
    case Queued => s.(queue := s.queue + [e])
    case Dropped => s.(overflowed := s.overflowed + [e])
    case Waits => s
  }

  /** The append, once no replay holds the lock; the buffer may have room again by then. */
  predicate Unlocked(s: System) {
    s.outbox.Some? && s.replay.Resting?
  }

  function AfterStore(s: System, e: InOutEvent, fate: AppendFate, byPublisher: bool): System
    requires s.outbox.Some?
  {
    var put := Put(s.outbox.value, e, fate);
    s.(outbox := Some(put.shelf), spoiled := s.spoiled + put.spoiled, extra := s.extra + put.extra,
       unspooled := if put.ok then s.unspooled else s.unspooled + [e],
       returnedNil := if put.ok && byPublisher then s.returnedNil + [e] else s.returnedNil)
  }

  /** Steps of the publishers; one that is not possible in the state changes nothing. */
  function PublisherStep(s: System, step: Event): System {
    match step
    case Publish(e) => s.(accepted := s.accepted + [e], writing := s.writing + [e])
    case WriteDone(i) =>
      if i >= |s.writing| then s
      else
        var e := s.writing[i];
        s.(writing := Without(s.writing, i), kafka := s.kafka + [e], acked := s.acked + [e],
           returnedNil := s.returnedNil + [e])
    case WriteFailed(i, arrived) =>
      if i >= |s.writing| then s
      else
        var e := s.writing[i];
        s.(writing := Without(s.writing, i), enqueueing := s.enqueueing + [e],
           kafka := if arrived then s.kafka + [e] else s.kafka)
    case Enqueue(i) =>
      if i >= |s.enqueueing| then s
      else
        var e := s.enqueueing[i];
        AfterOffer(s.(enqueueing := Without(s.enqueueing, i),
                      storing := if Offer(s).Waits? then s.storing + [e] else s.storing), e)
    case Store(i, fate) =>
      if i >= |s.storing| || !Unlocked(s) then s
      else AfterStore(s.(storing := Without(s.storing, i)), s.storing[i], fate, true)
    case _ => s
  }

  /** Steps of the retry goroutine. */
  function LoopStep(s: System, step: Event): System {
    match step
    case Take =>
      if !s.loop.Waiting? || s.queue == [] then s else s.(queue := s.queue[1..], loop := Writing(s.queue[0]))
    case RetryDone =>
      if !s.loop.Writing? then s
      else s.(loop := Waiting, kafka := s.kafka + [s.loop.event], acked := s.acked + [s.loop.event])
    case RetryFailed(arrived) =>
      if !s.loop.Writing? then s
      else s.(loop := Enqueueing(s.loop.event), kafka := if arrived then s.kafka + [s.loop.event] else s.kafka)
    case Requeue =>
      if !s.loop.Enqueueing? then s
      else
        var e := s.loop.event;
        AfterOffer(s.(loop := if Offer(s).Waits? then Storing(e) else Waiting), e)
    case StoreRetry(fate) =>
      if !s.loop.Storing? || !Unlocked(s) then s else AfterStore(s.(loop := Waiting), s.loop.event, fate, false)
    case SeeDone => if s.closed && s.loop.Waiting? then s.(loop := Stopped) else s
    case _ => s
  }

  function LoopHeld(loop: Loop): seq<InOutEvent> {
    if loop.Writing? || loop.Enqueueing? || loop.Storing? then [loop.event] else []
  }

  /** Steps of a replay: reading the outbox, publishing event by event, rewriting the file with
      what failed. */
  function ReplayStep(s: System, step: Event): System {
    match step
    case BeginReplay =>
      if s.outbox.None? || s.replay.Replaying? then s else s.(replay := Replaying(Held(s.outbox.value), [], []))
    case ReplayDone =>
      if !s.replay.Replaying? || s.replay.pending == [] then s
      else
        var e := s.replay.pending[0];
        s.(replay := Replaying(s.replay.pending[1..], s.replay.sent + [e], s.replay.still),
           kafka := s.kafka + [e], acked := s.acked + [e])
    case ReplayFailed(arrived) =>
      if !s.replay.Replaying? || s.replay.pending == [] then s
      else
        var e := s.replay.pending[0];
        s.(replay := Replaying(s.replay.pending[1..], s.replay.sent, s.replay.still + [e]),
           kafka := if arrived then s.kafka + [e] else s.kafka)
    case EndReplay(rewrite) =>
      if !s.replay.Replaying? || s.replay.pending != [] || s.outbox.None? then s
      else
        var c := Rewrite(s.outbox.value, s.replay.still, rewrite);
        s.(replay := Resting, outbox := Some(c.shelf), spoiled := s.spoiled + c.spoiled, extra := s.extra + c.extra,
           repeated := if rewrite.Untouched? then s.repeated + s.replay.sent else s.repeated)
    case _ => s
  }

  function SentSoFar(replay: Replay): seq<InOutEvent> {
    if replay.Replaying? then replay.sent else []
  }

  /** A dying process loses its memory; the outbox file stays as it is, published events of an
      unfinished replay included. */
  function Crashed(s: System): System {
    s.(queue := [], writing := [], enqueueing := [], storing := [], loop := Waiting, closed := false, replay := Resting,
       repeated := s.repeated + SentSoFar(s.replay),
       wiped := s.wiped + (s.queue + s.writing + s.enqueueing + s.storing + LoopHeld(s.loop)))
  }

  predicate OfPublisher(step: Event) {
    step.Publish? || step.WriteDone? || step.WriteFailed? || step.Enqueue? || step.Store?
  }

  predicate OfLoop(step: Event) {
    step.Take? || step.RetryDone? || step.RetryFailed? || step.Requeue? || step.StoreRetry? || step.SeeDone?
  }

  predicate OfReplay(step: Event) {
    step.BeginReplay? || step.ReplayDone? || step.ReplayFailed? || step.EndReplay?
  }

  function Step(s: System, step: Event): System {
    if OfPublisher(step) then PublisherStep(s, step)
    else if OfReplay(step) then ReplayStep(s, step)
    else if step.Crash? then Crashed(s)
    else if step.Close? then s.(closed := true)
    else LoopStep(s, step)
  }

  function After(s: System, steps: seq<Event>): System {
    Runs.After(Step, s, steps)
  }

  // ---------------------------------------------------------------------------
  // What a step shows to the outside.
  // ---------------------------------------------------------------------------

  /** The event of a Kafka write that this step completes, if there is one. */
  function InWrite(s: System, step: Event): Option<InOutEvent> {
    match step
    case WriteDone(i) => if i < |s.writing| then Some(s.writing[i]) else None
    case WriteFailed(i, _) => if i < |s.writing| then Some(s.writing[i]) else None
    case RetryDone => if s.loop.Writing? then Some(s.loop.event) else None
    case RetryFailed(_) => if s.loop.Writing? then Some(s.loop.event) else None
    case ReplayDone => if s.replay.Replaying? && s.replay.pending != [] then Some(s.replay.pending[0]) else None
    case ReplayFailed(_) => if s.replay.Replaying? && s.replay.pending != [] then Some(s.replay.pending[0]) else None
    case _ => None
  }

  predicate Arrives(step: Event) {
    match step
    case WriteFailed(_, arrived) => arrived
    case RetryFailed(arrived) => arrived
    case ReplayFailed(arrived) => arrived
    case _ => true
  }

  /** The topic gains the event of each write that is acknowledged, or fails and arrives all the
      same, and nothing else; acknowledged are exactly the events of writes that succeed; and a
      publisher gets nil exactly for such a write of its own, or if the outbox appended the whole
      line and reports success. */
  lemma StepShows(s: System, step: Event)
    ensures var (t, e) := (Step(s, step), InWrite(s, step));
            && t.kafka == (if e.Some? && Arrives(step) then s.kafka + [e.value] else s.kafka)
            && t.acked == (if e.Some? && (step.WriteDone? || step.RetryDone? || step.ReplayDone?)
                           then s.acked + [e.value] else s.acked)
            && t.returnedNil == (if e.Some? && step.WriteDone? then s.returnedNil + [e.value]
                                 else if step.Store? && step.i < |s.storing| && Unlocked(s)
                                         && step.fate.Finished? && step.fate.ok
                                 then s.returnedNil + [s.storing[step.i]] else s.returnedNil)
  {
    match step
    case WriteDone(_) =>
    case WriteFailed(_, _) =>
    case Store(_, _) =>
    case Enqueue(_) =>
    case Requeue =>
    case StoreRetry(_) =>
    case _ =>
  }

  /** The retry goroutine stops only after a Close of the same process. */
  lemma {:induction false} StopNeedsClose(hasOutbox: bool, steps: seq<Event>)
    ensures var s := After(Initial(hasOutbox), steps);
            s.closed || s.loop.Stopped? ==> ClosedSinceStart(steps)
    decreases |steps|
  {
    if steps != [] {
      var init, last := steps[..|steps| - 1], steps[|steps| - 1];
      StopNeedsClose(hasOutbox, init);
      StepStops(After(Initial(hasOutbox), init), last);
      if last.Close? {
        assert ClosedAt(steps, |steps| - 1);
      } else if ClosedSinceStart(init) && !last.Crash? {
        var i :| ClosedAt(init, i);
        assert ClosedAt(steps, i);
      }
    }
  }

  predicate ClosedAt(steps: seq<Event>, i: int) {
    0 <= i < |steps| && steps[i].Close? && forall j :: i < j < |steps| ==> !steps[j].Crash?
  }

  ghost predicate ClosedSinceStart(steps: seq<Event>) {
    exists i :: ClosedAt(steps, i)
  }

  lemma StepStops(s: System, step: Event)
    ensures Step(s, step).closed ==> (s.closed && !step.Crash?) || step.Close?
    ensures Step(s, step).loop.Stopped? ==> (s.loop.Stopped? || s.closed) && !step.Crash?
  {
  }

  // ---------------------------------------------------------------------------
  // Conservation.
  // ---------------------------------------------------------------------------

  /** What the memory of the process holds. */
  ghost function InMemory(s: System, c: Measure): nat {
    c(s.queue) + c(s.writing) + c(s.enqueueing) + c(s.storing) + c(LoopHeld(s.loop))
  }

  ghost function InOutbox(s: System, c: Measure): nat {
    if s.outbox.Some? then c(Held(s.outbox.value)) else 0
  }

  /** What was given up: dropped by a full buffer, refused by the outbox, wiped with the process,
      or spoiled by a torn line. An event of an append that failed may be in the outbox all the
      same; then `extra` holds it as well. */
  ghost function Lost(s: System, c: Measure): nat {
    c(s.overflowed) + c(s.unspooled) + c(s.wiped) + c(s.spoiled)
  }

  /** What was published and is in the outbox as well, or was when a replay was cut short. */
  ghost function Doubled(s: System, c: Measure): nat {
    c(s.repeated) + c(SentSoFar(s.replay))
  }

  /** `moving` is between two places. */
  ghost predicate Balanced(s: System, c: Measure, moving: nat) {
    && c(s.accepted) + Doubled(s, c) + c(s.extra) == c(s.acked) + InMemory(s, c) + InOutbox(s, c) + Lost(s, c) + moving
    && c(s.returnedNil) + Doubled(s, c) <= c(s.acked) + InOutbox(s, c) + c(s.spoiled)
    && c(s.acked) <= c(s.kafka)
  }

  /** A replay works on what the outbox holds. */
  ghost predicate ReplayAgrees(s: System, c: Measure) {
    s.replay.Replaying? ==>
      s.outbox.Some? && c(s.replay.pending) + c(s.replay.sent) + c(s.replay.still) == InOutbox(s, c)
  }

  ghost predicate Conserved(s: System, c: Measure) {
    Balanced(s, c, 0) && ReplayAgrees(s, c)
  }

  /** The buffer is bounded, only a torn line has a tail, and each kind of drop has its cause. */
  ghost predicate Bounded(s: System) {
    && |s.queue| <= RETRY_CAPACITY && TailNeedsTear(s)
    && (s.outbox.Some? ==> s.overflowed == [])
    && (s.outbox.None?
        ==> s.unspooled == [] && s.spoiled == [] && s.extra == [] && s.replay.Resting? && s.repeated == [])
  }

  ghost predicate TailNeedsTear(s: System) {
    s.outbox.Some? && !s.outbox.value.torn ==> s.outbox.value.tail == []
  }

  /** An append moves one event from its publisher to exactly one place. */
  lemma StoreMoves(s: System, e: InOutEvent, fate: AppendFate, byPublisher: bool, c: Measure)
    requires Additive(c) && Balanced(s, c, c([e])) && TailNeedsTear(s) && Unlocked(s)
    ensures Conserved(AfterStore(s, e, fate, byPublisher), c)
  {
    PutBalances(s.outbox.value, e, fate, c);
  }

  /** Before the append, an offered event goes to the buffer or is dropped, or is still moving. */
  lemma OfferMoves(s: System, e: InOutEvent, c: Measure)
    requires Additive(c) && Balanced(s, c, c([e])) && ReplayAgrees(s, c)
    ensures var moving := if Offer(s).Waits? then c([e]) else 0;
            Balanced(AfterOffer(s, e), c, moving) && ReplayAgrees(AfterOffer(s, e), c)
  {
  }

  lemma WriteMoves(s: System, i: nat, arrived: bool, c: Measure)
    requires Additive(c) && Conserved(s, c) && i < |s.writing|
    ensures Conserved(PublisherStep(s, WriteDone(i)), c) && Conserved(PublisherStep(s, WriteFailed(i, arrived)), c)
  {
    MeasureWithout(c, s.writing, i);
  }

  lemma EnqueueMoves(s: System, i: nat, c: Measure)
    requires Additive(c) && Conserved(s, c) && i < |s.enqueueing|
    ensures Conserved(PublisherStep(s, Enqueue(i)), c)
  {
    var e := s.enqueueing[i];
    var t := s.(enqueueing := Without(s.enqueueing, i));
    assert Balanced(t, c, c([e])) by {
      MeasureWithout(c, s.enqueueing, i);
    }
    OfferMoves(t, e, c);
    assert PublisherStep(s, Enqueue(i)) == if Offer(s).Waits? then t.(storing := t.storing + [e]) else AfterOffer(t, e);
  }

  lemma StoringMoves(s: System, i: nat, fate: AppendFate, c: Measure)
    requires Additive(c) && Conserved(s, c) && TailNeedsTear(s) && i < |s.storing| && Unlocked(s)
    ensures Conserved(PublisherStep(s, Store(i, fate)), c)
  {
    var t := s.(storing := Without(s.storing, i));
    assert Balanced(t, c, c([s.storing[i]])) by {
      MeasureWithout(c, s.storing, i);
    }
    StoreMoves(t, s.storing[i], fate, true, c);
  }

  lemma PublisherMoves(s: System, step: Event, c: Measure)
    requires Additive(c) && Conserved(s, c) && TailNeedsTear(s) && OfPublisher(step)
    ensures Conserved(PublisherStep(s, step), c)
  {
    match step
    case Publish(_) =>
    case WriteDone(i) =>
      if i < |s.writing| {
        WriteMoves(s, i, true, c);
      }
    case WriteFailed(i, arrived) =>
      if i < |s.writing| {
        WriteMoves(s, i, arrived, c);
      }
    case Enqueue(i) =>
      if i < |s.enqueueing| {
        EnqueueMoves(s, i, c);
      }
    case Store(i, fate) =>
      if i < |s.storing| && Unlocked(s) {
        StoringMoves(s, i, fate, c);
      }
  }

  lemma TakeMoves(s: System, c: Measure)
    requires Additive(c) && Conserved(s, c)
    ensures Conserved(LoopStep(s, Take), c)
  {
    if s.queue != [] {
      assert s.queue == [s.queue[0]] + s.queue[1..];
    }
  }

  lemma RetryMoves(s: System, arrived: bool, c: Measure)
    requires Additive(c) && Conserved(s, c)
    ensures Conserved(LoopStep(s, RetryDone), c) && Conserved(LoopStep(s, RetryFailed(arrived)), c)
  {
  }

  lemma RequeueMoves(s: System, c: Measure)
    requires Additive(c) && Conserved(s, c) && s.loop.Enqueueing?
    ensures Conserved(LoopStep(s, Requeue), c)
  {
    var t := s.(loop := Waiting);
    assert Balanced(t, c, c([s.loop.event]));
    OfferMoves(t, s.loop.event, c);
    assert LoopStep(s, Requeue) == if Offer(s).Waits? then s.(loop := Storing(s.loop.event))
        else AfterOffer(t, s.loop.event);
  }

  lemma LoopMoves(s: System, step: Event, c: Measure)
    requires Additive(c) && Conserved(s, c) && TailNeedsTear(s) && OfLoop(step)
    ensures Conserved(LoopStep(s, step), c)
  {
    match step
    case Take => TakeMoves(s, c);
    case RetryDone => RetryMoves(s, true, c);
    case RetryFailed(arrived) => RetryMoves(s, arrived, c);
    case Requeue =>
      if s.loop.Enqueueing? {
        RequeueMoves(s, c);
      }
    case StoreRetry(fate) =>
      if s.loop.Storing? && Unlocked(s) {
        StoreMoves(s.(loop := Waiting), s.loop.event, fate, false, c);
      }
    case SeeDone =>
  }

  lemma ReplayMoves(s: System, step: Event, c: Measure)
    requires Additive(c) && Conserved(s, c) && OfReplay(step)
    ensures Conserved(ReplayStep(s, step), c)
  {
    if s.replay.Replaying? && s.replay.pending != [] {
      assert s.replay.pending == [s.replay.pending[0]] + s.replay.pending[1..];
    }
    if step.EndReplay? && s.replay.Replaying? && s.replay.pending == [] && s.outbox.Some? {
      ReplayBalances(s.outbox.value, s.replay.sent, s.replay.still, step.rewrite, c);
    }
  }

  /** Every step moves each copy of an event from one place to one place, in the ledger of what
      was published twice and what torn lines cost. */
  lemma StepConserves(s: System, step: Event, c: Measure)
    requires Additive(c) && Conserved(s, c) && TailNeedsTear(s)
    ensures Conserved(Step(s, step), c)
  {
    if OfPublisher(step) {
      PublisherMoves(s, step, c);
    } else if OfReplay(step) {
      ReplayMoves(s, step, c);
    } else if OfLoop(step) {
      LoopMoves(s, step, c);
    }
  }

  lemma StepKeepsBounded(s: System, step: Event)
    requires Bounded(s)
    ensures Bounded(Step(s, step)) && Step(s, step).outbox.Some? == s.outbox.Some?
  {
  }

  /** In every interleaving of publishers, retry loop, replay, close and crashes, on any disk:
      no accepted event goes missing beyond the named losses, every further copy is one that a
      replay published from an outbox that still holds it or one a torn line uncovered, the
      buffer holds at most 1024, and every event whose Publish returned nil is acknowledged by
      Kafka, in the outbox, or spoiled there by a torn line; by any additive measure, such as
      the occurrences of one event. */
  lemma {:induction false} ProducerConserves(hasOutbox: bool, steps: seq<Event>, c: Measure)
    requires Additive(c)
    ensures var s := After(Initial(hasOutbox), steps);
            Conserved(s, c) && Bounded(s) && s.outbox.Some? == hasOutbox
    decreases |steps|
  {
    if steps == [] {
      assert Held(EMPTY) == [];
    } else {
      var s := After(Initial(hasOutbox), steps[..|steps| - 1]);
      ProducerConserves(hasOutbox, steps[..|steps| - 1], c);
      StepConserves(s, steps[|steps| - 1], c);
      StepKeepsBounded(s, steps[|steps| - 1]);
    }
  }

  // ---------------------------------------------------------------------------
  // When events are published twice.
  // ---------------------------------------------------------------------------

  /** The step ends a replay that has published something without taking it off the file. */
  predicate CutsShort(s: System, step: Event) {
    && s.replay.Replaying? && s.replay.sent != []
    && (step.Crash? || (step.EndReplay? && step.rewrite.Untouched? && s.replay.pending == [] && s.outbox.Some?))
  }

  /** The exact number of copies that stay in the outbox although they were published. */
  lemma RepeatsOfStep(s: System, step: Event)
    ensures Step(s, step).repeated == s.repeated + if CutsShort(s, step) then s.replay.sent else []
  {
    assert s.repeated + [] == s.repeated;
  }

  predicate CutSomewhere(s: System, steps: seq<Event>)
    decreases |steps|
  {
    steps != [] && (CutSomewhere(s, steps[..|steps| - 1])
                    || CutsShort(After(s, steps[..|steps| - 1]), steps[|steps| - 1]))
  }

  lemma {:induction false} RepeatsNeedCuts(s: System, steps: seq<Event>)
    requires s.repeated == []
    ensures After(s, steps).repeated == [] <==> !CutSomewhere(s, steps)
    decreases |steps|
  {
    if steps != [] {
      RepeatsNeedCuts(s, steps[..|steps| - 1]);
      RepeatsOfStep(After(s, steps[..|steps| - 1]), steps[|steps| - 1]);
    }
  }

  /** The ledger without repeats: each accepted event and each one uncovered is acknowledged, in
      memory, in the outbox or lost, once. */
  ghost predicate Once(s: System, x: InOutEvent) {
    var c := Occurrences(x);
    c(s.accepted) + c(SentSoFar(s.replay)) + c(s.extra) == c(s.acked) + InMemory(s, c) + InOutbox(s, c) + Lost(s, c)
  }

  ghost predicate ExactlyOnce(s: System) {
    forall x :: Once(s, x)
  }

  /** Exactly when does no copy end up in two places: if and only if no replay that published
      something was cut short, by a crash or by a file that could not be replaced. */
  lemma OnceUnlessCutShort(hasOutbox: bool, steps: seq<Event>)
    ensures ExactlyOnce(After(Initial(hasOutbox), steps)) <==> !CutSomewhere(Initial(hasOutbox), steps)
  {
    var s := After(Initial(hasOutbox), steps);
    RepeatsNeedCuts(Initial(hasOutbox), steps);
    forall x ensures Once(s, x) <==> Count(s.repeated, x) == 0 {
      OccurrencesAdd(x);
      ProducerConserves(hasOutbox, steps, Occurrences(x));
    }
    if s.repeated != [] {
      CountIn(s.repeated, s.repeated[0]);
      assert !Once(s, s.repeated[0]);
    }
  }

  // ---------------------------------------------------------------------------
  // When events are lost.
  // ---------------------------------------------------------------------------

  /** The net amount: what was accepted and is neither acknowledged nor in memory nor in the
      outbox. It is negative if torn lines uncovered what nobody published. */
  ghost function Missing(s: System, c: Measure): int {
    c(s.accepted) + Doubled(s, c) - c(s.acked) - InMemory(s, c) - InOutbox(s, c)
  }

  /** In the ledger that is what was given up and not uncovered. */
  lemma MissingIsNet(s: System, c: Measure)
    requires Conserved(s, c)
    ensures Missing(s, c) == Lost(s, c) - c(s.extra)
  {
  }

  /** What goes missing with an append: the event of one that is refused; with a torn line, what
      it held before and the event, less what it holds then; nothing if a line of its own was
      completed, whatever the append reports. */
  ghost function AppendMissing(shelf: Shelf, e: InOutEvent, fate: AppendFate, c: Measure): int {
    match fate
    case Refused => c([e])
    case LeftTorn(found) => c([e]) + c(shelf.tail) - c(found)
    case Finished(found, _) => if shelf.torn then c([e]) + c(shelf.tail) - c(found) else 0
  }

  /** With a rewrite: what lies behind the break, less what the broken line holds. */
  ghost function RewriteMissing(still: seq<InOutEvent>, rewrite: RewriteFate, c: Measure): int {
    match rewrite
    case Broken(lines, found, torn) => c(still[Upto(lines, |still|)..]) - (if torn then c(found) else 0)
    case _ => 0
  }

  ghost function StepMissing(s: System, step: Event, c: Measure): int {
    match step
    case Enqueue(i) => if i < |s.enqueueing| && Offer(s).Dropped? then c([s.enqueueing[i]]) else 0
    case Requeue => if s.loop.Enqueueing? && Offer(s).Dropped? then c([s.loop.event]) else 0
    case Store(i, fate) =>
      if i < |s.storing| && Unlocked(s) then AppendMissing(s.outbox.value, s.storing[i], fate, c) else 0
    case StoreRetry(fate) =>
      if s.loop.Storing? && Unlocked(s) then AppendMissing(s.outbox.value, s.loop.event, fate, c) else 0
    case EndReplay(rewrite) =>
      if s.replay.Replaying? && s.replay.pending == [] && s.outbox.Some?
          then RewriteMissing(s.replay.still, rewrite, c) else 0
    case Crash => InMemory(s, c)
    case _ => 0
  }

  lemma PutMisses(shelf: Shelf, e: InOutEvent, fate: AppendFate, c: Measure)
    requires Additive(c) && (!shelf.torn ==> shelf.tail == [])
    ensures c([e]) + c(Held(shelf)) - c(Held(Put(shelf, e, fate).shelf)) == AppendMissing(shelf, e, fate, c)
  {
    PutBalances(shelf, e, fate, c);
    assert shelf.tail + [] == shelf.tail;
  }

  lemma RewriteMisses(shelf: Shelf, sent: seq<InOutEvent>, still: seq<InOutEvent>, rewrite: RewriteFate, c: Measure)
    requires Additive(c) && c(Held(shelf)) == c(sent) + c(still)
    ensures c(Held(shelf)) - c(Held(Rewrite(shelf, still, rewrite).shelf))
            == RewriteMissing(still, rewrite, c) + (if rewrite.Untouched? then 0 else c(sent))
  {
    ReplayBalances(shelf, sent, still, rewrite, c);
  }

  lemma StoreMisses(s: System, e: InOutEvent, fate: AppendFate, byPublisher: bool, c: Measure)
    requires Additive(c) && TailNeedsTear(s) && Unlocked(s)
    ensures Missing(AfterStore(s, e, fate, byPublisher), c)
            == Missing(s, c) - c([e]) + AppendMissing(s.outbox.value, e, fate, c)
  {
    PutMisses(s.outbox.value, e, fate, c);
  }

  lemma OfferMisses(s: System, e: InOutEvent, c: Measure)
    requires Additive(c)
    ensures Missing(AfterOffer(s, e), c) == Missing(s, c) - if Offer(s).Queued? then c([e]) else 0
  {
  }

  lemma WriteMisses(s: System, i: nat, arrived: bool, c: Measure)
    requires Additive(c) && i < |s.writing|
    ensures Missing(PublisherStep(s, WriteDone(i)), c) == Missing(s, c)
    ensures Missing(PublisherStep(s, WriteFailed(i, arrived)), c) == Missing(s, c)
  {
    MeasureWithout(c, s.writing, i);
  }

  lemma EnqueueMisses(s: System, i: nat, c: Measure)
    requires Additive(c) && i < |s.enqueueing|
    ensures Missing(PublisherStep(s, Enqueue(i)), c) == Missing(s, c) + StepMissing(s, Enqueue(i), c)
  {
    var e := s.enqueueing[i];
    var t := s.(enqueueing := Without(s.enqueueing, i));
    assert Missing(t, c) == Missing(s, c) + c([e]) by {
      MeasureWithout(c, s.enqueueing, i);
    }
    OfferMisses(t, e, c);
    assert PublisherStep(s, Enqueue(i)) == if Offer(s).Waits? then t.(storing := t.storing + [e]) else AfterOffer(t, e);
  }

  lemma StoringMisses(s: System, i: nat, fate: AppendFate, c: Measure)
    requires Additive(c) && TailNeedsTear(s) && i < |s.storing| && Unlocked(s)
    ensures Missing(PublisherStep(s, Store(i, fate)), c) == Missing(s, c) + StepMissing(s, Store(i, fate), c)
  {
    var t := s.(storing := Without(s.storing, i));
    assert Missing(t, c) == Missing(s, c) + c([s.storing[i]]) by {
      MeasureWithout(c, s.storing, i);
    }
    StoreMisses(t, s.storing[i], fate, true, c);
  }

  lemma PublisherMisses(s: System, step: Event, c: Measure)
    requires Additive(c) && TailNeedsTear(s) && OfPublisher(step)
    ensures Missing(PublisherStep(s, step), c) == Missing(s, c) + StepMissing(s, step, c)
  {
    match step
    case Publish(_) =>
    case WriteDone(i) =>
      if i < |s.writing| {
        WriteMisses(s, i, true, c);
      }
    case WriteFailed(i, arrived) =>
      if i < |s.writing| {
        WriteMisses(s, i, arrived, c);
      }
    case Enqueue(i) =>
      if i < |s.enqueueing| {
        EnqueueMisses(s, i, c);
      }
    case Store(i, fate) =>
      if i < |s.storing| && Unlocked(s) {
        StoringMisses(s, i, fate, c);
      }
  }

  lemma TakeMisses(s: System, c: Measure)
    requires Additive(c)
    ensures Missing(LoopStep(s, Take), c) == Missing(s, c)
  {
    if s.queue != [] {
      assert s.queue == [s.queue[0]] + s.queue[1..];
    }
  }

  lemma RetryMisses(s: System, arrived: bool, c: Measure)
    requires Additive(c)
    ensures Missing(LoopStep(s, RetryDone), c) == Missing(s, c)
            && Missing(LoopStep(s, RetryFailed(arrived)), c) == Missing(s, c)
  {
  }

  lemma RequeueMisses(s: System, c: Measure)
    requires Additive(c) && s.loop.Enqueueing?
    ensures Missing(LoopStep(s, Requeue), c) == Missing(s, c) + StepMissing(s, Requeue, c)
  {
    var t := s.(loop := Waiting);
    assert Missing(t, c) == Missing(s, c) + c([s.loop.event]);
    OfferMisses(t, s.loop.event, c);
    assert LoopStep(s, Requeue) == if Offer(s).Waits? then s.(loop := Storing(s.loop.event))
        else AfterOffer(t, s.loop.event);
  }

  lemma StoreRetryMisses(s: System, fate: AppendFate, c: Measure)
    requires Additive(c) && TailNeedsTear(s) && s.loop.Storing? && Unlocked(s)
    ensures Missing(LoopStep(s, StoreRetry(fate)), c) == Missing(s, c) + StepMissing(s, StoreRetry(fate), c)
  {
    StoreMisses(s.(loop := Waiting), s.loop.event, fate, false, c);
  }

  lemma LoopMisses(s: System, step: Event, c: Measure)
    requires Additive(c) && TailNeedsTear(s) && OfLoop(step)
    ensures Missing(LoopStep(s, step), c) == Missing(s, c) + StepMissing(s, step, c)
  {
    match step
    case Take => TakeMisses(s, c);
    case RetryDone => RetryMisses(s, true, c);
    case RetryFailed(arrived) => RetryMisses(s, arrived, c);
    case Requeue =>
      if s.loop.Enqueueing? {
        RequeueMisses(s, c);
      }
    case StoreRetry(fate) =>
      if s.loop.Storing? && Unlocked(s) {
        StoreRetryMisses(s, fate, c);
      }
    case SeeDone =>
  }

  lemma ReplayMisses(s: System, step: Event, c: Measure)
    requires Additive(c) && ReplayAgrees(s, c) && OfReplay(step)
    ensures Missing(ReplayStep(s, step), c) == Missing(s, c) + StepMissing(s, step, c)
  {
    if step.EndReplay? && s.replay.Replaying? && s.replay.pending == [] && s.outbox.Some? {
      RewriteMisses(s.outbox.value, s.replay.sent, s.replay.still, step.rewrite, c);
    }
  }

  /** Exactly what goes missing in a step, net: an event offered to a full buffer without an
      outbox; an event the outbox refuses; what a torn line or a broken rewrite costs, less what
      it still holds; all that a dying process has in memory; and nothing in any other case. */
  lemma MissingOfStep(s: System, step: Event, c: Measure)
    requires Additive(c) && Conserved(s, c) && TailNeedsTear(s)
    ensures Missing(Step(s, step), c) == Missing(s, c) + StepMissing(s, step, c)
  {
    if OfPublisher(step) {
      PublisherMisses(s, step, c);
    } else if OfReplay(step) {
      ReplayMisses(s, step, c);
    } else if OfLoop(step) {
      LoopMisses(s, step, c);
    }
  }

  ghost function RunMissing(s: System, steps: seq<Event>, c: Measure): int
    decreases |steps|
  {
    if steps == [] then 0
    else RunMissing(s, steps[..|steps| - 1], c) + StepMissing(After(s, steps[..|steps| - 1]), steps[|steps| - 1], c)
  }

  /** Over any run, what is missing in the end is what went missing step by step. */
  lemma {:induction false} MissingOfRun(hasOutbox: bool, steps: seq<Event>, c: Measure)
    requires Additive(c)
    ensures Missing(After(Initial(hasOutbox), steps), c) == RunMissing(Initial(hasOutbox), steps, c)
    decreases |steps|
  {
    if steps == [] {
      assert Held(EMPTY) == [];
    } else {
      var init := steps[..|steps| - 1];
      MissingOfRun(hasOutbox, init, c);
      ProducerConserves(hasOutbox, init, c);
      MissingOfStep(After(Initial(hasOutbox), init), steps[|steps| - 1], c);
    }
  }

  /** No line tears and no rewrite breaks; appends and whole rewrites may still fail. */
  predicate TearsNothing(step: Event) {
    && (step.Store? || step.StoreRetry? ==> !step.fate.LeftTorn?)
    && (step.EndReplay? ==> !step.rewrite.Broken?)
  }

  predicate InProcess(s: System, x: InOutEvent) {
    x in s.queue || x in s.writing || x in s.enqueueing || x in s.storing || x in LoopHeld(s.loop)
  }

  /** The step gives `x` up: a full buffer without an outbox, an append that is refused, or a
      dying process. */
  predicate GivesUp(s: System, step: Event, x: InOutEvent) {
    match step
    case Enqueue(i) => i < |s.enqueueing| && Offer(s).Dropped? && s.enqueueing[i] == x
    case Requeue => s.loop.Enqueueing? && Offer(s).Dropped? && s.loop.event == x
    case Store(i, fate) => i < |s.storing| && Unlocked(s) && fate.Refused? && s.storing[i] == x
    case StoreRetry(fate) => s.loop.Storing? && Unlocked(s) && fate.Refused? && s.loop.event == x
    case Crash => InProcess(s, x)
    case _ => false
  }

  predicate GivenUp(s: System, steps: seq<Event>, x: InOutEvent)
    decreases |steps|
  {
    steps != [] && (GivenUp(s, steps[..|steps| - 1], x)
                    || GivesUp(After(s, steps[..|steps| - 1]), steps[|steps| - 1], x))
  }

  predicate Clean(s: System) {
    s.outbox.Some? ==> !s.outbox.value.torn && s.outbox.value.tail == []
  }

  lemma InProcessCounts(s: System, x: InOutEvent)
    ensures InMemory(s, Occurrences(x)) > 0 <==> InProcess(s, x)
  {
    CountIn(s.queue, x);
    CountIn(s.writing, x);
    CountIn(s.enqueueing, x);
    CountIn(s.storing, x);
    CountIn(LoopHeld(s.loop), x);
  }

  lemma GivesUpExactly(s: System, step: Event, x: InOutEvent)
    requires TearsNothing(step) && Clean(s)
    ensures StepMissing(s, step, Occurrences(x)) >= 0
    ensures StepMissing(s, step, Occurrences(x)) > 0 <==> GivesUp(s, step, x)
  {
    match step
    case Crash => InProcessCounts(s, x);
    case Enqueue(i) =>
      if i < |s.enqueueing| {
        CountOf(s.enqueueing[i], x);
      }
    case Requeue =>
      if s.loop.Enqueueing? {
        CountOf(s.loop.event, x);
      }
    case Store(i, _) =>
      if i < |s.storing| {
        CountOf(s.storing[i], x);
      }
    case StoreRetry(_) =>
      if s.loop.Storing? {
        CountOf(s.loop.event, x);
      }
    case _ =>
  }

  lemma CountOf(e: InOutEvent, x: InOutEvent)
    ensures Count([e], x) == if e == x then 1 else 0
  {
    assert [e][..0] == [];
  }

  lemma StaysClean(s: System, step: Event)
    requires TearsNothing(step) && Clean(s)
    ensures Clean(Step(s, step))
  {
  }

  lemma {:induction false} UntornRun(hasOutbox: bool, steps: seq<Event>, x: InOutEvent)
    requires forall i :: 0 <= i < |steps| ==> TearsNothing(steps[i])
    ensures var init := Initial(hasOutbox);
            && Clean(After(init, steps)) && RunMissing(init, steps, Occurrences(x)) >= 0
            && (RunMissing(init, steps, Occurrences(x)) > 0 <==> GivenUp(init, steps, x))
    decreases |steps|
  {
    if steps != [] {
      var init := steps[..|steps| - 1];
      assert forall i :: 0 <= i < |init| ==> init[i] == steps[i];
      UntornRun(hasOutbox, init, x);
      assert TearsNothing(steps[|steps| - 1]);
      GivesUpExactly(After(Initial(hasOutbox), init), steps[|steps| - 1], x);
      StaysClean(After(Initial(hasOutbox), init), steps[|steps| - 1]);
    }
  }

  /** On a disk that tears no line, an event is missing if and only if some step gave it up: a
      full buffer without an outbox, an append that was refused, or a crash. */
  lemma MissingExactly(hasOutbox: bool, steps: seq<Event>, x: InOutEvent)
    requires forall i :: 0 <= i < |steps| ==> TearsNothing(steps[i])
    ensures Missing(After(Initial(hasOutbox), steps), Occurrences(x)) > 0 <==> GivenUp(Initial(hasOutbox), steps, x)
  {
    OccurrencesAdd(x);
    MissingOfRun(hasOutbox, steps, Occurrences(x));
    UntornRun(hasOutbox, steps, x);
  }

  predicate HealthyAppend(fate: AppendFate) {
    fate.Finished? && fate.ok
  }

  /** No crash, no failing append, no rewrite that breaks; a file that cannot be replaced and a
      Kafka that fails are allowed. */
  predicate Healthy(step: Event) {
    && !step.Crash?
    && (step.Store? || step.StoreRetry? ==> HealthyAppend(step.fate))
    && (step.EndReplay? ==> !step.rewrite.Broken?)
  }

  ghost predicate NoDiskOrProcessFailure(steps: seq<Event>) {
    forall i :: 0 <= i < |steps| ==> Healthy(steps[i])
  }

  ghost predicate NothingLost(s: System) {
    && s.outbox.Some? && !s.outbox.value.torn && s.outbox.value.tail == []
    && s.overflowed == [] && s.unspooled == [] && s.wiped == [] && s.spoiled == [] && s.extra == []
  }

  lemma HealthyStep(s: System, step: Event)
    requires NothingLost(s) && Healthy(step)
    ensures NothingLost(Step(s, step))
  {
  }

  lemma {:induction false} HealthyRun(steps: seq<Event>)
    requires NoDiskOrProcessFailure(steps)
    ensures NothingLost(After(Initial(true), steps))
    decreases |steps|
  {
    if steps != [] {
      var init := steps[..|steps| - 1];
      assert forall i :: 0 <= i < |init| ==> init[i] == steps[i];
      HealthyRun(init);
      assert Healthy(steps[|steps| - 1]);
      HealthyStep(After(Initial(true), init), steps[|steps| - 1]);
    }
  }

  /** With an outbox on a healthy disk and no crash nothing is ever lost: every accepted event
      is acknowledged, in memory or in the outbox, so once memory is empty it is durable. */
  lemma NothingLostOnHealthyDisk(steps: seq<Event>, c: Measure)
    requires Additive(c) && NoDiskOrProcessFailure(steps)
    ensures var s := After(Initial(true), steps);
            && Lost(s, c) == 0 && c(s.extra) == 0 && Missing(s, c) == 0
            && c(s.accepted) + Doubled(s, c) == c(s.acked) + InMemory(s, c) + InOutbox(s, c)
            && c(s.returnedNil) + Doubled(s, c) <= c(s.acked) + InOutbox(s, c)
  {
    HealthyRun(steps);
    ProducerConserves(true, steps, c);
  }

  // ---------------------------------------------------------------------------
  // Runs that lose and runs that repeat.
  // ---------------------------------------------------------------------------

  /** One publish whose write fails without arriving. */
  function FailedPublish(e: InOutEvent): seq<Event> {
    [Publish(e), WriteFailed(0, false), Enqueue(0)]
  }

  function Fill(e: InOutEvent, n: nat): seq<Event> {
    if n == 0 then [] else Fill(e, n - 1) + FailedPublish(e)
  }

  function Copies(e: InOutEvent, n: nat): seq<InOutEvent> {
    seq(n, _ => e)
  }

  function FullOf(hasOutbox: bool, e: InOutEvent, n: nat): System {
    Initial(hasOutbox).(queue := Copies(e, n), accepted := Copies(e, n))
  }

  lemma OneFailedPublish(hasOutbox: bool, e: InOutEvent, n: nat)
    ensures After(FullOf(hasOutbox, e, n), FailedPublish(e))
            == Step(FullOf(hasOutbox, e, n).(accepted := Copies(e, n + 1), enqueueing := [e]), Enqueue(0))
  {
    var s := FullOf(hasOutbox, e, n);
    Runs.AfterThree(Step, s, Publish(e), WriteFailed(0, false), Enqueue(0));
    assert Copies(e, n) + [e] == Copies(e, n + 1);
    var s1 := Step(s, Publish(e));
    assert s1 == s.(accepted := Copies(e, n + 1), writing := [e]);
    assert Step(s1, WriteFailed(0, false)) == s.(accepted := Copies(e, n + 1), enqueueing := [e]);
  }

  lemma QueuedPublish(hasOutbox: bool, e: InOutEvent, n: nat)
    requires n < RETRY_CAPACITY
    ensures After(FullOf(hasOutbox, e, n), FailedPublish(e)) == FullOf(hasOutbox, e, n + 1)
  {
    OneFailedPublish(hasOutbox, e, n);
    assert Copies(e, n) + [e] == Copies(e, n + 1);
    var s := FullOf(hasOutbox, e, n).(accepted := Copies(e, n + 1), enqueueing := [e]);
    assert Without([e], 0) == [];
    assert PublisherStep(s, Enqueue(0)) == AfterOffer(s.(enqueueing := []), e);
  }

  lemma FillOnce(hasOutbox: bool, e: InOutEvent, steps: seq<Event>, n: nat)
    requires n < RETRY_CAPACITY && After(Initial(hasOutbox), steps) == FullOf(hasOutbox, e, n)
    ensures After(Initial(hasOutbox), steps + FailedPublish(e)) == FullOf(hasOutbox, e, n + 1)
  {
    Runs.AfterConcat(Step, Initial(hasOutbox), steps, FailedPublish(e));
    QueuedPublish(hasOutbox, e, n);
  }

  lemma FillNone(hasOutbox: bool, e: InOutEvent)
    ensures After(Initial(hasOutbox), []) == FullOf(hasOutbox, e, 0)
  {
    assert Copies(e, 0) == [];
  }

  lemma {:induction false} FillRun(hasOutbox: bool, e: InOutEvent, n: nat)
    requires n <= RETRY_CAPACITY
    ensures After(Initial(hasOutbox), Fill(e, n)) == FullOf(hasOutbox, e, n)
    decreases n
  {
    if n == 0 {
      FillNone(hasOutbox, e);
    } else {
      FillRun(hasOutbox, e, n - 1);
      FillOnce(hasOutbox, e, Fill(e, n - 1), n - 1);
    }
  }

  function Overflowing(e: InOutEvent): seq<Event> {
    Fill(e, RETRY_CAPACITY) + FailedPublish(e)
  }

  lemma OverflowRun(hasOutbox: bool, e: InOutEvent)
    ensures After(Initial(hasOutbox), Overflowing(e)) ==
            FullOf(hasOutbox, e, RETRY_CAPACITY).(accepted := Copies(e, RETRY_CAPACITY + 1),
              overflowed := if hasOutbox then [] else [e], storing := if hasOutbox then [e] else [])
  {
    FillRun(hasOutbox, e, RETRY_CAPACITY);
    Runs.AfterConcat(Step, Initial(hasOutbox), Fill(e, RETRY_CAPACITY), FailedPublish(e));
    OneFailedPublish(hasOutbox, e, RETRY_CAPACITY);
  }

  /** A failing input: without an outbox the 1025th event that Kafka does not take is gone. */
  lemma OverflowLoses(e: InOutEvent)
    ensures var s := After(Initial(false), Overflowing(e));
            s.overflowed == [e] && |s.queue| == 1024 && Missing(s, Occurrences(e)) == 1
  {
    OverflowRun(false, e);
    OccurrencesAdd(e);
    ProducerConserves(false, Overflowing(e), Occurrences(e));
    CountOf(e, e);
  }

  /** The 1025th event goes to the outbox; a replay publishes it and the process dies. */
  function DyingReplay(e: InOutEvent): seq<Event> {
    Overflowing(e) + [Store(0, Finished([], true))] + [BeginReplay, ReplayDone, Crash]
  }

  lemma Stored(e: InOutEvent)
    ensures var s := After(Initial(true), Overflowing(e) + [Store(0, Finished([], true))]);
            s.outbox == Some(Shelf([e], [], false)) && s.replay == Resting && s.acked == [] && s.repeated == []
  {
    OverflowRun(true, e);
    Runs.AfterSnoc(Step, Initial(true), Overflowing(e), Store(0, Finished([], true)));
    var s := After(Initial(true), Overflowing(e));
    assert Put(EMPTY, e, Finished([], true)).shelf == Shelf([e], [], false);
  }

  lemma ReplayDies(s: System, e: InOutEvent)
    requires s.outbox == Some(Shelf([e], [], false)) && s.replay == Resting && s.acked == [] && s.repeated == []
    ensures var t := After(s, [BeginReplay, ReplayDone, Crash]);
            t.repeated == [e] && t.acked == [e] && t.outbox == s.outbox
  {
    assert Held(s.outbox.value) == [e];
    Runs.AfterThree(Step, s, BeginReplay, ReplayDone, Crash);
    var begun := Step(s, BeginReplay);
    assert begun == s.(replay := Replaying([e], [], []));
    ReplayedOne(begun, e);
  }

  lemma ReplayedOne(s: System, e: InOutEvent)
    requires s.replay == Replaying([e], [], []) && s.acked == [] && s.repeated == []
    ensures var t := Step(Step(s, ReplayDone), Crash);
            t.repeated == [e] && t.acked == [e] && t.outbox == s.outbox
  {
    assert [e][1..] == [] && [] + [e] == [e];
    var t := Step(s, ReplayDone);
    assert t.replay == Replaying([], [e], []) && t.acked == [e] && t.repeated == [];
  }

  /** A failing input: the event is acknowledged and still in the outbox, to be published again. */
  lemma CrashRepeats(e: InOutEvent)
    ensures var s := After(Initial(true), DyingReplay(e));
            s.repeated == [e] && s.acked == [e] && s.outbox == Some(Shelf([e], [], false))
    ensures !ExactlyOnce(After(Initial(true), DyingReplay(e)))
  {
    Stored(e);
    var steps := Overflowing(e) + [Store(0, Finished([], true))];
    Runs.AfterConcat(Step, Initial(true), steps, [BeginReplay, ReplayDone, Crash]);
    ReplayDies(After(Initial(true), steps), e);
    RepeatsNeedCuts(Initial(true), DyingReplay(e));
    OnceUnlessCutShort(true, DyingReplay(e));
  }

  /** Once the retry goroutine has seen `done`, what is in the buffer stays there: Close
      strands it, whatever the publishers still do. */
  lemma {:induction false} CloseStrandsBuffer(s: System, steps: seq<Event>)
    requires s.loop.Stopped? && forall i :: 0 <= i < |steps| ==> !steps[i].Crash?
    ensures After(s, steps).loop.Stopped? && s.queue <= After(s, steps).queue
    decreases |steps|
  {
    if steps != [] {
      CloseStrandsBuffer(s, steps[..|steps| - 1]);
      StoppedStep(After(s, steps[..|steps| - 1]), steps[|steps| - 1]);
    }
  }

  lemma StoppedStep(s: System, step: Event)
    requires s.loop.Stopped? && !step.Crash?
    ensures Step(s, step).loop.Stopped? && s.queue <= Step(s, step).queue
  {
  }

  // ---------------------------------------------------------------------------
  // Draining the buffer and the outbox.
  // ---------------------------------------------------------------------------

  function Drain(n: nat): seq<Event> {
    if n == 0 then [] else Drain(n - 1) + [Take, RetryDone]
  }

  function Drained(s: System, n: nat): System
    requires n <= |s.queue|
  {
    s.(queue := s.queue[n..], kafka := s.kafka + s.queue[..n], acked := s.acked + s.queue[..n])
  }

  lemma DrainOne(s: System, n: nat)
    requires s.loop.Waiting? && n < |s.queue|
    ensures Step(Step(Drained(s, n), Take), RetryDone) == Drained(s, n + 1)
  {
    assert s.queue[n..][0] == s.queue[n] && s.queue[n..][1..] == s.queue[n + 1..];
    assert s.queue[..n + 1] == s.queue[..n] + [s.queue[n]];
    assert s.kafka + s.queue[..n] + [s.queue[n]] == s.kafka + s.queue[..n + 1];
    assert s.acked + s.queue[..n] + [s.queue[n]] == s.acked + s.queue[..n + 1];
  }

  /** As long as the goroutine runs, Kafka's return empties the buffer: each queued event is
      acknowledged, oldest first. */
  lemma {:induction false} RetryDrainsBuffer(s: System, n: nat)
    requires s.loop.Waiting? && n <= |s.queue|
    ensures After(s, Drain(n)) == Drained(s, n)
  {
    if n == 0 {
      assert s.queue[..0] == [] && s.queue[0..] == s.queue && s.kafka + [] == s.kafka && s.acked + [] == s.acked;
    } else {
      RetryDrainsBuffer(s, n - 1);
      var steps := Drain(n - 1);
      Runs.AfterSnoc(Step, s, steps, Take);
      Runs.AfterSnoc(Step, s, steps + [Take], RetryDone);
      assert steps + [Take] + [RetryDone] == Drain(n);
      DrainOne(s, n - 1);
    }
  }

  /** The publish attempts of a replay of n events. */
  function Attempts(found: seq<InOutEvent>, publish: Outbox.Publisher, n: nat): seq<Event>
    requires n <= |found|
  {
    if n == 0 then []
    else Attempts(found, publish, n - 1) + [if publish(n - 1, found[n - 1]) then ReplayDone else ReplayFailed(false)]
  }

  /** Uninterrupted, the attempts of a replay publish and keep what FileOutbox.Replay does. */
  lemma {:induction false} AttemptsAreReplay(s: System, found: seq<InOutEvent>, publish: Outbox.Publisher, n: nat)
    requires s.replay == Replaying(found, [], []) && n <= |found|
    ensures After(s, Attempts(found, publish, n)).replay
            == Replaying(found[n..], Outbox.Sent(found[..n], publish), Outbox.StillPending(found[..n], publish))
  {
    if n == 0 {
      assert found[0..] == found && found[..0] == [];
    } else {
      AttemptsAreReplay(s, found, publish, n - 1);
      var last := if publish(n - 1, found[n - 1]) then ReplayDone else ReplayFailed(false);
      Runs.AfterSnoc(Step, s, Attempts(found, publish, n - 1), last);
      AttemptStep(After(s, Attempts(found, publish, n - 1)), found, publish, n, last);
    }
  }

  lemma AttemptStep(t: System, found: seq<InOutEvent>, publish: Outbox.Publisher, n: nat, last: Event)
    requires 0 < n <= |found| && last == if publish(n - 1, found[n - 1]) then ReplayDone else ReplayFailed(false)
    requires t.replay == Replaying(found[n - 1..], Outbox.Sent(found[..n - 1], publish),
                                   Outbox.StillPending(found[..n - 1], publish))
    ensures Step(t, last).replay == Replaying(found[n..], Outbox.Sent(found[..n], publish),
                                              Outbox.StillPending(found[..n], publish))
  {
    assert found[n - 1..][0] == found[n - 1] && found[n - 1..][1..] == found[n..];
    assert found[..n][..n - 1] == found[..n - 1];
    assert Outbox.Sent(found[..n - 1], publish) + [] == Outbox.Sent(found[..n - 1], publish);
    assert Outbox.StillPending(found[..n - 1], publish) + [] == Outbox.StillPending(found[..n - 1], publish);
  }

  // ---------------------------------------------------------------------------
  // The producer object.
  // ---------------------------------------------------------------------------

  class KafkaProducer {
    const outbox: Outbox.FileOutbox?
    var retry: seq<InOutEvent>
    var topic: seq<InOutEvent>
    var done: bool

    ghost predicate Valid()
      reads this
    {
      |retry| <= RETRY_CAPACITY
    }

    /** The outbox file, absent if no outbox is configured. */
    ghost function File(): Option<Outbox.Bytes>
      reads this, outbox
    {
      if outbox == null then None else outbox.file
    }

    constructor (outbox: Outbox.FileOutbox?)
      ensures Valid() && this.outbox == outbox && retry == [] && topic == [] && !done
    {
      this.outbox, this.retry, this.topic, this.done := outbox, [], [], false;
    }

    /** `disk` is what the outbox disk does if it is asked. Returns whether the result is nil. */
    method EnqueueRetry(event: InOutEvent, disk: Outbox.AppendDisk) returns (isNil: bool)
      requires Valid()
      modifies this`retry, outbox
      ensures Valid()
      ensures retry == if |old(retry)| < RETRY_CAPACITY then old(retry) + [event] else old(retry)
      ensures (File(), isNil) == if |old(retry)| < RETRY_CAPACITY || outbox == null then (old(File()), false)
                                 else Outbox.Appended(outbox.codec, old(File()), event, disk)
    {
      if |retry| < RETRY_CAPACITY {
        retry := retry + [event];
        return false;
      }
      if outbox == null {
        return false;
      }
      isNil := outbox.Append(event, disk);
    }

    /** One Kafka write; a failed one may still reach the topic. */
    method Write(event: InOutEvent, succeeds: bool, arrives: bool) returns (ok: bool)
      modifies this`topic
      ensures ok == succeeds
      ensures topic == if succeeds || arrives then old(topic) + [event] else old(topic)
    {
      if succeeds || arrives {
        topic := topic + [event];
      }
      return succeeds;
    }

    /** Nil means that the event is in the topic, or that it can be found in the outbox unless
        its line continued a torn one. */
    method Publish(event: InOutEvent, succeeds: bool, arrives: bool, disk: Outbox.AppendDisk) returns (isNil: bool)
      requires Valid()
      modifies this`retry, this`topic, outbox
      ensures Valid()
      ensures topic == if succeeds || arrives then old(topic) + [event] else old(topic)
      ensures succeeds ==> isNil && retry == old(retry) && File() == old(File())
      ensures !succeeds ==>
                && retry == (if |old(retry)| < RETRY_CAPACITY then old(retry) + [event] else old(retry))
                && (File(), isNil) == (if |old(retry)| < RETRY_CAPACITY || outbox == null then (old(File()), false)
                                       else Outbox.Appended(outbox.codec, old(File()), event, disk))
      ensures isNil && !succeeds && Outbox.Faithful(outbox.codec) ==>
                (event in Held(ShelfOf(outbox.codec, File())) || ShelfOf(outbox.codec, old(File())).torn)
    {
      var ok := Write(event, succeeds, arrives);
      if ok {
        return true;
      }
      isNil := EnqueueRetry(event, disk);
      if isNil && Outbox.Faithful(outbox.codec) {
        AppendRefines(outbox.codec, old(File()), event, disk);
        SpooledIsHeld(ShelfOf(outbox.codec, old(File())), event, FateOf(outbox.codec, old(File()), event, disk));
      }
    }

    /** One turn of the retry goroutine that finds the buffer non-empty. */
    method RetryOne(succeeds: bool, arrives: bool, disk: Outbox.AppendDisk)
      requires Valid() && retry != []
      modifies this`retry, this`topic, outbox
      ensures Valid() && File() == old(File())
      ensures topic == if succeeds || arrives then old(topic) + [old(retry)[0]] else old(topic)
      ensures retry == if succeeds then old(retry)[1..] else old(retry)[1..] + [old(retry)[0]]
    {
      var event := retry[0];
      retry := retry[1..];
      var ok := Write(event, succeeds, arrives);
      if !ok {
        var _ := EnqueueRetry(event, disk);
      }
    }

    method ReplayOutbox(publish: Outbox.Publisher, arrives: Outbox.Publisher, readable: bool, disk: Outbox.RewriteDisk)
      returns (replayed: nat, ok: bool)
      requires Valid()
      modifies this`topic, outbox
      ensures Valid() && retry == old(retry)
      ensures outbox == null ==> replayed == 0 && ok && topic == old(topic)
      ensures outbox != null ==>
                var found := Outbox.Contents(outbox.codec, old(File()));
                if old(File()) == None || (readable && old(File()) == Some([]))
                then replayed == 0 && ok && topic == old(topic) && File() == old(File())
                else if !readable || found.None?
                    then replayed == 0 && !ok && topic == old(topic) && File() == old(File())
                else
                  && topic == old(topic) + Outbox.Reached(found.value, publish, arrives)
                  && replayed == |Outbox.Sent(found.value, publish)|
                  && (File(), ok) == Outbox.Rewritten(outbox.codec, old(File()),
                                                      Outbox.StillPending(found.value, publish), disk)
    {
      if outbox == null {
        return 0, true;
      }
      var sent, reached;
      replayed, ok, sent, reached := outbox.Replay(publish, arrives, readable, disk);
      topic := topic + reached;
    }

    method Close()
      modifies this`done
      ensures done
    {
      done := true;
    }
  }

  lemma SpooledIsHeld(shelf: Shelf, e: InOutEvent, fate: AppendFate)
    requires Put(shelf, e, fate).ok
    ensures e in Held(Put(shelf, e, fate).shelf) || shelf.torn
  {
    if !shelf.torn {
      assert Put(shelf, e, fate).shelf.lines == shelf.lines + [e];
    }
  }
}
