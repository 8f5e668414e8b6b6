/** One ordered partition as one member of a consumer group sees it. Both workers read
    through kafka-go with `CommitInterval` set: a commit is stashed in memory, flushed to the
    broker later, and lost by a crash; a restart resumes at the broker's offset. */
module PartitionReader {
  /** Where the worker is inside its fetch / handle / commit iteration. */
  datatype Phase = Idle | Fetched(offset: nat) | Handled(offset: nat)

  datatype Reader = Reader(position: nat, stashed: nat, committed: nat, phase: Phase)

  const START: Reader := Reader(0, 0, 0, Idle)

  function FetchNext(r: Reader, length: nat): Reader {
    if r.phase.Idle? && r.position < length then r.(position := r.position + 1, phase := Fetched(r.position)) else r
  }

  /** A handler that failed leaves the message uncommitted and the worker moves on. */
  function Finish(r: Reader, handled: bool): Reader
    requires r.phase.Fetched?
  {
    r.(phase := if handled then Handled(r.phase.offset) else Idle)
  }

  function CommitHandled(r: Reader, accepted: bool): Reader {
    if r.phase.Handled? then r.(stashed := if accepted then r.phase.offset + 1 else r.stashed, phase := Idle) else r
  }

  function FlushStash(r: Reader): Reader {
    r.(committed := r.stashed)
  }

  function Resume(r: Reader): Reader {
    Reader(r.committed, r.committed, r.committed, Idle)
  }

  /** The first offset this session has not dealt with yet. */
  function Next(r: Reader): nat {
    if r.phase.Fetched? then r.phase.offset else r.position
  }

  predicate Valid(r: Reader, length: nat) {
    && r.committed <= r.stashed <= Next(r) <= r.position <= length
    && (r.phase.Fetched? ==> r.position == r.phase.offset + 1)
    && (r.phase.Handled? ==> r.position == r.phase.offset + 1)
  }
}
