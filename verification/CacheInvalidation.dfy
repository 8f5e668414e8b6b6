/** The permission pipeline's consumer: BAN/UNBAN messages applied to the denied keys of
    Redis (cache-invalidation-worker). Messages below the broker's offset are never read
    again; messages between it and the crash point are applied a second time. */
module CacheInvalidation {
  import opened PartitionReader
  import opened Options
  import Runs

  const DENIED_TTL: int := 24 * 60 * 60 * 1_000_000_000

  datatype Action = Ban | Unban | Other
  datatype Message = Garbage | Permission(user: string, action: Action)

  /** What Redis answered; a failed write may still have reached the server. */
  datatype Write = Done | Failed(landed: bool)

  datatype Event =
    | Produce(msg: Message)
    | Fetch
    | Apply(write: Write, now: int)
    | Commit(accepted: bool)
    | Flush
    | Restart

  /** `denied` maps each denied key to its expiry. `behind` and `high` (the number of messages
      ever dealt with) only record history: a user falls behind when a write that failed without
      landing was the latest for that user and left the flag wrong, and catches up when a later
      write lands or when messages for that user are read again. */
  datatype System = System(log: seq<Message>, reader: Reader, denied: map<string, int>,
                           behind: set<string>, high: nat)

  function Initial(denied: map<string, int>): System {
    System([], START, denied, {}, 0)
  }

  /** SetDenied, ClearDenied, or nothing for an unknown action. */
  function Written(denied: map<string, int>, msg: Message, now: int): map<string, int> {
    match msg
    case Permission(user, Ban) => denied[user := now + DENIED_TTL]
    case Permission(user, Unban) => denied - {user}
    case _ => denied
  }

  predicate Relevant(msg: Message) {
    msg.Permission? && !msg.action.Other?
  }

  /** An undecodable message or an unknown action cannot fail: nothing is written. */
  predicate Succeeds(msg: Message, write: Write) {
    !Relevant(msg) || write.Done?
  }

  /** The write is in Redis, whatever it reported. */
  predicate Reaches(msg: Message, write: Write) {
    Succeeds(msg, write) || (write.Failed? && write.landed)
  }

  /** Who is behind after a write for `msg` when the flags were `flags` and the messages `later`
      were dealt with before, to be read again. */
  function BehindAfter(behind: set<string>, flags: set<string>, msg: Message, write: Write,
                       later: seq<Message>): set<string> {
    if !Relevant(msg) then behind
    else if Reaches(msg, write) || Mentions(later, msg.user) || (msg.user in flags <==> msg.action.Ban?)
        then behind - {msg.user}
    else behind + {msg.user}
  }

  function Higher(high: nat, o: nat): nat {
    if o + 1 > high then o + 1 else high
  }

  function Applied(s: System, write: Write, now: int): System
    requires s.reader.phase.Fetched? && s.reader.phase.offset < |s.log| && s.high <= |s.log|
  {
    var o := s.reader.phase.offset;
    var msg := s.log[o];
    System(s.log, Finish(s.reader, Succeeds(msg, write)),
           if Reaches(msg, write) then Written(s.denied, msg, now) else s.denied,
           BehindAfter(s.behind, s.denied.Keys, msg, write, s.log[o + 1..Higher(s.high, o)]),
           Higher(s.high, o))
  }

  /** A restart reads the messages from the committed offset again. */
  function Restarted(s: System): System {
    var again := if s.reader.committed <= s.high <= |s.log| then s.log[s.reader.committed..s.high] else [];
    s.(reader := Resume(s.reader), behind := set u | u in s.behind && !Mentions(again, u))
  }

  function Step(s: System, e: Event): System {
    match e
    case Produce(msg) => s.(log := s.log + [msg])
    case Fetch => s.(reader := FetchNext(s.reader, |s.log|))
    case Apply(write, now) =>
      if s.reader.phase.Fetched? && s.reader.phase.offset < |s.log| && s.high <= |s.log| then Applied(s, write, now)
      else s
    case Commit(accepted) => s.(reader := CommitHandled(s.reader, accepted))
    case Flush => s.(reader := FlushStash(s.reader))
    case Restart => Restarted(s)
  }

  function After(s: System, events: seq<Event>): System {
    Runs.After(Step, s, events)
  }

  // ---------------------------------------------------------------------------
  // The meaning of a log: the last action on each user decides.
  // ---------------------------------------------------------------------------

  function Obeyed(banned: set<string>, msg: Message): set<string> {
    match msg
    case Permission(user, Ban) => banned + {user}
    case Permission(user, Unban) => banned - {user}
    case _ => banned
  }

  function Replay(banned: set<string>, msgs: seq<Message>): set<string>
    decreases |msgs|
  {
    if msgs == [] then banned else Obeyed(Replay(banned, msgs[..|msgs| - 1]), msgs[|msgs| - 1])
  }

  predicate Names(msg: Message, user: string) {
    Relevant(msg) && msg.user == user
  }

  predicate Mentions(msgs: seq<Message>, user: string) {
    exists i :: 0 <= i < |msgs| && Names(msgs[i], user)
  }

  /** A user's flag after a replay is independent of the start if the replay mentions the
      user, and unchanged if it does not. */
  lemma {:induction false} LastActionWins(a: set<string>, b: set<string>, msgs: seq<Message>, user: string)
    ensures Mentions(msgs, user) ==> (user in Replay(a, msgs) <==> user in Replay(b, msgs))
    ensures !Mentions(msgs, user) ==> (user in Replay(a, msgs) <==> user in a)
    decreases |msgs|
  {
    if msgs != [] {
      var init, last := msgs[..|msgs| - 1], msgs[|msgs| - 1];
      LastActionWins(a, b, init, user);
      if !Names(last, user) {
        assert Mentions(msgs, user) ==> Mentions(init, user) by {
          if Mentions(msgs, user) {
            var i :| 0 <= i < |msgs| && Names(msgs[i], user);
            assert Names(init[i], user);
          }
        }
        assert Mentions(init, user) ==> Mentions(msgs, user) by {
          if Mentions(init, user) {
            var i :| 0 <= i < |init| && Names(init[i], user);
            assert Names(msgs[i], user);
          }
        }
      } else {
        assert Names(msgs[|msgs| - 1], user);
      }
    }
  }

  lemma {:induction false} ReplayConcat(banned: set<string>, a: seq<Message>, b: seq<Message>)
    ensures Replay(banned, a + b) == Replay(Replay(banned, a), b)
    decreases |b|
  {
    if b == [] {
      assert a + b == a;
    } else {
      assert (a + b)[..|a + b| - 1] == a + b[..|b| - 1];
      ReplayConcat(banned, a, b[..|b| - 1]);
    }
  }

  lemma ReplayOne(banned: set<string>, msg: Message)
    ensures Replay(banned, [msg]) == Obeyed(banned, msg)
  {
    assert [msg][..0] == [];
  }

  lemma MentionsPart(msgs: seq<Message>, i: nat, j: nat, user: string)
    requires i <= j <= |msgs|
    ensures Mentions(msgs[i..j], user) ==> Mentions(msgs, user)
  {
    if Mentions(msgs[i..j], user) {
      var k :| 0 <= k < j - i && Names(msgs[i..j][k], user);
      assert Names(msgs[i + k], user);
    }
  }

  // ---------------------------------------------------------------------------
  // The invariant: replaying what was already dealt with would repair every stale flag.
  // ---------------------------------------------------------------------------

  /** Handling the messages from the read position up to the high-water mark once more gives the
      user the flag the log demands. Between the position and the mark the flags themselves may
      be stale. */
  ghost predicate Agree(s: System, start: set<string>, user: string)
    requires Next(s.reader) <= s.high <= |s.log|
  {
    user in Replay(s.denied.Keys, s.log[Next(s.reader)..s.high]) <==> user in Replay(start, s.log[..s.high])
  }

  /** Exactly the users behind are those it would not repair. */
  ghost predicate Inv(s: System, start: set<string>) {
    && Valid(s.reader, |s.log|)
    && Next(s.reader) <= s.high <= |s.log|
    && forall user :: user in s.behind <==> !Agree(s, start, user)
  }

  /** Re-reading from an earlier offset repairs the users it mentions and changes nobody else's
      final flag. */
  lemma RewindAgrees(s: System, start: set<string>, user: string, back: nat)
    requires Next(s.reader) <= s.high <= |s.log| && back <= Next(s.reader)
    ensures (user in Replay(s.denied.Keys, s.log[back..s.high]) <==> user in Replay(start, s.log[..s.high]))
            <==> Agree(s, start, user) || Mentions(s.log[back..s.high], user)
  {
    var next := Next(s.reader);
    var again := s.log[back..s.high];
    if Mentions(again, user) {
      MentionedFrom(s.log, s.denied.Keys, start, back, s.high, user);
    } else {
      assert again[next - back..] == s.log[next..s.high];
      MentionsPart(again, next - back, |again|, user);
      assert again[next - back..|again|] == again[next - back..];
      LastActionWins(s.denied.Keys, s.denied.Keys, again, user);
      LastActionWins(s.denied.Keys, s.denied.Keys, s.log[next..s.high], user);
    }
  }

  /** From messages that mention the user on, the start no longer matters. */
  lemma MentionedFrom(log: seq<Message>, denied: set<string>, start: set<string>, back: nat, high: nat, user: string)
    requires back <= high <= |log| && Mentions(log[back..high], user)
    ensures user in Replay(denied, log[back..high]) <==> user in Replay(start, log[..high])
  {
    assert log[..high] == log[..back] + log[back..high];
    ReplayConcat(start, log[..back], log[back..high]);
    LastActionWins(denied, Replay(start, log[..back]), log[back..high], user);
  }

  /** If nothing after message o names the user that o names, o decides. */
  lemma NamedLast(log: seq<Message>, start: set<string>, o: nat, high: nat, user: string)
    requires o < high <= |log| && Names(log[o], user) && !Mentions(log[o + 1..high], user)
    ensures user in Replay(start, log[..high]) <==> log[o].action.Ban?
  {
    assert log[..high] == log[..o + 1] + log[o + 1..high] && log[..o + 1] == log[..o] + [log[o]];
    ReplayConcat(start, log[..o + 1], log[o + 1..high]);
    ReplayConcat(start, log[..o], [log[o]]);
    ReplayOne(Replay(start, log[..o]), log[o]);
    var b := Replay(start, log[..o + 1]);
    LastActionWins(b, b, log[o + 1..high], user);
  }

  /** The user a write is for. */
  lemma NamedAgrees(s: System, start: set<string>, write: Write, now: int, user: string)
    requires Inv(s, start) && s.reader.phase.Fetched? && Names(s.log[s.reader.phase.offset], user)
    ensures Agree(Applied(s, write, now), start, user) <==> user !in Applied(s, write, now).behind
  {
    var t := Applied(s, write, now);
    var o := s.reader.phase.offset;
    var later := s.log[o + 1..t.high];
    if Mentions(later, user) {
      MentionedFrom(s.log, t.denied.Keys, start, o + 1, t.high, user);
    } else {
      NamedLast(s.log, start, o, t.high, user);
      LastActionWins(t.denied.Keys, t.denied.Keys, later, user);
    }
  }

  /** Anybody else. */
  lemma OthersAgree(s: System, start: set<string>, write: Write, now: int, user: string)
    requires Inv(s, start) && s.reader.phase.Fetched? && !Names(s.log[s.reader.phase.offset], user)
    ensures Agree(Applied(s, write, now), start, user) <==> Agree(s, start, user)
  {
    var t := Applied(s, write, now);
    var o := s.reader.phase.offset;
    var msg, rest := s.log[o], s.log[o + 1..t.high];
    assert user in t.denied.Keys <==> user in s.denied.Keys;
    ForeignStart(t.denied.Keys, s.denied.Keys, rest, user);
    if s.high <= o {
      assert s.log[o..s.high] == [] && rest == [];
      assert s.log[..t.high] == s.log[..s.high] + [msg];
      ReplayConcat(start, s.log[..s.high], [msg]);
      ReplayOne(Replay(start, s.log[..s.high]), msg);
    } else {
      assert s.log[o..t.high] == [msg] + rest;
      ReplayConcat(s.denied.Keys, [msg], rest);
      ReplayOne(s.denied.Keys, msg);
      ForeignStart(Obeyed(s.denied.Keys, msg), s.denied.Keys, rest, user);
    }
  }

  lemma ForeignStart(a: set<string>, b: set<string>, msgs: seq<Message>, user: string)
    requires user in a <==> user in b
    ensures user in Replay(a, msgs) <==> user in Replay(b, msgs)
  {
    LastActionWins(a, b, msgs, user);
    LastActionWins(b, a, msgs, user);
  }

  lemma ApplyKeepsInv(s: System, start: set<string>, write: Write, now: int)
    requires Inv(s, start) && s.reader.phase.Fetched?
    ensures Inv(Applied(s, write, now), start)
  {
    var t := Applied(s, write, now);
    forall user ensures user in t.behind <==> !Agree(t, start, user) {
      assert user in s.behind <==> !Agree(s, start, user);
      if Names(s.log[s.reader.phase.offset], user) {
        NamedAgrees(s, start, write, now, user);
      } else {
        OthersAgree(s, start, write, now, user);
      }
    }
  }

  lemma StepKeepsInv(s: System, start: set<string>, e: Event)
    requires Inv(s, start)
    ensures Inv(Step(s, e), start)
  {
    var t := Step(s, e);
    match e
    case Produce(msg) =>
      var next := Next(s.reader);
      assert t.log[next..t.high] == s.log[next..s.high] && t.log[..t.high] == s.log[..s.high];
      assert forall user :: Agree(t, start, user) <==> Agree(s, start, user);
    case Apply(write, now) =>
      if s.reader.phase.Fetched? {
        ApplyKeepsInv(s, start, write, now);
      }
    case Restart =>
      forall user ensures user in t.behind <==> !Agree(t, start, user) {
        assert user in s.behind <==> !Agree(s, start, user);
        RewindAgrees(s, start, user, s.reader.committed);
      }
    case _ =>
      assert Next(t.reader) == Next(s.reader);
      assert forall user :: Agree(t, start, user) <==> Agree(s, start, user);
  }

  lemma {:induction false} RunKeepsInv(s: System, start: set<string>, events: seq<Event>)
    requires Inv(s, start)
    ensures Inv(After(s, events), start)
    decreases |events|
  {
    if events != [] {
      RunKeepsInv(s, start, events[..|events| - 1]);
      StepKeepsInv(After(s, events[..|events| - 1]), start, events[|events| - 1]);
    }
  }

  predicate NoFailedWrite(events: seq<Event>) {
    forall e <- events :: e.Apply? ==> e.write.Done?
  }

  lemma {:induction false} NobodyBehind(s: System, events: seq<Event>)
    requires s.behind == {} && NoFailedWrite(events)
    ensures After(s, events).behind == {}
    decreases |events|
  {
    if events != [] {
      NobodyBehind(s, events[..|events| - 1]);
      assert events[|events| - 1] in events;
    }
  }

  lemma UserAtEnd(s: System, start: set<string>, user: string)
    requires Inv(s, start) && Next(s.reader) == |s.log|
    ensures (user in s.denied.Keys <==> user in Replay(start, s.log)) <==> user !in s.behind
  {
    assert user in s.behind <==> !Agree(s, start, user);
    assert s.log[|s.log|..s.high] == [] && s.log[..s.high] == s.log;
  }

  lemma SetAtEnd(s: System, start: set<string>)
    requires Inv(s, start) && Next(s.reader) == |s.log|
    ensures s.denied.Keys == Replay(start, s.log) <==> s.behind == {}
  {
    forall user ensures (user in s.denied.Keys <==> user in Replay(start, s.log)) <==> user !in s.behind {
      UserAtEnd(s, start, user);
    }
    if s.behind != {} {
      var user :| user in s.behind;
      assert !(user in s.denied.Keys <==> user in Replay(start, s.log));
    }
  }

  lemma InitialInv(denied: map<string, int>)
    ensures Inv(Initial(denied), denied.Keys)
  {
  }

  /** At the end of the log, in every run, a user's flag is the one the whole log demands if and
      only if the user is not behind: whatever was produced, fetched, applied, committed,
      flushed, lost or read again. */
  lemma ConvergencePerUser(denied: map<string, int>, events: seq<Event>, user: string)
    ensures var s := After(Initial(denied), events);
            Next(s.reader) == |s.log| ==>
              ((user in s.denied <==> user in Replay(denied.Keys, s.log)) <==> user !in s.behind)
  {
    InitialInv(denied);
    RunKeepsInv(Initial(denied), denied.Keys, events);
    var s := After(Initial(denied), events);
    if Next(s.reader) == |s.log| {
      UserAtEnd(s, denied.Keys, user);
    }
  }

  /** At the end of the log the denied set is the last-action fold of the whole log if and only
      if nobody is behind. */
  lemma DeniedSetIsExact(denied: map<string, int>, events: seq<Event>)
    ensures var s := After(Initial(denied), events);
            Next(s.reader) == |s.log| ==> (s.denied.Keys == Replay(denied.Keys, s.log) <==> s.behind == {})
  {
    InitialInv(denied);
    RunKeepsInv(Initial(denied), denied.Keys, events);
    var s := After(Initial(denied), events);
    if Next(s.reader) == |s.log| {
      SetAtEnd(s, denied.Keys);
    }
  }

  /** Replay convergence: without a failing Redis write the denied set at the end of the log
      is the last-action fold of the whole log, whatever crashed or was applied twice. */
  lemma ReplayConvergence(denied: map<string, int>, events: seq<Event>)
    requires NoFailedWrite(events)
    ensures var s := After(Initial(denied), events);
            Next(s.reader) == |s.log| ==> s.denied.Keys == Replay(denied.Keys, s.log)
  {
    NobodyBehind(Initial(denied), events);
    DeniedSetIsExact(denied, events);
  }

  // ---------------------------------------------------------------------------
  // What a failed write and an expired key cost.
  // ---------------------------------------------------------------------------

  /** In every run, a failed write for the last message that did not land: the loop moves on, and
      at the end of the log the denied set is right if and only if the message would not have
      changed it and nobody else is behind. */
  lemma FailedWriteDiverges(denied: map<string, int>, events: seq<Event>, now: int)
    requires var s := After(Initial(denied), events);
             s.reader.phase.Fetched? && s.reader.phase.offset == |s.log| - 1 && Relevant(s.log[|s.log| - 1])
    ensures var s := After(Initial(denied), events);
            var t := Step(s, Apply(Failed(false), now));
            && Next(t.reader) == |t.log| && t.reader.phase.Idle?
            && (t.denied.Keys == Replay(denied.Keys, t.log)
                <==> s.behind <= {s.log[|s.log| - 1].user}
                     && Obeyed(s.denied.Keys, s.log[|s.log| - 1]) == s.denied.Keys)
  {
    InitialInv(denied);
    RunKeepsInv(Initial(denied), denied.Keys, events);
    LastWriteFails(After(Initial(denied), events), denied.Keys, now);
  }

  lemma LastWriteFails(s: System, start: set<string>, now: int)
    requires Inv(s, start) && s.reader.phase.Fetched? && s.reader.phase.offset == |s.log| - 1
             && Relevant(s.log[|s.log| - 1])
    ensures var t := Step(s, Apply(Failed(false), now));
            && Next(t.reader) == |t.log| && t.reader.phase.Idle?
            && (t.denied.Keys == Replay(start, t.log)
                <==> s.behind <= {s.log[|s.log| - 1].user}
                     && Obeyed(s.denied.Keys, s.log[|s.log| - 1]) == s.denied.Keys)
  {
    var msg, t := s.log[|s.log| - 1], Applied(s, Failed(false), now);
    ApplyKeepsInv(s, start, Failed(false), now);
    SetAtEnd(t, start);
    assert s.log[|s.log|..t.high] == [];
    assert Obeyed(s.denied.Keys, msg) == s.denied.Keys <==> (msg.user in s.denied.Keys <==> msg.action.Ban?);
  }

  /** The reading of two messages whose first write fails and whose second is committed. */
  function SkipFirst(now: int): seq<Event> {
    [Fetch, Apply(Failed(false), now)] + [Fetch, Apply(Done, now), Commit(true)] + [Flush, Restart]
  }

  lemma SkipFirstRun(s: System, u: string, v: string, now: int)
    requires s == Initial(map[]).(log := [Permission(u, Ban), Permission(v, Ban)])
    ensures After(s, SkipFirst(now)) == System(s.log, Reader(2, 2, 2, Idle), map[v := now + DENIED_TTL],
                                               if u == v then {} else {u}, 2)
  {
    var skip, apply, crash := [Fetch, Apply(Failed(false), now)], [Fetch, Apply(Done, now), Commit(true)],
        [Flush, Restart];
    Runs.AfterConcat(Step, s, skip + apply, crash);
    Runs.AfterConcat(Step, s, skip, apply);
    var s1 := SkipRun(s.log, u, v, now);
    var s2 := ApplyRun(s1, u, v, now);
    Runs.AfterTwo(Step, s2, Flush, Restart);
  }

  lemma SkipRun(log: seq<Message>, u: string, v: string, now: int) returns (s1: System)
    requires log == [Permission(u, Ban), Permission(v, Ban)]
    ensures s1 == System(log, Reader(1, 0, 0, Idle), map[], {u}, 1)
    ensures After(Initial(map[]).(log := log), [Fetch, Apply(Failed(false), now)]) == s1
  {
    var s := Initial(map[]).(log := log);
    Runs.AfterTwo(Step, s, Fetch, Apply(Failed(false), now));
    s1 := Step(Step(s, Fetch), Apply(Failed(false), now));
  }

  lemma ApplyRun(s1: System, u: string, v: string, now: int) returns (s2: System)
    requires s1 == System([Permission(u, Ban), Permission(v, Ban)], Reader(1, 0, 0, Idle), map[], {u}, 1)
    ensures s2 == System(s1.log, Reader(2, 2, 0, Idle), map[v := now + DENIED_TTL], if u == v then {} else {u}, 2)
    ensures After(s1, [Fetch, Apply(Done, now), Commit(true)]) == s2
  {
    Runs.AfterThree(Step, s1, Fetch, Apply(Done, now), Commit(true));
    s2 := Step(Step(Step(s1, Fetch), Apply(Done, now)), Commit(true));
  }

  lemma TwoBans(u: string, v: string)
    ensures Replay({}, [Permission(u, Ban), Permission(v, Ban)]) == {u, v}
  {
    assert [Permission(u, Ban), Permission(v, Ban)] == [Permission(u, Ban)] + [Permission(v, Ban)];
    ReplayConcat({}, [Permission(u, Ban)], [Permission(v, Ban)]);
    ReplayOne({}, Permission(u, Ban));
    ReplayOne({u}, Permission(v, Ban));
  }

  /** The next commit covers the skipped offset, so a restart does not repair it: the ban of
      `u` is never applied although its offset is committed and the log is read to the end. */
  lemma SkippedBanStaysLost(u: string, v: string, now: int)
    requires u != v
    ensures var s := After(Initial(map[]), [Produce(Permission(u, Ban)), Produce(Permission(v, Ban))] + SkipFirst(now));
            && s.reader.committed == |s.log| == Next(s.reader)
            && u in Replay({}, s.log) && u !in s.denied
  {
    var b1, b2 := Permission(u, Ban), Permission(v, Ban);
    Runs.AfterConcat(Step, Initial(map[]), [Produce(b1), Produce(b2)], SkipFirst(now));
    Runs.AfterTwo(Step, Initial(map[]), Produce(b1), Produce(b2));
    SkipFirstRun(After(Initial(map[]), [Produce(b1), Produce(b2)]), u, v, now);
    TwoBans(u, v);
  }

  /** What is committed after a message is applied: an undecodable one and an unknown action
      always, a BAN or UNBAN only if the write reports success; and what is written: the key of a
      BAN, the removal of an UNBAN, exactly if the write landed, and nothing otherwise. */
  lemma AppliesExactly(s: System, write: Write, now: int)
    requires s.reader.phase.Fetched? && s.reader.phase.offset < |s.log| && s.high <= |s.log|
    ensures var o, t := s.reader.phase.offset, After(s, [Apply(write, now), Commit(true)]);
            var (msg, landed) := (s.log[o], write.Done? || write.landed);
            && t.reader.phase.Idle? && t.reader.position == s.reader.position
            && t.reader.stashed == (if msg.Garbage? || msg.action.Other? || write.Done? then o + 1
                                    else s.reader.stashed)
            && t.denied == (if msg.Permission? && msg.action.Ban? && landed
                            then s.denied[msg.user := now + 86_400_000_000_000]
                            else if msg.Permission? && msg.action.Unban? && landed then s.denied - {msg.user}
                            else s.denied)
  {
    Runs.AfterTwo(Step, s, Apply(write, now), Commit(true));
  }

  /** The users Redis reports as denied at `now`: keys whose TTL has not run out. */
  ghost function LiveDenied(s: System, now: int): set<string> {
    set user | user in s.denied && now < s.denied[user]
  }

  /** When the ban of a user that is in force was written: the time of the last BAN write that
      landed, if no UNBAN write landed since. `denied` are the keys of the beginning. */
  function BanTime(denied: map<string, int>, events: seq<Event>, user: string): Option<int>
    decreases |events|
  {
    if events == [] then (if user in denied then Some(denied[user] - DENIED_TTL) else None)
    else
      var init, e := events[..|events| - 1], events[|events| - 1];
      var s := After(Initial(denied), init);
      if e.Apply? && s.reader.phase.Fetched? && s.reader.phase.offset < |s.log| && s.high <= |s.log|
         && Names(s.log[s.reader.phase.offset], user) && Reaches(s.log[s.reader.phase.offset], e.write)
      then (if s.log[s.reader.phase.offset].action.Ban? then Some(e.now) else None)
      else BanTime(denied, init, user)
  }

  /** Redis holds a user's key exactly if a ban is in force, and for 24 hours from its writing. */
  lemma {:induction false} KeysAreBans(denied: map<string, int>, events: seq<Event>, user: string)
    ensures var s := After(Initial(denied), events);
            var ban := BanTime(denied, events, user);
            (user in s.denied <==> ban.Some?) && (ban.Some? ==> s.denied[user] == ban.value + DENIED_TTL)
    decreases |events|
  {
    if events != [] {
      KeysAreBans(denied, events[..|events| - 1], user);
      KeyStep(After(Initial(denied), events[..|events| - 1]), events[|events| - 1], user);
    }
  }

  lemma KeyStep(s: System, e: Event, user: string)
    ensures var t := Step(s, e);
            var o := s.reader.phase;
            if e.Apply? && o.Fetched? && o.offset < |s.log| && s.high <= |s.log| && Names(s.log[o.offset], user)
                && Reaches(s.log[o.offset], e.write)
            then if s.log[o.offset].action.Ban? then user in t.denied && t.denied[user] == e.now + DENIED_TTL
                else user !in t.denied
            else (user in t.denied <==> user in s.denied) && (user in s.denied ==> t.denied[user] == s.denied[user])
  {
  }

  /** With the TTL counted: when nobody is behind at the end of the log, the users Redis reports
      are those the log leaves banned if and only if the ban of each of them was last written
      less than 24 hours ago. */
  lemma LiveDeniedIsExact(denied: map<string, int>, events: seq<Event>, now: int)
    ensures var s := After(Initial(denied), events);
            Next(s.reader) == |s.log| && s.behind == {} ==>
              (LiveDenied(s, now) == Replay(denied.Keys, s.log)
               <==> forall user <- Replay(denied.Keys, s.log) ::
                      BanTime(denied, events, user).Some? && now - BanTime(denied, events, user).value < DENIED_TTL)
  {
    var s := After(Initial(denied), events);
    DeniedSetIsExact(denied, events);
    if Next(s.reader) == |s.log| && s.behind == {} {
      var banned := Replay(denied.Keys, s.log);
      forall user ensures user in LiveDenied(s, now)
                          <==> BanTime(denied, events, user).Some?
                               && now - BanTime(denied, events, user).value < DENIED_TTL {
        KeysAreBans(denied, events, user);
      }
      assert LiveDenied(s, now) <= s.denied.Keys == banned;
      if forall user <- banned ::
          BanTime(denied, events, user).Some? && now - BanTime(denied, events, user).value < DENIED_TTL {
        assert banned <= LiveDenied(s, now);
      }
    }
  }

  lemma OneBanApplied(u: string, now: int)
    ensures After(Initial(map[]), [Produce(Permission(u, Ban)), Fetch, Apply(Done, now)])
            == System([Permission(u, Ban)], Reader(1, 0, 0, Handled(0)), map[u := now + DENIED_TTL], {}, 1)
  {
    var s := Initial(map[]);
    Runs.AfterThree(Step, s, Produce(Permission(u, Ban)), Fetch, Apply(Done, now));
    var fetched := Step(Step(s, Produce(Permission(u, Ban))), Fetch);
    assert fetched.log == [Permission(u, Ban)] && fetched.reader.phase == Fetched(0);
  }

  /** A failing input: one ban, applied at once, with nobody behind. 24 hours later the log still
      bans the user and Redis reports nobody. */
  lemma StandingBanExpires(u: string, now: int)
    ensures var s := After(Initial(map[]), [Produce(Permission(u, Ban)), Fetch, Apply(Done, now)]);
            && Next(s.reader) == |s.log| && s.behind == {}
            && Replay({}, s.log) == {u} && LiveDenied(s, now + DENIED_TTL) == {}
  {
    OneBanApplied(u, now);
    ReplayOne({}, Permission(u, Ban));
  }

  // ---------------------------------------------------------------------------
  // The worker's loop.
  // ---------------------------------------------------------------------------

  /** What the environment does during one iteration of the loop. */
  datatype Turn = FetchError | Turn(write: Write, now: int, commitAccepted: bool)

  function TurnEvents(turn: Turn): seq<Event> {
    match turn
    case FetchError => []
    case Turn(write, now, accepted) => [Fetch, Apply(write, now), Commit(accepted)]
  }

  function AllEvents(turns: seq<Turn>): seq<Event>
    decreases |turns|
  {
    if turns == [] then [] else AllEvents(turns[..|turns| - 1]) + TurnEvents(turns[|turns| - 1])
  }

  class Worker {
    var log: seq<Message>
    var reader: Reader
    var denied: map<string, int>
    ghost var behind: set<string>
    ghost var high: nat

    ghost function View(): System
      reads this
    {
      System(log, reader, denied, behind, high)
    }

    constructor (log: seq<Message>, denied: map<string, int>)
      ensures View() == Initial(denied).(log := log)
    {
      this.log, this.reader, this.denied := log, START, denied;
      this.behind, this.high := {}, 0;
    }

    /** One write to Redis. */
    method WriteCache(msg: Message, write: Write, now: int) returns (ok: bool)
      modifies this`denied
      ensures ok == Succeeds(msg, write)
      ensures denied == if ok || (write.Failed? && write.landed) then Written(old(denied), msg, now) else old(denied)
    {
      if !Relevant(msg) {
        return true;
      }
      if write.Done? || write.landed {
        match msg.action
        case Ban => denied := denied[msg.user := now + DENIED_TTL];
        case Unban => denied := denied - {msg.user};
        case Other =>
      }
      ok := write.Done?;
    }

    /** One iteration of the loop. */
    method TakeTurn(turn: Turn)
      requires reader.phase.Idle? && high <= |log|
      modifies this
      ensures View() == After(old(View()), TurnEvents(turn)) && reader.phase.Idle? && high <= |log|
      ensures turn.FetchError? || old(reader.position) >= |log| ==> reader == old(reader) && denied == old(denied)
      ensures turn.Turn? && old(reader.position) < |log| ==>
                var (o, msg) := (old(reader.position), log[old(reader.position)]);
                && reader.position == o + 1 && reader.committed == old(reader.committed)
                && reader.stashed == (if turn.commitAccepted && (msg.Garbage? || msg.action.Other? || turn.write.Done?)
                                      then o + 1 else old(reader.stashed))
    {
      if turn.FetchError? {
        return;
      }
      Runs.AfterThree(Step, View(), Fetch, Apply(turn.write, turn.now), Commit(turn.commitAccepted));
      if reader.position < |log| {
        reader := FetchNext(reader, |log|);
        var offset := reader.phase.offset;
        var msg := log[offset];
        high := Higher(high, offset);
        behind := BehindAfter(behind, denied.Keys, msg, turn.write, log[offset + 1..high]);
        var ok := WriteCache(msg, turn.write, turn.now);
        reader := Finish(reader, ok);
        if ok {
          reader := CommitHandled(reader, turn.commitAccepted);
        }
      }
    }

    /** The endless loop, run for as many turns as the environment grants before it cancels.
        A fetch at the end of the log blocks, which here is a turn that does nothing. */
    method Run(turns: seq<Turn>)
      requires reader.phase.Idle? && high <= |log|
      modifies this
      ensures View() == After(old(View()), AllEvents(turns)) && reader.phase.Idle? && high <= |log|
    {
      ghost var start := View();
      for i := 0 to |turns|
        invariant View() == After(start, AllEvents(turns[..i])) && reader.phase.Idle? && high <= |log|
      {
        assert turns[..i + 1][..i] == turns[..i];
        Runs.AfterConcat(Step, start, AllEvents(turns[..i]), TurnEvents(turns[i]));
        TakeTurn(turns[i]);
      }
      assert turns[..|turns|] == turns;
    }
  }
}
