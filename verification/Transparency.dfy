/** Does it matter to the person at the door whether Redis works? Healthy swipes feed the event
    pipeline and bans the permission pipeline, both asynchronously; for a user with nothing in
    flight the fast path and the database fallback are compared in every reachable state. */
module Transparency {
  import opened Options
  import opened Redis
  import opened Access

  datatype Permission = Permission(user: string, active: bool)

  /** `inflight`: swipes published and not yet ingested (or due for another delivery);
      `perms`: permission messages the invalidation worker has not applied, oldest first. */
  datatype System = System(store: Store, db: Database, inflight: set<SwipeRow>, perms: seq<Permission>)

  datatype Event =
    | Swipe(user: string, card: string, dir: Direction, now: int, stamp: int)
    | Ingest(row: SwipeRow, redelivered: bool)
    | AdminSet(user: string, active: bool, at: int)
    | ApplyPermission(now: int)

  /** Swipe time stamps and row versions of one user only increase. */
  predicate FreshStamp(s: System, user: string, stamp: int) {
    && (forall r <- s.db.swipes :: r.user == user ==> r.time < stamp)
    && (forall r <- s.inflight :: r.user == user ==> r.time < stamp)
  }

  predicate FreshVersion(db: Database, user: string, at: int) {
    forall r <- db.employees :: r.id == user ==> r.updatedAt < at
  }

  predicate Enabled(s: System, e: Event) {
    match e
    case Swipe(user, _, _, _, stamp) => FreshStamp(s, user, stamp)
    case Ingest(row, _) => row in s.inflight
    case AdminSet(user, _, at) => Latest(s.db.employees, ById(user)).Some? && FreshVersion(s.db, user, at)
    case ApplyPermission(_) => s.perms != []
  }

  predicate IsAllow(outcome: Outcome) {
    outcome.Decided? && outcome.decision.Allow?
  }

  function Step(s: System, e: Event): System
    requires Enabled(s, e)
  {
    match e
    case Swipe(user, card, dir, now, stamp) =>
      var (outcome, store) := Evaluated(s.store, Some(s.db), user, card, dir, now, HEALTHY);
      s.(store := store, inflight := s.inflight + {SwipeRow(user, dir, IsAllow(outcome), stamp)})
    case Ingest(row, redelivered) =>
      s.(db := s.db.(swipes := s.db.swipes + [row]),
         inflight := if redelivered then s.inflight else s.inflight - {row})
    case AdminSet(user, active, at) =>
      var row := Latest(s.db.employees, ById(user)).value;
      s.(db := s.db.(employees := s.db.employees + [row.(active := active, updatedAt := at)]),
         perms := s.perms + [Permission(user, active)])
    case ApplyPermission(now) =>
      var p := s.perms[0];
      s.(store := if p.active then s.store - {DeniedKey(p.user)} else Set(s.store, DeniedKey(p.user), "DENY", now,
          HOURS_24),
         perms := s.perms[1..])
  }

  /** Every state of every run, as the states reached by a list of enabled events. */
  ghost predicate Reaches(s: System, events: seq<Event>, t: System)
    decreases |events|
  {
    if events == [] then s == t
    else
      Enabled(s, events[0]) && Reaches(Step(s, events[0]), events[1..], t)
  }

  // ---------------------------------------------------------------------------
  // Invariants.
  // ---------------------------------------------------------------------------

  predicate AllowOf(r: SwipeRow, user: string) {
    r.user == user && r.allowed
  }

  predicate Known(s: System, r: SwipeRow) {
    r in s.db.swipes || r in s.inflight
  }

  /** Among the swipes of `user`, ingested or in flight, `top` is the only latest ALLOW. */
  ghost predicate IsTop(s: System, user: string, top: SwipeRow) {
    && Known(s, top) && AllowOf(top, user)
    && forall r :: Known(s, r) && AllowOf(r, user) ==> r == top || r.time < top.time
  }

  /** The passback key, expired or not, holds the direction of the latest ALLOW. */
  ghost predicate PassbackAgrees(s: System, user: string) {
    var key := PassbackKey(user);
    if key in s.store then exists top :: IsTop(s, user, top) && s.store[key].value == Text(top.dir)
    else forall r :: Known(s, r) ==> !AllowOf(r, user)
  }

  /** The denied flag of `user` after the pending permission messages are applied. */
  function Eventually(denied: bool, perms: seq<Permission>, user: string): bool
    decreases |perms|
  {
    if perms == [] then denied
    else
      var before, p := Eventually(denied, perms[..|perms| - 1], user), perms[|perms| - 1];
      if p.user == user then !p.active else before
  }

  ghost predicate DeniedAgrees(s: System, user: string) {
    Eventually(DeniedKey(user) in s.store, s.perms, user) == !IsActive(s.db, user)
  }

  /** A card belongs to one employee in every row version. */
  ghost predicate UniqueCards(db: Database) {
    forall a <- db.employees, b <- db.employees :: a.card == b.card && a.card != "" ==> a.id == b.id
  }

  ghost predicate CardAgrees(s: System, card: string) {
    card != "" && CardKey(card) in s.store ==> s.store[CardKey(card)].value == LookupCard(s.db, card) != ""
  }

  ghost predicate Consistent(s: System) {
    && UniqueCards(s.db)
    && (forall r <- s.db.employees :: r.id != "")
    && (forall user :: PassbackAgrees(s, user))
    && (forall user :: DeniedAgrees(s, user))
    && (forall card :: CardAgrees(s, card))
  }

  /** Before the first swipe: an empty cache, no events, everybody active. */
  ghost predicate Initial(s: System) {
    && s.store == map[] && s.db.swipes == [] && s.inflight == {} && s.perms == []
    && UniqueCards(s.db)
    && forall r <- s.db.employees :: r.active && r.id != ""
  }

  lemma InitialIsConsistent(s: System)
    requires Initial(s)
    ensures Consistent(s)
  {
    forall user ensures DeniedAgrees(s, user) {
      assert Latest(s.db.employees, ById(user)).Some? ==> Latest(s.db.employees, ById(user)).value in s.db.employees;
    }
  }

  // Swipes.

  function SwipeResult(s: System, e: Event): (Outcome, Store)
    requires e.Swipe?
  {
    Evaluated(s.store, Some(s.db), e.user, e.card, e.dir, e.now, HEALTHY)
  }

  /** A healthy swipe is always decided; it may store the card's owner, and it stores the
      direction exactly when it is allowed. */
  lemma SwipeWrites(s: System, e: Event) returns (cards: Store)
    requires e.Swipe?
    ensures var (outcome, store) := SwipeResult(s, e);
            && outcome.Decided?
            && (cards == s.store || (e.card != "" && LookupCard(s.db, e.card) != ""
                                     && cards == Set(s.store, CardKey(e.card), LookupCard(s.db, e.card), e.now,
                                                     HOURS_24)))
            && store == if IsAllow(outcome) then Set(cards, PassbackKey(e.user), Text(e.dir), e.now, HOURS_24)
                else cards
  {
    var batch := ReadBatch(s.store, e.card, e.user, e.now);
    cards := ResolveCard(s.store, Some(s.db), batch.mappedUser, e.card, e.now, HEALTHY).1;
  }

  lemma SwipeOnUserKeys(s: System, e: Event, u: string)
    requires e.Swipe?
    ensures var (outcome, store) := SwipeResult(s, e);
            var mine := u == e.user && IsAllow(outcome);
            && (DeniedKey(u) in store <==> DeniedKey(u) in s.store)
            && (PassbackKey(u) in store <==> PassbackKey(u) in s.store || mine)
            && (PassbackKey(u) in store ==>
                  store[PassbackKey(u)].value == if mine then Text(e.dir) else s.store[PassbackKey(u)].value)
  {
    var cards := SwipeWrites(s, e);
    KeysAreDistinct(u, e.card);
    KeysAreDistinct(e.user, u);
    KeysAreDistinct(u, e.user);
  }

  lemma SwipeOnCardKey(s: System, e: Event, c: string)
    requires e.Swipe? && CardAgrees(s, c)
    ensures CardAgrees(s.(store := SwipeResult(s, e).1), c)
  {
    var cards := SwipeWrites(s, e);
    KeysAreDistinct(c, e.card);
    KeysAreDistinct(e.user, c);
  }

  lemma SwipeKeepsPassback(s: System, e: Event, u: string)
    requires Consistent(s) && e.Swipe? && Enabled(s, e)
    ensures PassbackAgrees(Step(s, e), u)
  {
    var t := Step(s, e);
    SwipeOnUserKeys(s, e, u);
    var outcome := SwipeResult(s, e).0;
    var row := SwipeRow(e.user, e.dir, IsAllow(outcome), e.stamp);
    assert PassbackAgrees(s, u);
    assert forall r :: Known(t, r) <==> Known(s, r) || r == row;
    if u == e.user && IsAllow(outcome) {
      forall r | Known(t, r) && AllowOf(r, u) ensures r == row || r.time < row.time {
        assert Known(s, r) || r == row;
      }
      assert IsTop(t, u, row);
    } else if PassbackKey(u) in s.store {
      var top :| IsTop(s, u, top) && s.store[PassbackKey(u)].value == Text(top.dir);
      assert IsTop(t, u, top);
    }
  }

  lemma SwipeKeepsConsistent(s: System, e: Event)
    requires Consistent(s) && e.Swipe? && Enabled(s, e)
    ensures Consistent(Step(s, e))
  {
    var t := Step(s, e);
    forall u ensures PassbackAgrees(t, u) {
      SwipeKeepsPassback(s, e, u);
    }
    forall u ensures DeniedAgrees(t, u) {
      assert DeniedAgrees(s, u);
      SwipeOnUserKeys(s, e, u);
    }
    forall c ensures CardAgrees(t, c) {
      assert CardAgrees(s, c);
      SwipeOnCardKey(s, e, c);
    }
  }

  // Ingestion.

  lemma IngestKeepsConsistent(s: System, e: Event)
    requires Consistent(s) && e.Ingest? && Enabled(s, e)
    ensures Consistent(Step(s, e))
  {
    var t := Step(s, e);
    assert forall r :: Known(t, r) <==> Known(s, r);
    forall u ensures PassbackAgrees(t, u) {
      assert PassbackAgrees(s, u);
      if PassbackKey(u) in s.store {
        var top :| IsTop(s, u, top) && s.store[PassbackKey(u)].value == Text(top.dir);
        assert IsTop(t, u, top);
      }
    }
    forall u ensures DeniedAgrees(t, u) {
      assert DeniedAgrees(s, u);
    }
    forall c ensures CardAgrees(t, c) {
      assert CardAgrees(s, c);
    }
  }

  // Bans and their application.

  lemma LatestAfterSnoc(rows: seq<Employee>, row: Employee, key: Key)
    ensures Latest(rows + [row], key) ==
            if Fits(row, key) && (Latest(rows, key).None? || row.updatedAt >= Latest(rows, key).value.updatedAt)
            then Some(row) else Latest(rows, key)
  {
    assert (rows + [row])[..|rows|] == rows;
  }

  lemma AdminSetKeepsConsistent(s: System, e: Event)
    requires Consistent(s) && e.AdminSet? && Enabled(s, e)
    ensures Consistent(Step(s, e))
  {
    var t := Step(s, e);
    var old1 := Latest(s.db.employees, ById(e.user)).value;
    var row := old1.(active := e.active, updatedAt := e.at);
    forall u ensures PassbackAgrees(t, u) {
      assert PassbackAgrees(s, u);
      if PassbackKey(u) in s.store {
        var top :| IsTop(s, u, top) && s.store[PassbackKey(u)].value == Text(top.dir);
        assert IsTop(t, u, top);
      }
    }
    forall u ensures DeniedAgrees(t, u) {
      assert DeniedAgrees(s, u);
      LatestAfterSnoc(s.db.employees, row, ById(u));
      assert t.perms[..|t.perms| - 1] == s.perms;
    }
    forall c ensures CardAgrees(t, c) {
      assert CardAgrees(s, c);
      LatestAfterSnoc(s.db.employees, row, ByCard(c));
      if c != "" && CardKey(c) in s.store && row.card == c {
        assert Latest(s.db.employees, ByCard(c)).Some?;
        assert Latest(s.db.employees, ByCard(c)).value.id == row.id;
      }
    }
    assert forall r <- t.db.employees :: r in s.db.employees || r == row;
  }

  lemma {:induction false} EventuallyHead(denied: bool, perms: seq<Permission>, user: string)
    requires perms != []
    ensures Eventually(denied, perms, user) ==
            Eventually(if perms[0].user == user then !perms[0].active else denied, perms[1..], user)
    decreases |perms|
  {
    if |perms| > 1 {
      EventuallyHead(denied, perms[..|perms| - 1], user);
      assert perms[..|perms| - 1][1..] == perms[1..][..|perms| - 2];
    }
  }

  lemma ApplyKeepsConsistent(s: System, e: Event)
    requires Consistent(s) && e.ApplyPermission? && Enabled(s, e)
    ensures Consistent(Step(s, e))
  {
    var t := Step(s, e);
    var p := s.perms[0];
    forall u ensures PassbackAgrees(t, u) {
      assert PassbackAgrees(s, u);
      KeysAreDistinct(u, p.user);
      if PassbackKey(u) in s.store {
        var top :| IsTop(s, u, top) && s.store[PassbackKey(u)].value == Text(top.dir);
        assert IsTop(t, u, top);
      }
    }
    forall u ensures DeniedAgrees(t, u) {
      assert DeniedAgrees(s, u);
      KeysAreDistinct(u, p.user);
      EventuallyHead(DeniedKey(u) in s.store, s.perms, u);
    }
    forall c ensures CardAgrees(t, c) {
      assert CardAgrees(s, c);
      KeysAreDistinct(p.user, c);
    }
  }

  lemma {:induction false} ReachableIsConsistent(s: System, events: seq<Event>, t: System)
    requires Consistent(s) && Reaches(s, events, t)
    ensures Consistent(t)
    decreases |events|
  {
    if events != [] {
      var e := events[0];
      match e {
        case Swipe(_, _, _, _, _) => SwipeKeepsConsistent(s, e);
        case Ingest(_, _) => IngestKeepsConsistent(s, e);
        case AdminSet(_, _, _) => AdminSetKeepsConsistent(s, e);
        case ApplyPermission(_) => ApplyKeepsConsistent(s, e);
      }
      ReachableIsConsistent(Step(s, e), events[1..], t);
    }
  }

  // ---------------------------------------------------------------------------
  // The three answers.
  // ---------------------------------------------------------------------------

  /** Nothing about this user is still on its way. */
  predicate Settled(s: System, user: string) {
    (forall r <- s.inflight :: r.user != user) && (forall p <- s.perms :: p.user != user)
  }

  lemma {:induction false} EventuallySettled(denied: bool, perms: seq<Permission>, user: string)
    requires forall p <- perms :: p.user != user
    ensures Eventually(denied, perms, user) == denied
    decreases |perms|
  {
    if perms != [] {
      assert perms[|perms| - 1] in perms;
      EventuallySettled(denied, perms[..|perms| - 1], user);
    }
  }

  /** Decision and Reason of the outcome; the Degraded flag is meant to differ. */
  function Answer(o: Outcome): Option<Decision> {
    if o.Decided? then Some(o.decision) else None
  }

  function AnswerWith(s: System, user: string, card: string, dir: Direction, now: int,
                      faults: Faults): Option<Decision> {
    Answer(Evaluated(s.store, Some(s.db), user, card, dir, now, faults).0)
  }

  /** A key the decision depends on has outlived its TTL: a ban whose flag is gone, or a last
      ALLOW in the same direction that Redis no longer remembers. */
  ghost predicate Forgotten(s: System, user: string, card: string, dir: Direction, now: int) {
    CardFits(s.db, user, card) &&
    if Banned(s.db, user) then Get(s.store, DeniedKey(user), now).None?
    else LastAllowed(s.db, user, dir) && Get(s.store, PassbackKey(user), now).None?
  }

  lemma SettledPassback(s: System, user: string)
    requires Consistent(s) && Settled(s, user)
    ensures LastDirection(s.db, user) ==
            if PassbackKey(user) in s.store then ParseState(Some(s.store[PassbackKey(user)].value)) else None
  {
    assert PassbackAgrees(s, user);
    var latest := LatestAllow(s.db.swipes, user);
    if PassbackKey(user) in s.store {
      var top :| IsTop(s, user, top) && s.store[PassbackKey(user)].value == Text(top.dir);
      assert top in s.db.swipes;
      assert Known(s, latest.value) && AllowOf(latest.value, user);
      assert latest.value == top;
    } else if latest.Some? {
      assert Known(s, latest.value) && AllowOf(latest.value, user);
    }
  }

  lemma SettledCard(s: System, user: string, card: string, now: int)
    requires Consistent(s) && card != ""
    ensures var mapped := ReadBatch(s.store, card, user, now).mappedUser;
            ResolveCard(s.store, Some(s.db), mapped, card, now, HEALTHY).0 == LookupCard(s.db, card)
  {
    assert CardAgrees(s, card);
  }

  /** The decision rule both paths implement, over what they know. */
  function Rule(cardFits: bool, denied: bool, violated: bool): Decision {
    if !cardFits then Deny(CardNotFound)
    else if denied then Deny(PermissionDenied)
    else if violated then Deny(AntiPassback)
    else Allow
  }

  /** Redis answers by the rows with the card, the denied key and the text of the passback key. */
  lemma FastPathRule(s: System, user: string, card: string, dir: Direction, now: int)
    requires Consistent(s)
    ensures AnswerWith(s, user, card, dir, now, HEALTHY) ==
            Some(Rule(CardFits(s.db, user, card), Get(s.store, DeniedKey(user), now).Some?,
                      Get(s.store, PassbackKey(user), now) == Some(if dir.In? then "IN" else "OUT")))
  {
    if card != "" {
      SettledCard(s, user, card, now);
      LookupIsOwner(s.db, card, user);
    }
  }

  /** The fallback answers by the rows with the card, of the employee, and of the swipes. */
  lemma FallbackRule(s: System, user: string, card: string, dir: Direction, now: int)
    ensures AnswerWith(s, user, card, dir, now, HEALTHY.(readFails := true)) ==
            Some(Rule(CardFits(s.db, user, card), Banned(s.db, user), LastAllowed(s.db, user, dir)))
  {
    FallbackAnswers(Some(s.db), user, card, dir, HEALTHY.(readFails := true));
  }

  lemma FailedWriteRule(s: System, user: string, card: string, dir: Direction, now: int)
    ensures var healthy := AnswerWith(s, user, card, dir, now, HEALTHY);
            AnswerWith(s, user, card, dir, now, HEALTHY.(passbackWrite := WriteFailed(false))) ==
            if healthy == Some(Allow) then AnswerWith(s, user, card, dir, now, HEALTHY.(readFails := true)) else healthy
  {
  }

  /** Failure transparency, exactly. In every reachable state a settled user gets the same
      decision and reason from Redis and from the fallback if and only if no key the decision
      depends on was forgotten; and a failing SetPassback changes an answer only where the
      fallback would. */
  lemma FailureTransparency(init: System, events: seq<Event>, s: System, user: string, card: string, dir: Direction,
                            now: int)
    requires Initial(init) && Reaches(init, events, s) && Settled(s, user)
    ensures var healthy := AnswerWith(s, user, card, dir, now, HEALTHY);
            var readFails := AnswerWith(s, user, card, dir, now, HEALTHY.(readFails := true));
            var writeFails := AnswerWith(s, user, card, dir, now, HEALTHY.(passbackWrite := WriteFailed(false)));
            && healthy.Some? && readFails.Some? && writeFails.Some?
            && (healthy == readFails <==> !Forgotten(s, user, card, dir, now))
            && writeFails == (if healthy == Some(Allow) then readFails else healthy)
  {
    InitialIsConsistent(init);
    ReachableIsConsistent(init, events, s);
    assert DeniedAgrees(s, user);
    EventuallySettled(DeniedKey(user) in s.store, s.perms, user);
    ActiveIsNotBanned(s.db, user);
    LastDirectionIsLastAllowed(s.db, user, dir);
    SettledPassback(s, user);
    FastPathRule(s, user, card, dir, now);
    FallbackRule(s, user, card, dir, now);
    FailedWriteRule(s, user, card, dir, now);
  }

  /** While no key has expired, Decision and Reason are the same whether Redis is healthy, fails
      on read, or fails on SetPassback. */
  lemma TransparentWithoutExpiry(init: System, events: seq<Event>, s: System, user: string, card: string,
                                 dir: Direction, now: int)
    requires Initial(init) && Reaches(init, events, s) && Settled(s, user)
    requires forall key :: key in s.store ==> now < s.store[key].expires
    ensures var healthy := AnswerWith(s, user, card, dir, now, HEALTHY);
            && healthy == AnswerWith(s, user, card, dir, now, HEALTHY.(readFails := true))
            && healthy == AnswerWith(s, user, card, dir, now, HEALTHY.(passbackWrite := WriteFailed(false)))
  {
    FailureTransparency(init, events, s, user, card, dir, now);
    InitialIsConsistent(init);
    ReachableIsConsistent(init, events, s);
    assert DeniedAgrees(s, user);
    EventuallySettled(DeniedKey(user) in s.store, s.perms, user);
    ActiveIsNotBanned(s.db, user);
    LastDirectionIsLastAllowed(s.db, user, dir);
    SettledPassback(s, user);
  }

  /** One employee, allowed in at `now`, with the swipe stored. */
  function OneEntry(id: string, now: int): System {
    System(map[PassbackKey(id) := Entry("IN", now + HOURS_24)],
           Database([Employee(id, "", true, 0)], [SwipeRow(id, In, true, 1)]), {}, [])
  }

  lemma EntryRun(id: string, now: int)
    requires id != ""
    ensures var init := System(map[], Database([Employee(id, "", true, 0)], []), {}, []);
            Initial(init) && Reaches(init, [Swipe(id, "", In, now, 1), Ingest(SwipeRow(id, In, true, 1), false)],
                                     OneEntry(id, now))
  {
    var db := Database([Employee(id, "", true, 0)], []);
    var init := System(map[], db, {}, []);
    var row := SwipeRow(id, In, true, 1);
    var e0, e1 := Swipe(id, "", In, now, 1), Ingest(row, false);
    var s1 := Step(init, e0);
    assert s1 == System(map[PassbackKey(id) := Entry("IN", now + HOURS_24)], db, {row}, []);
    var s2 := Step(s1, e1);
    assert s2 == OneEntry(id, now);
    assert [e0, e1][1..] == [e1] && [e1][1..] == [];
    assert Reaches(s2, [], s2);
    assert Reaches(s1, [e1], s2);
  }

  lemma AnswersAfterADay(id: string, now: int)
    requires id != ""
    ensures AnswerWith(OneEntry(id, now), id, "", In, now + HOURS_24, HEALTHY) == Some(Allow)
    ensures AnswerWith(OneEntry(id, now), id, "", In, now + HOURS_24, HEALTHY.(readFails := true))
            == Some(Deny(AntiPassback))
  {
    var s := OneEntry(id, now);
    KeysAreDistinct(id, id);
    assert Get(s.store, PassbackKey(id), now + HOURS_24).None? && Get(s.store, DeniedKey(id), now + HOURS_24).None?;
    assert s.db.swipes[..0] == [] && LatestAllow(s.db.swipes, id) == Some(s.db.swipes[0]);
    assert s.db.employees[..0] == [] && Latest(s.db.employees, ById(id)) == Some(s.db.employees[0]);
    FallbackRule(s, id, "", In, now + HOURS_24);
  }

  /** After a day the two paths part: the same swipe is allowed by Redis and refused by the
      database. */
  lemma ExpiryIsVisible(id: string, now: int)
    requires id != ""
    ensures var init := System(map[], Database([Employee(id, "", true, 0)], []), {}, []);
            var events := [Swipe(id, "", In, now, 1), Ingest(SwipeRow(id, In, true, 1), false)];
            exists s :: Initial(init) && Reaches(init, events, s) && Settled(s, id)
              && AnswerWith(s, id, "", In, now + HOURS_24, HEALTHY) == Some(Allow)
              && AnswerWith(s, id, "", In, now + HOURS_24, HEALTHY.(readFails := true)) == Some(Deny(AntiPassback))
  {
    EntryRun(id, now);
    AnswersAfterADay(id, now);
    assert Settled(OneEntry(id, now), id);
  }
}
