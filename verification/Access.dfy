/** The door decision: the Redis fast path of Evaluate, its database fallback, and what a whole
    run of swipes may conclude (access-api/internal/service/access_decision.go, with the
    queries of internal/repository/employee.go and the cache of internal/cache/redis.go). */
module Access {
  import opened Options
  import opened Redis
  import Runs

  datatype Direction = In | Out

  function Text(dir: Direction): string {
    match dir
    case In => "IN"
    case Out => "OUT"
  }

  datatype Reason = AntiPassback | PermissionDenied | CardNotFound
  datatype Decision = Allow | Deny(reason: Reason)

  /** A decision, ErrCacheUnavailable, or the database error of the fallback. */
  datatype Outcome = Decided(decision: Decision, degraded: bool) | CacheUnavailable | DatabaseError

  // ---------------------------------------------------------------------------
  // The database as the fallback sees it.
  // ---------------------------------------------------------------------------

  datatype Employee = Employee(id: string, card: string, active: bool, updatedAt: int)
  datatype SwipeRow = SwipeRow(user: string, dir: Direction, allowed: bool, time: int)
  datatype Database = Database(employees: seq<Employee>, swipes: seq<SwipeRow>)

  /** What the two queries on employees select by. */
  datatype Key = ById(id: string) | ByCard(card: string)

  predicate Fits(e: Employee, key: Key) {
    match key
    case ById(id) => e.id == id
    case ByCard(card) => e.card == card
  }

  /** argMax(..., updated_at) over the rows of one employee or with one card. */
  function Latest(rows: seq<Employee>, key: Key): (r: Option<Employee>)
    ensures r.Some? ==> r.value in rows && Fits(r.value, key)
    ensures forall x <- rows :: Fits(x, key) ==> r.Some? && x.updatedAt <= r.value.updatedAt
    decreases |rows|
  {
    if rows == [] then None
    else
      var last, best := rows[|rows| - 1], Latest(rows[..|rows| - 1], key);
      assert rows == rows[..|rows| - 1] + [last];
      if Fits(last, key) && (best.None? || last.updatedAt >= best.value.updatedAt) then Some(last) else best
  }

  /** The latest ALLOW swipe of one employee. */
  function LatestAllow(rows: seq<SwipeRow>, user: string): (r: Option<SwipeRow>)
    ensures r.Some? ==> r.value in rows && r.value.user == user && r.value.allowed
    ensures forall x <- rows :: x.user == user && x.allowed ==> r.Some? && x.time <= r.value.time
    decreases |rows|
  {
    if rows == [] then None
    else
      var last, best := rows[|rows| - 1], LatestAllow(rows[..|rows| - 1], user);
      assert rows == rows[..|rows| - 1] + [last];
      if last.user == user && last.allowed && (best.None? || last.time >= best.value.time) then Some(last) else best
  }

  /** An unknown employee counts as active. */
  predicate IsActive(db: Database, user: string) {
    var row := Latest(db.employees, ById(user));
    row.None? || row.value.active
  }

  /** The empty string stands for a card that is not found. */
  function LookupCard(db: Database, card: string): string {
    var row := Latest(db.employees, ByCard(card));
    if row.Some? then row.value.id else ""
  }

  function LastDirection(db: Database, user: string): Option<Direction> {
    var row := LatestAllow(db.swipes, user);
    if row.Some? then Some(row.value.dir) else None
  }

  // ---------------------------------------------------------------------------
  // The three queries in terms of the rows.
  // ---------------------------------------------------------------------------

  /** Row i is the newest with the card; of rows of one time the last counts. */
  ghost predicate NewestWithCard(rows: seq<Employee>, card: string, i: int) {
    && 0 <= i < |rows| && rows[i].card == card
    && forall j :: 0 <= j < |rows| && rows[j].card == card ==>
         rows[j].updatedAt < rows[i].updatedAt || (rows[j].updatedAt == rows[i].updatedAt && j <= i)
  }

  /** Row i is the newest of the employee. */
  ghost predicate NewestOf(rows: seq<Employee>, user: string, i: int) {
    && 0 <= i < |rows| && rows[i].id == user
    && forall j :: 0 <= j < |rows| && rows[j].id == user ==>
         rows[j].updatedAt < rows[i].updatedAt || (rows[j].updatedAt == rows[i].updatedAt && j <= i)
  }

  /** Row i is the latest ALLOW swipe of the employee. */
  ghost predicate NewestAllow(rows: seq<SwipeRow>, user: string, i: int) {
    && 0 <= i < |rows| && rows[i].user == user && rows[i].allowed
    && forall j :: 0 <= j < |rows| && rows[j].user == user && rows[j].allowed ==>
         rows[j].time < rows[i].time || (rows[j].time == rows[i].time && j <= i)
  }

  /** The newest row with the card is the employee's. */
  ghost predicate OwnsCard(db: Database, user: string, card: string) {
    exists i :: NewestWithCard(db.employees, card, i) && db.employees[i].id == user
  }

  /** The employee's newest row is inactive. */
  ghost predicate Banned(db: Database, user: string) {
    exists i :: NewestOf(db.employees, user, i) && !db.employees[i].active
  }

  /** The employee's latest ALLOW swipe was in this direction. */
  ghost predicate LastAllowed(db: Database, user: string, dir: Direction) {
    exists i :: NewestAllow(db.swipes, user, i) && db.swipes[i].dir == dir
  }

  /** No card was presented, or it is the employee's. */
  ghost predicate CardFits(db: Database, user: string, card: string) {
    card == "" || (user != "" && OwnsCard(db, user, card))
  }

  /** Row i is the newest that fits. */
  ghost predicate NewestFit(rows: seq<Employee>, key: Key, i: int) {
    && 0 <= i < |rows| && Fits(rows[i], key)
    && forall j :: 0 <= j < |rows| && Fits(rows[j], key) ==>
         rows[j].updatedAt < rows[i].updatedAt || (rows[j].updatedAt == rows[i].updatedAt && j <= i)
  }

  lemma {:induction false} LatestAt(rows: seq<Employee>, key: Key) returns (i: nat)
    ensures Latest(rows, key).Some? ==> NewestFit(rows, key, i) && rows[i] == Latest(rows, key).value
    decreases |rows|
  {
    i := 0;
    if rows != [] {
      var init, last := rows[..|rows| - 1], rows[|rows| - 1];
      i := LatestAt(init, key);
      if Fits(last, key) && (Latest(init, key).None? || last.updatedAt >= Latest(init, key).value.updatedAt) {
        i := |rows| - 1;
        LastFitIsNewest(rows, key);
      } else if Latest(init, key).Some? {
        NewestFitStays(rows, key, i);
      }
    }
  }

  lemma LastFitIsNewest(rows: seq<Employee>, key: Key)
    requires rows != []
    requires var init, last := rows[..|rows| - 1], rows[|rows| - 1];
             Fits(last, key) && (Latest(init, key).None? || last.updatedAt >= Latest(init, key).value.updatedAt)
    ensures NewestFit(rows, key, |rows| - 1)
  {
    forall j | 0 <= j < |rows| - 1 && Fits(rows[j], key) ensures rows[j].updatedAt <= rows[|rows| - 1].updatedAt {
      assert rows[..|rows| - 1][j] in rows[..|rows| - 1];
    }
  }

  lemma NewestFitStays(rows: seq<Employee>, key: Key, i: int)
    requires rows != [] && NewestFit(rows[..|rows| - 1], key, i)
    requires Fits(rows[|rows| - 1], key) ==> rows[|rows| - 1].updatedAt < rows[i].updatedAt
    ensures NewestFit(rows, key, i)
  {
    var init := rows[..|rows| - 1];
    forall j | 0 <= j < |rows| && Fits(rows[j], key)
      ensures rows[j].updatedAt < rows[i].updatedAt || (rows[j].updatedAt == rows[i].updatedAt && j <= i) {
      assert j < |init| ==> init[j] == rows[j];
    }
  }

  lemma {:induction false} LatestAllowAt(rows: seq<SwipeRow>, user: string) returns (i: nat)
    ensures LatestAllow(rows, user).Some? ==> NewestAllow(rows, user, i) && rows[i] == LatestAllow(rows, user).value
    decreases |rows|
  {
    i := 0;
    if rows != [] {
      var init, last := rows[..|rows| - 1], rows[|rows| - 1];
      i := LatestAllowAt(init, user);
      if last.user == user && last.allowed
         && (LatestAllow(init, user).None? || last.time >= LatestAllow(init, user).value.time) {
        i := |rows| - 1;
        LastIsNewest(rows, user);
      } else if LatestAllow(init, user).Some? {
        NewestStays(rows, user, i);
      }
    }
  }

  lemma LastIsNewest(rows: seq<SwipeRow>, user: string)
    requires rows != []
    requires var init, last := rows[..|rows| - 1], rows[|rows| - 1];
             && last.user == user && last.allowed
             && (LatestAllow(init, user).None? || last.time >= LatestAllow(init, user).value.time)
    ensures NewestAllow(rows, user, |rows| - 1)
  {
    forall j | 0 <= j < |rows| - 1 && rows[j].user == user && rows[j].allowed
        ensures rows[j].time <= rows[|rows| - 1].time {
      assert rows[..|rows| - 1][j] in rows[..|rows| - 1];
    }
  }

  lemma NewestStays(rows: seq<SwipeRow>, user: string, i: int)
    requires rows != [] && NewestAllow(rows[..|rows| - 1], user, i)
    requires var last := rows[|rows| - 1]; last.user == user && last.allowed ==> last.time < rows[i].time
    ensures NewestAllow(rows, user, i)
  {
    var init := rows[..|rows| - 1];
    forall j | 0 <= j < |rows| && rows[j].user == user && rows[j].allowed
      ensures rows[j].time < rows[i].time || (rows[j].time == rows[i].time && j <= i) {
      assert j < |init| ==> init[j] == rows[j];
    }
  }

  /** LookupCardUID answers the employee of the newest row with the card, and nothing if no row
      has it. */
  lemma LookupIsOwner(db: Database, card: string, user: string)
    ensures user != "" ==> (LookupCard(db, card) == user <==> OwnsCard(db, user, card))
    ensures (forall r <- db.employees :: r.card != card) ==> LookupCard(db, card) == ""
  {
    var i := LatestAt(db.employees, ByCard(card));
    if LookupCard(db, card) == user != "" {
      assert NewestWithCard(db.employees, card, i);
    }
    if OwnsCard(db, user, card) {
      var k :| NewestWithCard(db.employees, card, k) && db.employees[k].id == user;
      assert Fits(db.employees[k], ByCard(card));
      assert Fits(db.employees[i], ByCard(card));
    }
  }

  /** If a card is only ever one employee's, it fits exactly the employee who has a row with it. */
  lemma CardFitsHolder(db: Database, user: string, card: string)
    requires card != "" && forall a <- db.employees, b <- db.employees :: a.card == b.card == card ==> a.id == b.id
    ensures CardFits(db, user, card) <==> user != "" && exists r :: r in db.employees && r.card == card && r.id == user
  {
    if exists r :: r in db.employees && r.card == card && r.id == user {
      var r :| r in db.employees && r.card == card && r.id == user;
      var i := LatestAt(db.employees, ByCard(card));
      assert Fits(r, ByCard(card));
      assert NewestWithCard(db.employees, card, i);
    }
  }

  /** IsActive answers by the newest row, and yes for an unknown employee. */
  lemma ActiveIsNotBanned(db: Database, user: string)
    ensures IsActive(db, user) <==> !Banned(db, user)
  {
    var i := LatestAt(db.employees, ById(user));
    if !IsActive(db, user) {
      assert NewestOf(db.employees, user, i);
    }
    if Banned(db, user) {
      var k :| NewestOf(db.employees, user, k) && !db.employees[k].active;
      assert Fits(db.employees[k], ById(user)) && Fits(db.employees[i], ById(user));
    }
  }

  lemma NewestIsOne(rows: seq<SwipeRow>, user: string, i: int, k: int)
    requires NewestAllow(rows, user, i) && NewestAllow(rows, user, k)
    ensures i == k
  {
  }

  lemma LastDirectionIsLastAllowed(db: Database, user: string, dir: Direction)
    ensures LastDirection(db, user) == Some(dir) <==> LastAllowed(db, user, dir)
  {
    var i := LatestAllowAt(db.swipes, user);
    if LastAllowed(db, user, dir) {
      var k :| NewestAllow(db.swipes, user, k) && db.swipes[k].dir == dir;
      assert db.swipes[k] in db.swipes;
      NewestIsOne(db.swipes, user, i, k);
    }
  }

  // ---------------------------------------------------------------------------
  // One evaluation.
  // ---------------------------------------------------------------------------

  /** What goes wrong during one evaluation. A failed SetPassback may still have landed, and
      the result of SetCardMapping is ignored. */
  datatype PassbackWrite = Stored | WriteFailed(landed: bool)
  datatype Faults = Faults(readFails: bool, cardStored: bool, passbackWrite: PassbackWrite,
                           cardQueryFails: bool, activeQueryFails: bool, passbackQueryFails: bool)

  const HEALTHY: Faults := Faults(false, true, Stored, false, false, false)

  datatype Batch = Batch(mappedUser: string, denied: bool, passback: Option<Direction>)

  function ParseState(value: Option<string>): Option<Direction> {
    if value == Some("IN") then Some(In) else if value == Some("OUT") then Some(Out) else None
  }

  function ReadBatch(store: Store, card: string, user: string, now: int): Batch {
    var mapped := if card == "" then None else Get(store, CardKey(card), now);
    Batch(if mapped.Some? then mapped.value else "",
          Get(store, DeniedKey(user), now).Some?,
          ParseState(Get(store, PassbackKey(user), now)))
  }

  predicate Violates(state: Option<Direction>, dir: Direction) {
    state == Some(dir)
  }

  function Fallback(db: Option<Database>, user: string, card: string, dir: Direction, faults: Faults): Outcome {
    if db.None? then CacheUnavailable
    else
      var owner := if card == "" || faults.cardQueryFails then "" else LookupCard(db.value, card);
      if card != "" && (owner == "" || owner != user) then Decided(Deny(CardNotFound), true)
      else if faults.activeQueryFails then DatabaseError
      else if !IsActive(db.value, user) then Decided(Deny(PermissionDenied), true)
      else
        var state := if faults.passbackQueryFails then None else LastDirection(db.value, user);
        if Violates(state, dir) then Decided(Deny(AntiPassback), true) else Decided(Allow, true)
  }

  /** The fallback's answers in terms of the rows, for every query that may fail: without a
      database there is none; a card whose owner cannot be found is refused; an employee who
      cannot be checked is an error; and a last swipe that cannot be read counts as none. */
  lemma FallbackAnswers(db: Option<Database>, user: string, card: string, dir: Direction, faults: Faults)
    ensures db.None? ==> Fallback(db, user, card, dir, faults) == CacheUnavailable
    ensures db.Some? ==>
              Fallback(db, user, card, dir, faults) ==
              (if card != "" && (faults.cardQueryFails || !CardFits(db.value, user, card))
               then Decided(Deny(CardNotFound), true)
               else if faults.activeQueryFails then DatabaseError
               else if Banned(db.value, user) then Decided(Deny(PermissionDenied), true)
               else if !faults.passbackQueryFails && LastAllowed(db.value, user, dir)
               then Decided(Deny(AntiPassback), true)
               else Decided(Allow, true))
  {
    if db.Some? {
      LookupIsOwner(db.value, card, user);
      ActiveIsNotBanned(db.value, user);
      LastDirectionIsLastAllowed(db.value, user, dir);
    }
  }

  /** The read-through of a card that is not cached: the owner and the store afterwards. */
  function ResolveCard(store: Store, db: Option<Database>, mapped: string, card: string, now: int,
                       faults: Faults): (string, Store) {
    if card == "" || mapped != "" || db.None? || faults.cardQueryFails then (mapped, store)
    else
      var owner := LookupCard(db.value, card);
      if owner == "" then ("", store)
      else (owner, if faults.cardStored then Set(store, CardKey(card), owner, now, HOURS_24) else store)
  }

  /** The checks before SetPassback: the reason to refuse, if any, and the store after the
      card read-through. */
  function Checked(store: Store, db: Option<Database>, user: string, card: string, dir: Direction, now: int,
                   faults: Faults)
    : (Option<Reason>, Store)
  {
    var batch := ReadBatch(store, card, user, now);
    var (owner, cards) := ResolveCard(store, db, batch.mappedUser, card, now, faults);
    (if card != "" && (owner == "" || owner != user) then Some(CardNotFound)
     else if batch.denied then Some(PermissionDenied)
     else if Violates(batch.passback, dir) then Some(AntiPassback)
     else None, cards)
  }

  function Evaluated(store: Store, db: Option<Database>, user: string, card: string, dir: Direction, now: int,
                     faults: Faults)
    : (Outcome, Store)
  {
    if faults.readFails then (Fallback(db, user, card, dir, faults), store)
    else
      var (refusal, cards) := Checked(store, db, user, card, dir, now, faults);
      if refusal.Some? then (Decided(Deny(refusal.value), false), cards)
      else
        var stored := Set(cards, PassbackKey(user), Text(dir), now, HOURS_24);
        match faults.passbackWrite
        case Stored => (Decided(Allow, false), stored)
        case WriteFailed(landed) => (Fallback(db, user, card, dir, faults), if landed then stored else cards)
  }

  predicate CleanAllow(outcome: Outcome) {
    outcome == Decided(Allow, false)
  }

  /** SetPassback was reached and its value is in Redis, whatever the call reported. */
  predicate Landed(store: Store, db: Option<Database>, user: string, card: string, dir: Direction, now: int,
                   faults: Faults) {
    && !faults.readFails && faults.passbackWrite != WriteFailed(false)
    && Checked(store, db, user, card, dir, now, faults).0.None?
  }

  /** An evaluation caches at most the card's owner and then, if it lands, the direction. */
  lemma StoreAfter(store: Store, db: Option<Database>, user: string, card: string, dir: Direction, now: int,
                   faults: Faults)
    returns (cards: Store, owner: string)
    ensures cards == store || cards == Set(store, CardKey(card), owner, now, HOURS_24)
    ensures Evaluated(store, db, user, card, dir, now, faults).1
            == if Landed(store, db, user, card, dir, now, faults)
                then Set(cards, PassbackKey(user), Text(dir), now, HOURS_24) else cards
  {
    cards, owner := store, "";
    if !faults.readFails {
      cards := Checked(store, db, user, card, dir, now, faults).1;
      owner := if db.Some? then LookupCard(db.value, card) else "";
    }
  }

  /** Which passback keys an evaluation changes, and for how long. */
  lemma PassbackWrites(store: Store, db: Option<Database>, user: string, card: string, dir: Direction,
                       now: int, faults: Faults, other: string, later: int)
    ensures Get(Evaluated(store, db, user, card, dir, now, faults).1, PassbackKey(other), later) ==
            if other == user && Landed(store, db, user, card, dir, now, faults)
            then (if later < now + 86_400_000_000_000 then Some(if dir.In? then "IN" else "OUT") else None)
            else Get(store, PassbackKey(other), later)
  {
    var cards, owner := StoreAfter(store, db, user, card, dir, now, faults);
    KeysAreDistinct(other, card);
    KeysAreDistinct(other, user);
  }

  // ---------------------------------------------------------------------------
  // Runs.
  // ---------------------------------------------------------------------------

  /** A swipe, the invalidation worker's two writes, or any change of the database. */
  datatype Event =
    | Tap(user: string, card: string, dir: Direction, now: int, faults: Faults)
    | SetDenied(user: string, now: int)
    | ClearDenied(user: string, now: int)
    | DatabaseChanges(db: Option<Database>, now: int)

  /** `landed`: the swipe left its direction in Redis. */
  datatype Record = Record(user: string, dir: Direction, time: int, outcome: Outcome, landed: bool)

  datatype World = World(store: Store, db: Option<Database>, history: seq<Record>)

  function Step(w: World, e: Event): World {
    match e
    case Tap(user, card, dir, now, faults) =>
      var (outcome, store) := Evaluated(w.store, w.db, user, card, dir, now, faults);
      World(store, w.db, w.history + [Record(user, dir, now, outcome,
                                             Landed(w.store, w.db, user, card, dir, now, faults))])
    case SetDenied(user, now) => w.(store := Set(w.store, DeniedKey(user), "DENY", now, HOURS_24))
    case ClearDenied(user, now) => w.(store := w.store - {DeniedKey(user)})
    case DatabaseChanges(db, now) => w.(db := db)
  }

  function After(w: World, events: seq<Event>): World {
    Runs.After(Step, w, events)
  }

  predicate Wrote(r: Record, user: string) {
    r.user == user && r.landed
  }

  /** The passback state a user should have at `now`: the direction of the user's last write
      that landed, unless that is 24 hours old. */
  function HistoryState(history: seq<Record>, user: string, now: int): Option<Direction>
    decreases |history|
  {
    if history == [] then None
    else
      var last := history[|history| - 1];
      if Wrote(last, user) then (if now < last.time + HOURS_24 then Some(last.dir) else None)
      else HistoryState(history[..|history| - 1], user, now)
  }

  ghost predicate Faithful(w: World, user: string, now: int) {
    ParseState(Get(w.store, PassbackKey(user), now)) == HistoryState(w.history, user, now)
  }

  lemma TapKeepsFaithful(w: World, e: Event, user: string, now: int)
    requires Faithful(w, user, now) && e.Tap?
    ensures Faithful(Step(w, e), user, now)
  {
    PassbackWrites(w.store, w.db, e.user, e.card, e.dir, e.now, e.faults, user, now);
    var h := Step(w, e).history;
    assert h[..|h| - 1] == w.history;
  }

  lemma StepKeepsFaithful(w: World, e: Event, user: string, now: int)
    requires Faithful(w, user, now)
    ensures Faithful(Step(w, e), user, now)
  {
    match e
    case Tap(_, _, _, _, _) => TapKeepsFaithful(w, e, user, now);
    case SetDenied(u, _) => KeysAreDistinct(user, u);
    case ClearDenied(u, _) => KeysAreDistinct(user, u);
    case DatabaseChanges(_, _) =>
  }

  /** The cache is a function of the history: after any run, whatever failed or changed in
      between, Redis holds for every user exactly the state the history gives. */
  lemma {:induction false} CacheIsHistory(db: Option<Database>, events: seq<Event>, user: string, now: int)
    ensures Faithful(After(World(map[], db, []), events), user, now)
    decreases |events|
  {
    if events != [] {
      var init, e := events[..|events| - 1], events[|events| - 1];
      CacheIsHistory(db, init, user, now);
      StepKeepsFaithful(After(World(map[], db, []), init), e, user, now);
    }
  }

  /** A swipe's card passes: none was presented, Redis has it for the user, or Redis does not
      have it and the database does. */
  ghost predicate CardPasses(store: Store, db: Option<Database>, user: string, card: string, now: int, faults: Faults) {
    var cached := Get(store, CardKey(card), now);
    card == "" || (user != "" && if cached.Some? && cached.value != "" then cached.value == user
                                 else db.Some? && !faults.cardQueryFails && OwnsCard(db.value, user, card))
  }

  lemma CardCheck(store: Store, db: Option<Database>, user: string, card: string, now: int, faults: Faults)
    ensures var owner := ResolveCard(store, db, ReadBatch(store, card, user, now).mappedUser, card, now, faults).0;
            card != "" ==> (owner != "" && owner == user <==> CardPasses(store, db, user, card, now, faults))
  {
    if db.Some? {
      LookupIsOwner(db.value, card, user);
    }
  }

  /** What a swipe answers whose batch read succeeds, in terms of the rows, the history and the
      denied flag; a failing SetPassback leaves the answer to the fallback. */
  lemma SwipeFollowsHistory(db: Option<Database>, events: seq<Event>, user: string, card: string, dir: Direction,
                            now: int, faults: Faults)
    requires !faults.readFails
    ensures var w := After(World(map[], db, []), events);
            Evaluated(w.store, w.db, user, card, dir, now, faults).0 ==
            if !CardPasses(w.store, w.db, user, card, now, faults) then Decided(Deny(CardNotFound), false)
            else if Get(w.store, DeniedKey(user), now).Some? then Decided(Deny(PermissionDenied), false)
            else if HistoryState(w.history, user, now) == Some(dir) then Decided(Deny(AntiPassback), false)
            else if faults.passbackWrite.Stored? then Decided(Allow, false)
            else Fallback(w.db, user, card, dir, faults)
  {
    CacheIsHistory(db, events, user, now);
    var w := After(World(map[], db, []), events);
    CardCheck(w.store, w.db, user, card, now, faults);
  }

  /** What a healthy swipe answers. */
  lemma HealthySwipeFollowsHistory(db: Option<Database>, events: seq<Event>, user: string, card: string,
                                   dir: Direction, now: int)
    ensures var w := After(World(map[], db, []), events);
            Evaluated(w.store, w.db, user, card, dir, now, HEALTHY).0 ==
            Decided(if !CardPasses(w.store, w.db, user, card, now, HEALTHY) then Deny(CardNotFound)
                    else if Get(w.store, DeniedKey(user), now).Some? then Deny(PermissionDenied)
                    else if HistoryState(w.history, user, now) == Some(dir) then Deny(AntiPassback)
                    else Allow, false)
  {
    SwipeFollowsHistory(db, events, user, card, dir, now, HEALTHY);
  }

  /** A swipe fetches the card's owner from the database and caches it. */
  ghost predicate CachesCard(store: Store, db: Option<Database>, card: string, now: int, faults: Faults) {
    var cached := Get(store, CardKey(card), now);
    && !faults.readFails && card != "" && (cached.None? || cached.value == "")
    && db.Some? && !faults.cardQueryFails && faults.cardStored
    && exists i :: NewestWithCard(db.value.employees, card, i) && db.value.employees[i].id != ""
  }

  function CardsAfter(store: Store, db: Option<Database>, user: string, card: string, now: int, faults: Faults): Store {
    if faults.readFails then store
    else ResolveCard(store, db, ReadBatch(store, card, user, now).mappedUser, card, now, faults).1
  }

  lemma PassbackLeavesCards(store: Store, db: Option<Database>, user: string, card: string, dir: Direction, now: int,
                            faults: Faults, other: string, later: int)
    ensures Get(Evaluated(store, db, user, card, dir, now, faults).1, CardKey(other), later)
            == Get(CardsAfter(store, db, user, card, now, faults), CardKey(other), later)
  {
    KeysAreDistinct(user, other);
  }

  /** Which card keys an evaluation changes: the swiped card's, exactly if Redis does not have it
      and the newest row with it names an employee, to that employee and for 24 hours. */
  lemma CardWrites(store: Store, db: Option<Database>, user: string, card: string, dir: Direction, now: int,
                   faults: Faults, other: string, later: int)
    ensures var before, after := Get(store, CardKey(other), later),
                                 Get(Evaluated(store, db, user, card, dir, now, faults).1, CardKey(other), later);
            if other == card && CachesCard(store, db, card, now, faults)
            then if later < now + 86_400_000_000_000 then after.Some? && OwnsCard(db.value, after.value, card)
                 else after.None?
            else after == before
  {
    PassbackLeavesCards(store, db, user, card, dir, now, faults, other, later);
    KeysAreDistinct(other, card);
    if !faults.readFails {
      ResolveWrites(store, db, user, card, now, faults);
    }
  }

  lemma ResolveWrites(store: Store, db: Option<Database>, user: string, card: string, now: int, faults: Faults)
    requires !faults.readFails
    ensures var cards := CardsAfter(store, db, user, card, now, faults);
            if CachesCard(store, db, card, now, faults)
            then exists owner ::
                cards == Set(store, CardKey(card), owner, now, HOURS_24) && OwnsCard(db.value, owner, card)
            else cards == store
  {
    if db.Some? {
      var owner := LookupCard(db.value, card);
      LookupOwns(db.value, card);
      if owner != "" {
        LookupIsOwner(db.value, card, owner);
      }
      if CachesCard(store, db, card, now, faults) {
        assert CardsAfter(store, db, user, card, now, faults)
            == Set(store, CardKey(card), owner, now, HOURS_24);
      }
    }
  }

  lemma LookupOwns(db: Database, card: string)
    ensures LookupCard(db, card) != ""
            <==> exists i :: NewestWithCard(db.employees, card, i) && db.employees[i].id != ""
  {
    if LookupCard(db, card) != "" {
      LookupIsOwner(db, card, LookupCard(db, card));
      var i :| NewestWithCard(db.employees, card, i) && db.employees[i].id == LookupCard(db, card);
    }
    if exists i :: NewestWithCard(db.employees, card, i) && db.employees[i].id != "" {
      var i :| NewestWithCard(db.employees, card, i) && db.employees[i].id != "";
      LookupIsOwner(db, card, db.employees[i].id);
    }
  }

  // ---------------------------------------------------------------------------
  // Anti-passback over whole runs.
  // ---------------------------------------------------------------------------

  /** A non-degraded ALLOW. */
  predicate Counts(r: Record, user: string) {
    r.user == user && CleanAllow(r.outcome)
  }

  /** A SetPassback that reported an error but landed. */
  predicate Phantom(r: Record, user: string) {
    Wrote(r, user) && !CleanAllow(r.outcome)
  }

  /** Record i is the user's last write before record j. */
  predicate LastWriteBefore(history: seq<Record>, user: string, i: nat, j: nat) {
    i < j < |history| && Wrote(history[i], user) && forall k :: i < k < j ==> !Wrote(history[k], user)
  }

  lemma {:induction false} StateAfterLast(history: seq<Record>, user: string, i: nat, now: int)
    requires i < |history| && Wrote(history[i], user)
    requires forall k :: i < k < |history| ==> !Wrote(history[k], user)
    ensures HistoryState(history, user, now) ==
            if now < history[i].time + HOURS_24 then Some(history[i].dir) else None
    decreases |history|
  {
    if i < |history| - 1 {
      StateAfterLast(history[..|history| - 1], user, i, now);
    }
  }

  /** A write lands, and a non-degraded ALLOW is given, only where another state than the
      swipe's own direction was found; and every non-degraded ALLOW writes. */
  lemma LandedMeansNoViolation(w: World, e: Event)
    requires e.Tap?
    ensures var r := Step(w, e).history[|w.history|];
            && (r.landed ==> ParseState(Get(w.store, PassbackKey(e.user), e.now)) != Some(e.dir))
            && (CleanAllow(r.outcome) ==> r.landed)
  {
  }

  /** In any run, two successive writes of one user's passback state in the same direction are
      at least 24 hours apart, and every non-degraded ALLOW is such a write. */
  lemma {:induction false} WritesAreSpaced(db: Option<Database>, events: seq<Event>, user: string, i: nat, j: nat)
    requires var h := After(World(map[], db, []), events).history;
             LastWriteBefore(h, user, i, j) && Wrote(h[j], user) && h[i].dir == h[j].dir
    ensures var h := After(World(map[], db, []), events).history;
            h[j].time >= h[i].time + HOURS_24
    decreases |events|
  {
    if events != [] {
      var init, e := events[..|events| - 1], events[|events| - 1];
      var w := After(World(map[], db, []), init);
      if j < |w.history| {
        assert forall k :: 0 <= k < |w.history| ==> Step(w, e).history[k] == w.history[k];
        WritesAreSpaced(db, init, user, i, j);
      } else {
        var h := Step(w, e).history;
        assert e.Tap? && h == w.history + [h[j]];
        LandedMeansNoViolation(w, e);
        CacheIsHistory(db, init, user, e.now);
        assert forall k :: 0 <= k < |w.history| ==> h[k] == w.history[k];
        StateAfterLast(w.history, user, i, e.now);
      }
    }
  }

  lemma {:induction false} AllowsWrite(db: Option<Database>, events: seq<Event>, user: string, i: nat)
    requires i < |After(World(map[], db, []), events).history|
             && Counts(After(World(map[], db, []), events).history[i], user)
    ensures Wrote(After(World(map[], db, []), events).history[i], user)
    decreases |events|
  {
    if events != [] {
      var init, e := events[..|events| - 1], events[|events| - 1];
      var w := After(World(map[], db, []), init);
      if i < |w.history| {
        assert Step(w, e).history[i] == w.history[i];
        AllowsWrite(db, init, user, i);
      } else {
        LandedMeansNoViolation(w, e);
      }
    }
  }

  /** The last write of a user before record j, if record i is one. */
  lemma {:induction false} LastWrite(history: seq<Record>, user: string, i: nat, j: nat) returns (k: nat)
    requires i < j < |history| && Wrote(history[i], user)
    ensures i <= k && LastWriteBefore(history, user, k, j)
    decreases j
  {
    k := j - 1;
    if !Wrote(history[k], user) {
      k := LastWrite(history, user, i, j - 1);
    }
  }

  /** Writes in one direction with no write in the other between them are spaced. */
  lemma {:induction false} ChainIsSpaced(db: Option<Database>, events: seq<Event>, user: string, i: nat, j: nat)
    requires var h := After(World(map[], db, []), events).history;
             && i < j < |h| && Wrote(h[i], user) && Wrote(h[j], user)
             && forall k :: i <= k <= j && Wrote(h[k], user) ==> h[k].dir == h[i].dir
    ensures var h := After(World(map[], db, []), events).history;
            h[j].time >= h[i].time + HOURS_24
    decreases j
  {
    var h := After(World(map[], db, []), events).history;
    var k := LastWrite(h, user, i, j);
    WritesAreSpaced(db, events, user, k, j);
    if i < k {
      ChainIsSpaced(db, events, user, i, k);
    }
  }

  /** Two successive non-degraded ALLOWs of one user in the same direction are at least 24
      hours apart, whatever happens in between, unless a SetPassback of that user in the other
      direction that reported an error took effect between the two. */
  lemma SameDirectionTwiceTakesADay(db: Option<Database>, events: seq<Event>, user: string, i: nat, j: nat)
    requires var h := After(World(map[], db, []), events).history;
             && i < j < |h| && Counts(h[i], user) && Counts(h[j], user) && h[i].dir == h[j].dir
             && forall k :: i < k < j ==> !Counts(h[k], user) && !(Phantom(h[k], user) && h[k].dir != h[i].dir)
    ensures var h := After(World(map[], db, []), events).history;
            h[j].time >= h[i].time + 86_400_000_000_000
  {
    AllowsWrite(db, events, user, i);
    AllowsWrite(db, events, user, j);
    ChainIsSpaced(db, events, user, i, j);
  }

  /** Such a phantom write does break the rule: the degraded OUT in between clears the way for
      a second IN at once. */
  lemma PhantomWriteBreaksTheRule(user: string, now: int)
    ensures var db := Some(Database([], [SwipeRow(user, In, true, now)]));
            var h := After(World(map[], db, []),
                           [Tap(user, "", In, now, HEALTHY),
                            Tap(user, "", Out, now + 1, HEALTHY.(passbackWrite := WriteFailed(true))),
                            Tap(user, "", In, now + 2, HEALTHY)]).history;
            && |h| == 3 && Counts(h[0], user) && Phantom(h[1], user) && Counts(h[2], user)
            && h[0].dir == h[2].dir && h[2].time < h[0].time + HOURS_24
  {
    var db := Some(Database([], [SwipeRow(user, In, true, now)]));
    var w := World(map[], db, []);
    var a, c := Tap(user, "", In, now, HEALTHY), Tap(user, "", In, now + 2, HEALTHY);
    var b := Tap(user, "", Out, now + 1, HEALTHY.(passbackWrite := WriteFailed(true)));
    Runs.AfterThree(Step, w, a, b, c);
    KeysAreDistinct(user, user);
    var w1 := Step(w, a);
    assert w1.store == map[PassbackKey(user) := Entry("IN", now + HOURS_24)];
    assert w1.history == [Record(user, In, now, Decided(Allow, false), true)];
    var w2 := Step(w1, b);
    assert Fallback(db, user, "", Out, b.faults).Decided? && Fallback(db, user, "", Out, b.faults).degraded;
    assert w2.store == map[PassbackKey(user) := Entry("OUT", now + 1 + HOURS_24)];
    assert |w2.history| == 2 && Phantom(w2.history[1], user);
    var w3 := Step(w2, c);
    assert w3.history[2] == Record(user, In, now + 2, Decided(Allow, false), true);
  }

  // ---------------------------------------------------------------------------
  // The service object over a cache object.
  // ---------------------------------------------------------------------------

  class RedisCache {
    var store: Store

    constructor (store: Store)
      ensures this.store == store
    {
      this.store := store;
    }

    /** One pipelined read; the result is filled field by field. */
    method BatchRead(card: string, user: string, now: int) returns (result: Batch)
      ensures result == ReadBatch(store, card, user, now)
    {
      result := Batch("", false, None);
      if card != "" {
        var value := Get(store, CardKey(card), now);
        if value.Some? {
          result := result.(mappedUser := value.value);
        }
      }
      result := result.(denied := Get(store, DeniedKey(user), now).Some?);
      var value := Get(store, PassbackKey(user), now);
      if value.Some? {
        if value.value == "IN" {
          result := result.(passback := Some(In));
        } else if value.value == "OUT" {
          result := result.(passback := Some(Out));
        }
      }
    }

    method SetPassback(user: string, dir: Direction, now: int, write: PassbackWrite) returns (ok: bool)
      modifies this
      ensures ok == write.Stored?
      ensures store == if write == WriteFailed(false) then old(store)
              else Set(old(store), PassbackKey(user), Text(dir), now, HOURS_24)
    {
      if write != WriteFailed(false) {
        store := Set(store, PassbackKey(user), Text(dir), now, HOURS_24);
      }
      ok := write.Stored?;
    }

    method SetCardMapping(card: string, user: string, now: int, stored: bool)
      modifies this
      ensures store == if stored then Set(old(store), CardKey(card), user, now, HOURS_24) else old(store)
    {
      if stored {
        store := Set(store, CardKey(card), user, now, HOURS_24);
      }
    }
  }

  class AccessDecisionService {
    const cache: RedisCache
    var db: Option<Database>

    constructor (cache: RedisCache)
      ensures this.cache == cache && db == None
    {
      this.cache, this.db := cache, None;
    }

    method SetDBFallback(db: Database)
      modifies this
      ensures this.db == Some(db)
    {
      this.db := Some(db);
    }

    method Evaluate(user: string, card: string, dir: Direction, now: int, faults: Faults) returns (outcome: Outcome)
      modifies cache
      ensures (outcome, cache.store) == Evaluated(old(cache.store), db, user, card, dir, now, faults)
    {
      if faults.readFails {
        return EvaluateFallback(user, card, dir, faults);
      }
      var batch := cache.BatchRead(card, user, now);
      if card != "" {
        if batch.mappedUser == "" && db.Some? && !faults.cardQueryFails {
          var owner := LookupCard(db.value, card);
          if owner != "" {
            batch := batch.(mappedUser := owner);
            cache.SetCardMapping(card, owner, now, faults.cardStored);
          }
        }
        if batch.mappedUser == "" || batch.mappedUser != user {
          return Decided(Deny(CardNotFound), false);
        }
      }
      if batch.denied {
        return Decided(Deny(PermissionDenied), false);
      }
      if Violates(batch.passback, dir) {
        return Decided(Deny(AntiPassback), false);
      }
      var ok := cache.SetPassback(user, dir, now, faults.passbackWrite);
      if !ok {
        return EvaluateFallback(user, card, dir, faults);
      }
      return Decided(Allow, false);
    }

    function EvaluateFallback(user: string, card: string, dir: Direction, faults: Faults): Outcome
      reads this
    {
      Fallback(db, user, card, dir, faults)
    }
  }
}
