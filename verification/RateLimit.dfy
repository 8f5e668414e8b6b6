/** The per-client token bucket of pkg/middleware/ratelimit.go.
    Times are integer nanoseconds; `int(elapsed.Seconds() * float64(rps))` is taken
    over exact rationals and truncates toward zero, as Go's conversion does. */
module RateLimit {
  import opened Options
  import Runs

  const NANOS: int := 1_000_000_000
  const IDLE_LIMIT: int := 5 * 60 * NANOS

  datatype Bucket = Bucket(tokens: int, lastRefill: int)

  /** What the limiter is asked to do: serve one request, or run one pass of the evictor. */
  datatype Event = Request(ip: string, now: int) | Sweep(now: int)

  type Clients = map<string, Bucket>

  function TokensToAdd(elapsed: int, rps: int): int {
    var product := elapsed * rps;
    if product >= 0 then product / NANOS else -((-product) / NANOS)
  }

  function Slot(clients: Clients, ip: string): Option<Bucket> {
    if ip in clients then Some(clients[ip]) else None
  }

  function Refilled(b: Bucket, rps: int, now: int): Bucket {
    var add := TokensToAdd(now - b.lastRefill, rps);
    if add > 0 then Bucket(if b.tokens + add > rps then rps else b.tokens + add, now) else b
  }

  /** The decision on one request and the bucket it leaves behind. */
  function Serve(slot: Option<Bucket>, rps: int, now: int): (bool, Bucket) {
    match slot
    case None => (true, Bucket(rps - 1, now))
    case Some(b) =>
      var r := Refilled(b, rps, now);
      if r.tokens > 0 then (true, r.(tokens := r.tokens - 1)) else (false, r)
  }

  predicate Stale(b: Bucket, now: int) {
    now - b.lastRefill > IDLE_LIMIT
  }

  function Swept(clients: Clients, now: int): Clients {
    map ip | ip in clients && !Stale(clients[ip], now) :: clients[ip]
  }

  function Step(clients: Clients, e: Event, rps: int): Clients {
    match e
    case Request(ip, now) => clients[ip := Serve(Slot(clients, ip), rps, now).1]
    case Sweep(now) => Swept(clients, now)
  }

  predicate Admits(clients: Clients, e: Event, rps: int) {
    e.Request? && Serve(Slot(clients, e.ip), rps, e.now).0
  }

  function Run(clients: Clients, trace: seq<Event>, rps: int): Clients {
    Runs.After((c, e) => Step(c, e, rps), clients, trace)
  }

  lemma RunHead(clients: Clients, trace: seq<Event>, rps: int)
    requires trace != []
    ensures Run(clients, trace, rps) == Run(Step(clients, trace[0], rps), trace[1..], rps)
  {
    Runs.AfterHead((c, e) => Step(c, e, rps), clients, trace);
  }

  /** One verdict for each request of the trace; sweeps give none. */
  function Verdicts(clients: Clients, trace: seq<Event>, rps: int): seq<bool>
    decreases trace
  {
    if trace == [] then []
    else (if trace[0].Request? then [Admits(clients, trace[0], rps)] else [])
         + Verdicts(Step(clients, trace[0], rps), trace[1..], rps)
  }

  /** How many requests of client `ip` the trace admits. */
  function Admitted(clients: Clients, trace: seq<Event>, rps: int, ip: string): nat
    decreases trace
  {
    if trace == [] then 0
    else (if Admits(clients, trace[0], rps) && trace[0].ip == ip then 1 else 0)
         + Admitted(Step(clients, trace[0], rps), trace[1..], rps, ip)
  }

  /** Time never runs backwards along the trace, which starts at `from` or later. */
  predicate Ordered(trace: seq<Event>, from: int) {
    trace == [] || (from <= trace[0].now && Ordered(trace[1..], trace[0].now))
  }

  // ---------------------------------------------------------------------------
  // The invariant between requests: at most capacity - 1 tokens are in a bucket.
  // ---------------------------------------------------------------------------

  ghost predicate Sound(clients: Clients, rps: int, now: int) {
    forall ip :: ip in clients ==> 0 <= clients[ip].tokens < rps && clients[ip].lastRefill <= now
  }

  lemma StepKeepsSound(clients: Clients, e: Event, rps: int, now: int)
    requires rps >= 1 && Sound(clients, rps, now) && now <= e.now
    ensures Sound(Step(clients, e, rps), rps, e.now)
  {
    if e.Request? && e.ip in clients {
      var b := clients[e.ip];
      assert 0 <= b.tokens < rps;
      if TokensToAdd(e.now - b.lastRefill, rps) <= 0 {
        assert Serve(Some(b), rps, e.now).1.lastRefill == b.lastRefill;
      }
    }
  }

  lemma {:induction false} RunKeepsSound(clients: Clients, trace: seq<Event>, rps: int, now: int)
    requires rps >= 1 && Sound(clients, rps, now) && Ordered(trace, now)
    ensures trace == [] ==> Sound(Run(clients, trace, rps), rps, now)
    ensures trace != [] ==> Sound(Run(clients, trace, rps), rps, trace[|trace| - 1].now)
    decreases trace
  {
    if trace != [] {
      RunHead(clients, trace, rps);
      StepKeepsSound(clients, trace[0], rps, now);
      RunKeepsSound(Step(clients, trace[0], rps), trace[1..], rps, trace[0].now);
    }
  }

  /** The part of it that needs no clock: requests are stamped before they get the lock, so
      their stamps may come in any order. */
  ghost predicate Filled(clients: Clients, rps: int) {
    forall ip :: ip in clients ==> 0 <= clients[ip].tokens < rps
  }

  lemma StepKeepsFilled(clients: Clients, e: Event, rps: int)
    requires rps >= 1 && Filled(clients, rps)
    ensures Filled(Step(clients, e, rps), rps)
  {
    if e.Request? && e.ip in clients {
      assert 0 <= clients[e.ip].tokens < rps;
    }
  }

  lemma {:induction false} RunKeepsFilled(clients: Clients, trace: seq<Event>, rps: int)
    requires rps >= 1 && Filled(clients, rps)
    ensures Filled(Run(clients, trace, rps), rps)
    decreases trace
  {
    if trace != [] {
      RunHead(clients, trace, rps);
      StepKeepsFilled(clients, trace[0], rps);
      RunKeepsFilled(Step(clients, trace[0], rps), trace[1..], rps);
    }
  }

  // ---------------------------------------------------------------------------
  // What a bucket can still admit in a window.
  // ---------------------------------------------------------------------------

  function Positive(n: int): int {
    if n > 0 then n else 0
  }

  /** The tokens a bucket is worth at t1, the refill it has not taken by then included and
      capped by the capacity; in billionths of a token. */
  ghost function Worth(b: Bucket, rps: int, t1: int): int {
    var raw := b.tokens * NANOS + Positive(t1 - b.lastRefill) * rps;
    if raw > rps * NANOS then rps * NANOS else raw
  }

  /** What a slot can still admit to requests stamped from t1 to t2: its worth and the refill
      until t2. An absent tracker counts as full. */
  ghost function Credit(slot: Option<Bucket>, rps: int, t1: int, t2: int): int {
    match slot
    case None => rps * NANOS + (t2 - t1) * rps
    case Some(b) => Worth(b, rps, t1) + Positive(t2 - (if b.lastRefill > t1 then b.lastRefill else t1)) * rps
  }

  lemma Product(a: int, b: int)
    requires a >= 0 && b >= 0
    ensures a * b >= 0
  {
  }

  lemma Ordering(a: int, b: int, rps: int)
    requires a <= b && rps >= 0
    ensures a * rps <= b * rps
  {
  }

  lemma SplitTime(rps: int, t1: int, mid: int, t2: int)
    ensures (t2 - t1) * rps == (mid - t1) * rps + (t2 - mid) * rps
  {
  }

  lemma TruncationBounds(elapsed: int, rps: int)
    requires elapsed >= 0 && rps >= 1
    ensures 0 <= TokensToAdd(elapsed, rps)
    ensures TokensToAdd(elapsed, rps) * NANOS <= elapsed * rps < TokensToAdd(elapsed, rps) * NANOS + NANOS
  {
    Product(elapsed, rps);
  }

  lemma NoRefillBackwards(elapsed: int, rps: int)
    requires elapsed <= 0 && rps >= 1
    ensures TokensToAdd(elapsed, rps) <= 0
  {
    Product(-elapsed, rps);
    assert (-elapsed) * rps == -(elapsed * rps);
  }

  /** A request that refills: the refilled bucket is worth no more than the old one. */
  lemma RefillPays(b: Bucket, rps: int, now: int, t1: int, t2: int)
    requires rps >= 1 && 0 <= b.tokens < rps && t1 <= now <= t2 && TokensToAdd(now - b.lastRefill, rps) > 0
    ensures var r := Refilled(b, rps, now);
            r.lastRefill == now && 0 < r.tokens <= rps
            && r.tokens * NANOS + (t2 - now) * rps <= Credit(Some(b), rps, t1, t2)
  {
    if now <= b.lastRefill {
      NoRefillBackwards(now - b.lastRefill, rps);
      assert false;
    }
    TruncationBounds(now - b.lastRefill, rps);
    SplitTime(rps, t1, now, t2);
    SplitTime(rps, b.lastRefill, now, t2);
    SplitTime(rps, b.lastRefill, t1, now);
    Ordering(t1, now, rps);
    if b.lastRefill > t1 {
      Worths(b, rps, t1);
    }
  }

  lemma Worths(b: Bucket, rps: int, t1: int)
    requires rps >= 1 && 0 <= b.tokens <= rps && b.lastRefill >= t1
    ensures Worth(b, rps, t1) == b.tokens * NANOS
  {
    assert b.tokens * NANOS <= rps * NANOS;
    assert Positive(t1 - b.lastRefill) == 0;
    assert 0 * rps == 0;
  }

  /** Without a refill the cap is not reached, so a token taken is a token less. */
  lemma NoRefillPays(b: Bucket, rps: int, now: int, t1: int)
    requires rps >= 1 && 0 < b.tokens < rps && t1 <= now && TokensToAdd(now - b.lastRefill, rps) <= 0
    ensures Worth(b.(tokens := b.tokens - 1), rps, t1) == Worth(b, rps, t1) - NANOS
  {
    if b.lastRefill < t1 {
      TruncationBounds(now - b.lastRefill, rps);
      Ordering(t1 - b.lastRefill, now - b.lastRefill, rps);
      Product(t1 - b.lastRefill, rps);
      assert b.tokens * NANOS + NANOS <= rps * NANOS;
    } else {
      Worths(b, rps, t1);
      Worths(b.(tokens := b.tokens - 1), rps, t1);
    }
  }

  lemma RestIsWorth(b: Bucket, rps: int, now: int, t1: int, t2: int)
    requires rps >= 1 && 0 <= b.tokens <= rps && t1 <= b.lastRefill <= t2
    ensures Credit(Some(b), rps, t1, t2) == b.tokens * NANOS + (t2 - b.lastRefill) * rps
  {
    Worths(b, rps, t1);
  }

  /** An admitted request costs a whole credit, a rejected one costs nothing and gains nothing,
      whatever the order of the stamps. */
  lemma ServePaysCredit(slot: Option<Bucket>, rps: int, now: int, t1: int, t2: int)
    requires rps >= 1 && t1 <= now <= t2
    requires slot.Some? ==> 0 <= slot.value.tokens < rps
    ensures var (ok, b) := Serve(slot, rps, now);
            Credit(Some(b), rps, t1, t2) <= Credit(slot, rps, t1, t2) - (if ok then NANOS else 0)
  {
    match slot
    case None =>
      RestIsWorth(Bucket(rps - 1, now), rps, now, t1, t2);
      SplitTime(rps, t1, now, t2);
      Product(now - t1, rps);
    case Some(b) =>
      if TokensToAdd(now - b.lastRefill, rps) > 0 {
        RefillPays(b, rps, now, t1, t2);
        var r := Refilled(b, rps, now);
        RestIsWorth(r.(tokens := r.tokens - 1), rps, now, t1, t2);
      } else if b.tokens > 0 {
        NoRefillPays(b, rps, now, t1);
      }
  }

  lemma CreditNonNegative(b: Bucket, rps: int, t1: int, t2: int)
    requires rps >= 1 && b.tokens >= 0
    ensures Credit(Some(b), rps, t1, t2) >= 0
  {
    Product(Positive(t1 - b.lastRefill), rps);
    Product(Positive(t2 - (if b.lastRefill > t1 then b.lastRefill else t1)), rps);
  }

  lemma CreditAtMost(slot: Option<Bucket>, rps: int, t1: int, t2: int)
    requires rps >= 1 && t1 <= t2
    ensures Credit(slot, rps, t1, t2) <= rps * NANOS + (t2 - t1) * rps
  {
    if slot.Some? {
      var b := slot.value;
      Ordering(Positive(t2 - (if b.lastRefill > t1 then b.lastRefill else t1)), t2 - t1, rps);
    }
  }

  /** Requests stamped in the window, evictor passes anywhere. */
  predicate InWindow(trace: seq<Event>, t1: int, t2: int) {
    forall e <- trace :: e.Request? ==> t1 <= e.now <= t2
  }

  predicate RequestsOnly(trace: seq<Event>) {
    forall e <- trace :: e.Request?
  }

  lemma {:induction false} AdmissionsSpendCredit(clients: Clients, trace: seq<Event>, rps: int, ip: string, t1: int,
                                                 t2: int)
    requires rps >= 1 && Filled(clients, rps) && t1 <= t2 && RequestsOnly(trace) && InWindow(trace, t1, t2)
    ensures Admitted(clients, trace, rps, ip) * NANOS <= Credit(Slot(clients, ip), rps, t1, t2)
    decreases trace
  {
    if trace == [] {
      if ip in clients {
        CreditNonNegative(clients[ip], rps, t1, t2);
      } else {
        Product(t2 - t1, rps);
      }
    } else {
      var e, rest := trace[0], trace[1..];
      assert e in trace && forall x <- rest :: x in trace;
      StepKeepsFilled(clients, e, rps);
      AdmissionsSpendCredit(Step(clients, e, rps), rest, rps, ip, t1, t2);
      if e.ip == ip {
        ServePaysCredit(Slot(clients, ip), rps, e.now, t1, t2);
      }
    }
  }

  /** The bound is tight: after a second of rest a client gets exactly rps of any burst. */
  function Burst(ip: string, now: int, size: nat): seq<Event> {
    seq(size, _ => Request(ip, now))
  }

  lemma {:induction false} BurstDrains(clients: Clients, rps: int, ip: string, now: int, size: nat)
    requires rps >= 1 && ip in clients && clients[ip].lastRefill == now && 0 <= clients[ip].tokens
    ensures var left := clients[ip].tokens;
            Admitted(clients, Burst(ip, now, size), rps, ip) == (if size <= left then size else left)
  {
    if size > 0 {
      var burst := Burst(ip, now, size);
      assert burst[1..] == Burst(ip, now, size - 1);
      assert (now - now) * rps == 0;
      BurstDrains(Step(clients, burst[0], rps), rps, ip, now, size - 1);
    }
  }

  lemma RestedServe(b: Bucket, rps: int, now: int)
    requires rps >= 1 && 0 <= b.tokens && b.lastRefill + NANOS <= now
    ensures Serve(Some(b), rps, now) == Serve(None, rps, now)
  {
    var elapsed := now - b.lastRefill;
    TruncationBounds(elapsed, rps);
    assert elapsed * rps >= NANOS * rps;
  }

  lemma BurstIsExact(clients: Clients, rps: int, ip: string, now: int, size: nat)
    requires rps >= 1
    requires ip in clients ==> 0 <= clients[ip].tokens && clients[ip].lastRefill + NANOS <= now
    ensures Admitted(clients, Burst(ip, now, size), rps, ip) == (if size <= rps then size else rps)
  {
    if size > 0 {
      var burst := Burst(ip, now, size);
      assert burst[1..] == Burst(ip, now, size - 1);
      if ip in clients {
        RestedServe(clients[ip], rps, now);
      }
      var next := Step(clients, burst[0], rps);
      assert next[ip] == Bucket(rps - 1, now);
      BurstDrains(next, rps, ip, now, size - 1);
    }
  }

  // ---------------------------------------------------------------------------
  // What a rest is worth, exactly.
  // ---------------------------------------------------------------------------

  function Least(a: int, b: int): int {
    if a < b then a else b
  }

  /** The whole tokens of a rest. */
  function WholeTokens(rest: int, rps: int): int
    requires rest >= 0 && rps >= 1
  {
    Product(rest, rps);
    rest * rps / NANOS
  }

  /** The first request after a rest takes a token of what was left and refilled. */
  lemma ServeAfterRest(b: Bucket, rps: int, rest: nat)
    requires rps >= 1 && 0 <= b.tokens <= rps
    ensures var (now, whole) := (b.lastRefill + rest, WholeTokens(rest, rps));
            Serve(Some(b), rps, now) ==
            if whole > 0 then (true, Bucket(Least(rps, b.tokens + whole) - 1, now))
            else if b.tokens > 0 then (true, b.(tokens := b.tokens - 1)) else (false, b)
  {
    Product(rest, rps);
    assert TokensToAdd(rest, rps) == WholeTokens(rest, rps);
  }

  /** After a rest of any length a burst of requests at one instant is admitted exactly as often as
      the tokens that were left and the whole tokens of the rest allow, up to the capacity. */
  lemma BurstAfterRest(clients: Clients, rps: int, ip: string, rest: nat, size: nat)
    requires rps >= 1 && ip in clients && 0 <= clients[ip].tokens <= rps
    ensures var now := clients[ip].lastRefill + rest;
            Admitted(clients, Burst(ip, now, size), rps, ip)
            == Least(size, Least(rps, clients[ip].tokens + WholeTokens(rest, rps)))
  {
    if WholeTokens(rest, rps) == 0 {
      NothingRefilled(clients, rps, ip, rest, size);
    } else if size > 0 {
      RefilledBurst(clients, rps, ip, rest, size);
    }
  }

  lemma RefilledBurst(clients: Clients, rps: int, ip: string, rest: nat, size: nat)
    requires rps >= 1 && ip in clients && 0 <= clients[ip].tokens <= rps && WholeTokens(rest, rps) > 0 && size > 0
    ensures Admitted(clients, Burst(ip, clients[ip].lastRefill + rest, size), rps, ip)
            == Least(size, Least(rps, clients[ip].tokens + WholeTokens(rest, rps)))
  {
    ServeAfterRest(clients[ip], rps, rest);
    var left := Least(rps, clients[ip].tokens + WholeTokens(rest, rps));
    BurstOn(clients, rps, ip, clients[ip].lastRefill + rest, left, size);
  }

  lemma BurstOn(clients: Clients, rps: int, ip: string, now: int, left: int, size: nat)
    requires rps >= 1 && left >= 1 && size > 0 && Serve(Slot(clients, ip), rps, now) == (true, Bucket(left - 1, now))
    ensures Admitted(clients, Burst(ip, now, size), rps, ip) == Least(size, left)
  {
    BurstHead(clients, rps, ip, now, size);
    BurstDrains(clients[ip := Bucket(left - 1, now)], rps, ip, now, size - 1);
  }

  lemma BurstHead(clients: Clients, rps: int, ip: string, now: int, size: nat)
    requires size > 0
    ensures Admitted(clients, Burst(ip, now, size), rps, ip) ==
            (if Admits(clients, Request(ip, now), rps) then 1 else 0)
            + Admitted(Step(clients, Request(ip, now), rps), Burst(ip, now, size - 1), rps, ip)
  {
    var burst := Burst(ip, now, size);
    assert burst[0] == Request(ip, now) && burst[1..] == Burst(ip, now, size - 1);
  }

  lemma {:induction false} NothingRefilled(clients: Clients, rps: int, ip: string, rest: nat, size: nat)
    requires rps >= 1 && ip in clients && 0 <= clients[ip].tokens <= rps && WholeTokens(rest, rps) == 0
    ensures Admitted(clients, Burst(ip, clients[ip].lastRefill + rest, size), rps, ip)
            == Least(size, clients[ip].tokens)
    decreases size
  {
    if size > 0 {
      var now := clients[ip].lastRefill + rest;
      BurstHead(clients, rps, ip, now, size);
      ServeAfterRest(clients[ip], rps, rest);
      NothingRefilled(Step(clients, Request(ip, now), rps), rps, ip, rest, size - 1);
    }
  }

  // ---------------------------------------------------------------------------
  // Eviction is invisible.
  // ---------------------------------------------------------------------------

  function WithoutSweeps(trace: seq<Event>): seq<Event> {
    if trace == [] then []
    else (if trace[0].Request? then [trace[0]] else []) + WithoutSweeps(trace[1..])
  }

  /** Dropping a tracker idle for more than five minutes changes neither the decision on
      the client's next request nor the bucket it leaves. */
  lemma EvictionInvisible(b: Bucket, rps: int, now: int)
    requires rps >= 1 && b.tokens >= 0 && Stale(b, now)
    ensures Serve(Some(b), rps, now) == Serve(None, rps, now)
  {
    RestedServe(b, rps, now);
  }

  /** How long before an evictor pass a request may be stamped that is served after it: it can
      have waited for the lock for four minutes and 59 seconds. */
  const LATENESS: int := IDLE_LIMIT - NANOS

  function FloorAfter(e: Event, floor: int): int {
    if e.Sweep? && e.now - LATENESS > floor then e.now - LATENESS else floor
  }

  /** No request waited longer; the stamps may come in any order otherwise. */
  predicate Punctual(trace: seq<Event>, floor: int) {
    trace == [] || ((trace[0].Request? ==> floor <= trace[0].now) && Punctual(trace[1..], FloorAfter(trace[0], floor)))
  }

  function Floor(trace: seq<Event>, floor: int): int {
    if trace == [] then floor else Floor(trace[1..], FloorAfter(trace[0], floor))
  }

  /** In particular when time never runs backwards. */
  lemma {:induction false} OrderedIsPunctual(trace: seq<Event>, from: int, floor: int)
    requires Ordered(trace, from) && floor <= from
    ensures Punctual(trace, floor)
    decreases trace
  {
    if trace != [] {
      OrderedIsPunctual(trace[1..], trace[0].now, FloorAfter(trace[0], floor));
    }
  }

  /** `swept` is `full` with some trackers missing that have rested for a second at any stamp
      that is still to come. */
  ghost predicate Thinned(swept: Clients, full: Clients, floor: int) {
    && (forall ip :: ip in swept ==> ip in full && swept[ip] == full[ip])
    && (forall ip :: ip in full && ip !in swept ==> full[ip].lastRefill + NANOS <= floor)
  }

  lemma ThinnedStep(swept: Clients, full: Clients, e: Event, rps: int, floor: int)
    requires rps >= 1 && Filled(full, rps) && Thinned(swept, full, floor) && (e.Request? ==> floor <= e.now)
    ensures Thinned(Step(swept, e, rps), if e.Request? then Step(full, e, rps) else full, FloorAfter(e, floor))
    ensures Admits(swept, e, rps) == Admits(full, e, rps)
  {
    if e.Request? && e.ip in full && e.ip !in swept {
      RestedServe(full[e.ip], rps, e.now);
    }
  }

  lemma {:induction false} ThinnedRuns(swept: Clients, full: Clients, trace: seq<Event>, rps: int, floor: int)
    requires rps >= 1 && Punctual(trace, floor) && Filled(full, rps) && Thinned(swept, full, floor)
    ensures Verdicts(swept, trace, rps) == Verdicts(full, WithoutSweeps(trace), rps)
    ensures Thinned(Run(swept, trace, rps), Run(full, WithoutSweeps(trace), rps), Floor(trace, floor))
    ensures forall ip :: Admitted(swept, trace, rps, ip) == Admitted(full, WithoutSweeps(trace), rps, ip)
    decreases trace
  {
    if trace != [] {
      var e, rest := trace[0], WithoutSweeps(trace[1..]);
      RunHead(swept, trace, rps);
      StepKeepsFilled(full, e, rps);
      ThinnedStep(swept, full, e, rps, floor);
      if e.Request? {
        assert WithoutSweeps(trace) == [e] + rest && ([e] + rest)[1..] == rest;
        RunHead(full, [e] + rest, rps);
        ThinnedRuns(Step(swept, e, rps), Step(full, e, rps), trace[1..], rps, FloorAfter(e, floor));
      } else {
        assert WithoutSweeps(trace) == rest;
        ThinnedRuns(Step(swept, e, rps), full, trace[1..], rps, FloorAfter(e, floor));
      }
    }
  }

  /** Every request of every run gets the same verdict with and without the evictor. */
  lemma SweepsNeverMatter(trace: seq<Event>, rps: int, floor: int)
    requires rps >= 1 && Punctual(trace, floor)
    ensures Verdicts(map[], trace, rps) == Verdicts(map[], WithoutSweeps(trace), rps)
  {
    ThinnedRuns(map[], map[], trace, rps, floor);
  }

  // ---------------------------------------------------------------------------
  // Window bound.
  // ---------------------------------------------------------------------------

  lemma {:induction false} PunctualSplits(trace: seq<Event>, floor: int, i: nat)
    requires Punctual(trace, floor) && i <= |trace|
    ensures Punctual(trace[..i], floor) && Punctual(trace[i..], Floor(trace[..i], floor))
  {
    if i == 0 {
      assert trace[..0] == [] && trace[0..] == trace;
    } else {
      var a, rest := trace[..i], trace[1..];
      assert a[0] == trace[0] && a[1..] == rest[..i - 1] && trace[i..] == rest[i - 1..];
      PunctualSplits(rest, FloorAfter(trace[0], floor), i - 1);
      assert Floor(a, floor) == Floor(a[1..], FloorAfter(a[0], floor));
    }
  }

  lemma {:induction false} KeptRequests(trace: seq<Event>, t1: int, t2: int)
    requires InWindow(trace, t1, t2)
    ensures RequestsOnly(WithoutSweeps(trace)) && InWindow(WithoutSweeps(trace), t1, t2)
    decreases trace
  {
    if trace != [] {
      assert trace[0] in trace && forall x <- trace[1..] :: x in trace;
      KeptRequests(trace[1..], t1, t2);
    }
  }

  /** Main bound: over any stretch of any run, evictions included, whose requests are stamped
      from t1 to t2 in any order, one client is admitted at most rps + rps * (t2 - t1) times. */
  lemma WindowBound(trace: seq<Event>, rps: int, ip: string, floor: int, i: nat, j: nat, t1: int, t2: int)
    requires rps >= 1 && Punctual(trace, floor) && i <= j <= |trace|
    requires t1 <= t2 && InWindow(trace[i..j], t1, t2)
    ensures Admitted(Run(map[], trace[..i], rps), trace[i..j], rps, ip) * NANOS <= rps * NANOS + rps * (t2 - t1)
  {
    var full := Run(map[], WithoutSweeps(trace[..i]), rps);
    StretchWithoutSweeps(trace, rps, floor, i, j);
    KeptRequests(trace[i..j], t1, t2);
    AdmissionsSpendCredit(full, WithoutSweeps(trace[i..j]), rps, ip, t1, t2);
    CreditAtMost(Slot(full, ip), rps, t1, t2);
  }

  lemma {:induction false} OrderedTimes(trace: seq<Event>, from: int, k: nat, l: nat)
    requires Ordered(trace, from) && k <= l < |trace|
    ensures from <= trace[k].now <= trace[l].now
    decreases trace
  {
    if l > 0 {
      OrderedTimes(trace[1..], trace[0].now, if k > 0 then k - 1 else 0, l - 1);
    }
  }

  /** In particular, when time never runs backwards, any stretch admits one client at most rps
      times and rps times more for each second from its first event to its last. */
  lemma WindowBoundInOrder(trace: seq<Event>, rps: int, ip: string, from: int, i: nat, j: nat)
    requires rps >= 1 && Ordered(trace, from) && i < j <= |trace|
    ensures Admitted(Run(map[], trace[..i], rps), trace[i..j], rps, ip) * NANOS
            <= rps * NANOS + rps * (trace[j - 1].now - trace[i].now)
  {
    OrderedIsPunctual(trace, from, from);
    OrderedTimes(trace, from, i, j - 1);
    forall k | i <= k < j ensures trace[i].now <= trace[k].now <= trace[j - 1].now {
      OrderedTimes(trace, from, i, k);
      OrderedTimes(trace, from, k, j - 1);
    }
    assert InWindow(trace[i..j], trace[i].now, trace[j - 1].now);
    WindowBound(trace, rps, ip, from, i, j, trace[i].now, trace[j - 1].now);
  }

  /** A stretch of a run admits as much with the evictor as without it. */
  lemma StretchWithoutSweeps(trace: seq<Event>, rps: int, floor: int, i: nat, j: nat)
    requires rps >= 1 && Punctual(trace, floor) && i <= j <= |trace|
    ensures var full := Run(map[], WithoutSweeps(trace[..i]), rps);
            Filled(full, rps) && forall ip :: Admitted(Run(map[], trace[..i], rps), trace[i..j], rps, ip)
                                              == Admitted(full, WithoutSweeps(trace[i..j]), rps, ip)
  {
    var full, middle := Run(map[], WithoutSweeps(trace[..i]), rps), Floor(trace[..i], floor);
    RunKeepsFilled(map[], WithoutSweeps(trace[..i]), rps);
    PunctualSplits(trace, floor, i);
    assert Punctual(trace[i..j], middle) by {
      PunctualSplits(trace[i..], middle, j - i);
      assert trace[i..][..j - i] == trace[i..j];
    }
    assert Thinned(Run(map[], trace[..i], rps), full, middle) by {
      ThinnedRuns(map[], map[], trace[..i], rps, floor);
    }
    ThinnedRuns(Run(map[], trace[..i], rps), full, trace[i..j], rps, middle);
  }

  // ---------------------------------------------------------------------------
  // A lower bound.
  // ---------------------------------------------------------------------------

  /** Enough admissions to explain a rejection after `length`: the capacity, or half the refill
      of that time, as each refill may drop a fraction but adds at least one token. */
  predicate Earned(admitted: int, tokens: int, rps: int, length: int) {
    admitted >= rps || 2 * (admitted - tokens) * NANOS + NANOS > length * rps
  }

  lemma RefillEarns(b: Bucket, rps: int, now: int, later: int, admitted: int)
    requires rps >= 1 && 0 <= b.tokens < rps && b.lastRefill <= now <= later
    requires TokensToAdd(now - b.lastRefill, rps) > 0
    requires var r := Refilled(b, rps, now);
             admitted >= 0 && r.lastRefill == now && Earned(admitted, r.tokens - 1, rps, later - now)
    ensures Earned(admitted + 1, b.tokens, rps, later - b.lastRefill)
  {
    var add := TokensToAdd(now - b.lastRefill, rps);
    TruncationBounds(now - b.lastRefill, rps);
    SplitTime(rps, b.lastRefill, now, later);
    Product(later - now, rps);
  }

  lemma NoRefillEarns(b: Bucket, rps: int, now: int, later: int, admitted: int)
    requires rps >= 1 && 0 < b.tokens < rps && b.lastRefill <= now <= later
    requires Earned(admitted, b.tokens - 1, rps, later - b.lastRefill)
    ensures Earned(admitted + 1, b.tokens, rps, later - b.lastRefill)
  {
  }

  lemma ServeEarns(b: Bucket, rps: int, now: int, later: int, admitted: int)
    requires rps >= 1 && 0 <= b.tokens < rps && b.lastRefill <= now <= later && admitted >= 0
    requires var next := Serve(Some(b), rps, now).1; Earned(admitted, next.tokens, rps, later - next.lastRefill)
    ensures Earned(admitted + if Serve(Some(b), rps, now).0 then 1 else 0, b.tokens, rps, later - b.lastRefill)
  {
    if TokensToAdd(now - b.lastRefill, rps) > 0 {
      RefillEarns(b, rps, now, later, admitted);
    } else if b.tokens > 0 {
      NoRefillEarns(b, rps, now, later, admitted);
    }
  }

  /** Requests in the order of time that end with a rejection of the client. */
  predicate EndsRejected(clients: Clients, trace: seq<Event>, rps: int, ip: string) {
    && trace != [] && RequestsOnly(trace) && trace[|trace| - 1].ip == ip
    && !Admits(Run(clients, trace[..|trace| - 1], rps), trace[|trace| - 1], rps)
  }

  lemma EndsRejectedTail(clients: Clients, trace: seq<Event>, rps: int, ip: string)
    requires EndsRejected(clients, trace, rps, ip) && |trace| > 1
    ensures EndsRejected(Step(clients, trace[0], rps), trace[1..], rps, ip)
  {
    var init := trace[..|trace| - 1];
    RunHead(clients, init, rps);
    assert init[0] == trace[0] && init[1..] == trace[1..][..|trace| - 2];
    assert forall x <- trace[1..] :: x in trace;
  }

  lemma {:induction false} RejectionOfBucket(clients: Clients, trace: seq<Event>, rps: int, ip: string, from: int)
    requires rps >= 1 && Sound(clients, rps, from) && Ordered(trace, from) && ip in clients
    requires EndsRejected(clients, trace, rps, ip)
    ensures Earned(Admitted(clients, trace, rps, ip), clients[ip].tokens, rps,
                   trace[|trace| - 1].now - clients[ip].lastRefill)
    decreases trace
  {
    var e, b, later := trace[0], clients[ip], trace[|trace| - 1].now;
    assert e in trace;
    OrderedTimes(trace, from, 0, |trace| - 1);
    if |trace| == 1 {
      assert trace[..0] == [];
      RejectedAtOnce(b, rps, e.now);
    } else {
      var next, rest := Step(clients, e, rps), trace[1..];
      EndsRejectedTail(clients, trace, rps, ip);
      StepKeepsSound(clients, e, rps, from);
      RejectionOfBucket(next, rest, rps, ip, e.now);
      if e.ip == ip {
        ServeEarns(b, rps, e.now, later, Admitted(next, rest, rps, ip));
      }
    }
  }

  lemma RejectedAtOnce(b: Bucket, rps: int, now: int)
    requires rps >= 1 && 0 <= b.tokens < rps && b.lastRefill <= now && !Serve(Some(b), rps, now).0
    ensures Earned(0, b.tokens, rps, now - b.lastRefill)
  {
    TruncationBounds(now - b.lastRefill, rps);
  }

  /** A new client is rejected only after the capacity. */
  lemma {:induction false} RejectionOfNew(clients: Clients, trace: seq<Event>, rps: int, ip: string, from: int)
    requires rps >= 1 && Sound(clients, rps, from) && Ordered(trace, from) && ip !in clients
    requires EndsRejected(clients, trace, rps, ip)
    ensures Admitted(clients, trace, rps, ip) >= rps
    decreases trace
  {
    var e := trace[0];
    assert e in trace;
    assert |trace| > 1;
    var next, rest := Step(clients, e, rps), trace[1..];
    EndsRejectedTail(clients, trace, rps, ip);
    StepKeepsSound(clients, e, rps, from);
    if e.ip == ip {
      RejectionOfBucket(next, rest, rps, ip, e.now);
      OrderedTimes(trace, from, 0, |trace| - 1);
      Product(trace[|trace| - 1].now - e.now, rps);
    } else {
      RejectionOfNew(next, rest, rps, ip, e.now);
    }
  }

  lemma RejectionOfClient(clients: Clients, trace: seq<Event>, rps: int, ip: string, from: int)
    requires rps >= 1 && Sound(clients, rps, from) && Ordered(trace, from) && EndsRejected(clients, trace, rps, ip)
    ensures Earned(Admitted(clients, trace, rps, ip), 0, rps, trace[|trace| - 1].now - from)
  {
    if ip in clients {
      RejectionOfBucket(clients, trace, rps, ip, from);
      Ordering(trace[|trace| - 1].now - from, trace[|trace| - 1].now - clients[ip].lastRefill, rps);
    } else {
      RejectionOfNew(clients, trace, rps, ip, from);
    }
  }

  lemma {:induction false} KeptConcat(a: seq<Event>, b: seq<Event>)
    ensures WithoutSweeps(a + b) == WithoutSweeps(a) + WithoutSweeps(b)
    decreases a
  {
    if a == [] {
      assert a + b == b;
    } else {
      assert (a + b)[0] == a[0] && (a + b)[1..] == a[1..] + b;
      KeptConcat(a[1..], b);
    }
  }

  lemma {:induction false} KeptOrdered(trace: seq<Event>, from: int)
    requires Ordered(trace, from)
    ensures Ordered(WithoutSweeps(trace), from) && RequestsOnly(WithoutSweeps(trace))
    ensures forall e <- WithoutSweeps(trace) :: e in trace
    decreases trace
  {
    if trace != [] {
      KeptOrdered(trace[1..], trace[0].now);
      if !trace[0].Request? {
        assert WithoutSweeps(trace) == WithoutSweeps(trace[1..]);
        OrderedLater(WithoutSweeps(trace[1..]), trace[0].now, from);
      }
    }
  }

  lemma OrderedLater(trace: seq<Event>, from: int, earlier: int)
    requires Ordered(trace, from) && earlier <= from
    ensures Ordered(trace, earlier)
  {
  }

  lemma {:induction false} OrderedPart(trace: seq<Event>, from: int, i: nat, j: nat)
    requires Ordered(trace, from) && i < j <= |trace|
    ensures Ordered(trace[i..j], trace[i].now) && Ordered(trace[..i], from)
    decreases trace
  {
    if i == 0 {
      OrderedPrefix(trace, from, j);
      assert trace[0..j] == trace[..j];
    } else {
      OrderedPart(trace[1..], trace[0].now, i - 1, j - 1);
      assert trace[1..][i - 1..j - 1] == trace[i..j] && trace[..i][1..] == trace[1..][..i - 1];
    }
  }

  lemma {:induction false} OrderedPrefix(trace: seq<Event>, from: int, j: nat)
    requires Ordered(trace, from) && j <= |trace|
    ensures Ordered(trace[..j], from) && (j > 0 ==> Ordered(trace[..j], trace[0].now))
    decreases trace
  {
    if j > 0 {
      OrderedPrefix(trace[1..], trace[0].now, j - 1);
      assert trace[..j][1..] == trace[1..][..j - 1];
    }
  }

  lemma {:induction false} SoundUntil(clients: Clients, trace: seq<Event>, rps: int, from: int, until: int)
    requires rps >= 1 && Sound(clients, rps, from) && Ordered(trace, from) && from <= until
    requires forall e <- trace :: e.now <= until
    ensures Sound(Run(clients, trace, rps), rps, until)
    decreases trace
  {
    if trace != [] {
      assert trace[0] in trace && forall e <- trace[1..] :: e in trace;
      RunHead(clients, trace, rps);
      StepKeepsSound(clients, trace[0], rps, from);
      SoundUntil(Step(clients, trace[0], rps), trace[1..], rps, trace[0].now, until);
    }
  }

  lemma RunConcat(clients: Clients, a: seq<Event>, b: seq<Event>, rps: int)
    ensures Run(clients, a + b, rps) == Run(Run(clients, a, rps), b, rps)
  {
    Runs.AfterConcat((c, e) => Step(c, e, rps), clients, a, b);
  }

  lemma {:induction false} AdmittedSnoc(clients: Clients, trace: seq<Event>, e: Event, rps: int, ip: string)
    requires !Admits(Run(clients, trace, rps), e, rps)
    ensures Admitted(clients, trace + [e], rps, ip) == Admitted(clients, trace, rps, ip)
    decreases trace
  {
    if trace != [] {
      RunHead(clients, trace, rps);
      assert (trace + [e])[0] == trace[0] && (trace + [e])[1..] == trace[1..] + [e];
      AdmittedSnoc(Step(clients, trace[0], rps), trace[1..], e, rps, ip);
    } else {
      assert [] + [e] == [e] && [e][1..] == [];
    }
  }

  /** With and without the evictor a request gets the same answer. */
  lemma SameAnswer(trace: seq<Event>, rps: int, from: int, j: nat)
    requires rps >= 1 && Punctual(trace, from) && j < |trace| && trace[j].Request?
    ensures Admits(Run(map[], trace[..j], rps), trace[j], rps)
            == Admits(Run(map[], WithoutSweeps(trace[..j]), rps), trace[j], rps)
  {
    var floor := Floor(trace[..j], from);
    PunctualSplits(trace, from, j);
    ThinnedRuns(map[], map[], trace[..j], rps, from);
    RunKeepsFilled(map[], WithoutSweeps(trace[..j]), rps);
    ThinnedStep(Run(map[], trace[..j], rps), Run(map[], WithoutSweeps(trace[..j]), rps), trace[j], rps, floor);
  }

  /** The bound from below, evictions included: a client that is rejected has, since any earlier
      moment of a run in the order of time, been admitted rps times, or more often than half the
      refill of the time since, less half a token. */
  lemma RejectionIsEarned(trace: seq<Event>, rps: int, ip: string, from: int, i: nat, j: nat)
    requires rps >= 1 && Ordered(trace, from) && i <= j < |trace| && trace[j].Request? && trace[j].ip == ip
    requires !Admits(Run(map[], trace[..j], rps), trace[j], rps)
    ensures var admitted := Admitted(Run(map[], trace[..i], rps), trace[i..j], rps, ip);
            admitted >= rps || 2 * admitted * NANOS + NANOS > (trace[j].now - trace[i].now) * rps
  {
    var full, kept, last := Run(map[], WithoutSweeps(trace[..i]), rps), WithoutSweeps(trace[i..j]), trace[j];
    OrderedIsPunctual(trace, from, from);
    StretchWithoutSweeps(trace, rps, from, i, j);
    KeptAnswer(trace, rps, from, i, j);
    SoundBefore(trace, rps, from, i);
    KeptStretch(trace, from, i, j);
    assert (kept + [last])[..|kept|] == kept;
    RejectionOfClient(full, kept + [last], rps, ip, trace[i].now);
    AdmittedSnoc(full, kept, last, rps, ip);
  }

  lemma KeptAnswer(trace: seq<Event>, rps: int, from: int, i: nat, j: nat)
    requires rps >= 1 && Punctual(trace, from) && i <= j < |trace| && trace[j].Request?
    ensures var full := Run(map[], WithoutSweeps(trace[..i]), rps);
            Admits(Run(full, WithoutSweeps(trace[i..j]), rps), trace[j], rps)
            == Admits(Run(map[], trace[..j], rps), trace[j], rps)
  {
    SameAnswer(trace, rps, from, j);
    assert trace[..i] + trace[i..j] == trace[..j];
    KeptConcat(trace[..i], trace[i..j]);
    RunConcat(map[], WithoutSweeps(trace[..i]), WithoutSweeps(trace[i..j]), rps);
  }

  lemma KeptStretch(trace: seq<Event>, from: int, i: nat, j: nat)
    requires Ordered(trace, from) && i <= j < |trace| && trace[j].Request?
    ensures var stretch := WithoutSweeps(trace[i..j]) + [trace[j]];
            Ordered(stretch, trace[i].now) && RequestsOnly(stretch)
  {
    OrderedPart(trace, from, i, j + 1);
    KeptOrdered(trace[i..j + 1], trace[i].now);
    KeptLast(trace, i, j);
  }

  lemma KeptLast(trace: seq<Event>, i: nat, j: nat)
    requires i <= j < |trace| && trace[j].Request?
    ensures WithoutSweeps(trace[i..j + 1]) == WithoutSweeps(trace[i..j]) + [trace[j]]
  {
    var last := [trace[j]];
    assert trace[i..j + 1] == trace[i..j] + last;
    KeptConcat(trace[i..j], last);
    assert last[1..] == [] && WithoutSweeps([]) == [] && last + [] == last;
  }

  lemma SoundBefore(trace: seq<Event>, rps: int, from: int, i: nat)
    requires rps >= 1 && Ordered(trace, from) && i < |trace|
    ensures Sound(Run(map[], WithoutSweeps(trace[..i]), rps), rps, trace[i].now)
  {
    OrderedPart(trace, from, i, |trace|);
    KeptOrdered(trace[..i], from);
    OrderedTimes(trace, from, 0, i);
    forall e | e in WithoutSweeps(trace[..i]) ensures e.now <= trace[i].now {
      var k :| 0 <= k < i && trace[..i][k] == e;
      OrderedTimes(trace, from, k, i);
    }
    SoundUntil(map[], WithoutSweeps(trace[..i]), rps, from, trace[i].now);
  }

  // ---------------------------------------------------------------------------
  // Rejected requests leave no mark.
  // ---------------------------------------------------------------------------

  function WithoutRejected(clients: Clients, trace: seq<Event>, rps: int): seq<Event>
    decreases trace
  {
    if trace == [] then []
    else (if trace[0].Request? && !Admits(clients, trace[0], rps) then [] else [trace[0]])
         + WithoutRejected(Step(clients, trace[0], rps), trace[1..], rps)
  }

  predicate AllTrue(verdicts: seq<bool>) {
    forall v <- verdicts :: v
  }

  lemma RejectionIsNoOp(clients: Clients, e: Event, rps: int)
    requires rps >= 1 && Filled(clients, rps) && e.Request? && !Admits(clients, e, rps)
    ensures Step(clients, e, rps) == clients
  {
    var b := clients[e.ip];
    assert 0 <= b.tokens < rps;
    assert Serve(Some(b), rps, e.now).1 == b;
  }

  /** Deleting the rejected requests of a run leaves every other request admitted and
      the trackers exactly as they were. */
  lemma {:induction false} RejectedRequestsLeaveNoMark(clients: Clients, trace: seq<Event>, rps: int)
    requires rps >= 1 && Filled(clients, rps)
    ensures var kept := WithoutRejected(clients, trace, rps);
            && Run(clients, kept, rps) == Run(clients, trace, rps)
            && AllTrue(Verdicts(clients, kept, rps))
            && forall ip :: Admitted(clients, kept, rps, ip) == Admitted(clients, trace, rps, ip)
    decreases trace
  {
    if trace != [] {
      var e := trace[0];
      var next := Step(clients, e, rps);
      RunHead(clients, trace, rps);
      StepKeepsFilled(clients, e, rps);
      RejectedRequestsLeaveNoMark(next, trace[1..], rps);
      var rest := WithoutRejected(next, trace[1..], rps);
      if e.Request? && !Admits(clients, e, rps) {
        RejectionIsNoOp(clients, e, rps);
        assert WithoutRejected(clients, trace, rps) == rest;
      } else {
        assert WithoutRejected(clients, trace, rps) == [e] + rest;
        assert ([e] + rest)[1..] == rest;
        RunHead(clients, [e] + rest, rps);
      }
    }
  }

  // ---------------------------------------------------------------------------
  // The middleware itself: one tracker object for each client address.
  // ---------------------------------------------------------------------------

  class ClientTracker {
    var tokens: int
    var lastRefill: int

    constructor (tokens: int, lastRefill: int)
      ensures this.tokens == tokens && this.lastRefill == lastRefill
    {
      this.tokens := tokens;
      this.lastRefill := lastRefill;
    }
  }

  class Limiter {
    const rps: int
    var clients: map<string, ClientTracker>

    /** No two addresses share a tracker. */
    ghost predicate Valid()
      reads this
    {
      forall a, b :: a in clients && b in clients && a != b ==> clients[a] != clients[b]
    }

    ghost function View(): Clients
      reads this, clients.Values
    {
      map ip | ip in clients :: Bucket(clients[ip].tokens, clients[ip].lastRefill)
    }

    constructor (rps: int)
      ensures Valid() && this.rps == rps && View() == map[]
    {
      this.rps := rps;
      this.clients := map[];
    }

    /** The refill and the decision on a tracker that exists. */
    method Take(tracker: ClientTracker, now: int) returns (ok: bool)
      modifies tracker
      ensures (ok, Bucket(tracker.tokens, tracker.lastRefill))
              == Serve(Some(Bucket(old(tracker.tokens), old(tracker.lastRefill))), rps, now)
    {
      var add := TokensToAdd(now - tracker.lastRefill, rps);
      if add > 0 {
        tracker.tokens := tracker.tokens + add;
        if tracker.tokens > rps {
          tracker.tokens := rps;
        }
        tracker.lastRefill := now;
      }
      ok := tracker.tokens > 0;
      if ok {
        tracker.tokens := tracker.tokens - 1;
      }
    }

    method Allow(ip: string, now: int) returns (ok: bool)
      requires Valid()
      modifies this, clients.Values
      ensures Valid() && fresh(clients.Values - old(clients.Values))
      ensures ok == Admits(old(View()), Request(ip, now), rps)
      ensures View() == Step(old(View()), Request(ip, now), rps)
    {
      if ip !in clients {
        var tracker := new ClientTracker(rps - 1, now);
        clients := clients[ip := tracker];
        assert forall other :: other in clients ==> other == ip || clients[other] == old(clients)[other];
        return true;
      }
      ok := Take(clients[ip], now);
    }

    method EvictIdle(now: int)
      requires Valid()
      modifies this
      ensures Valid() && clients.Values <= old(clients.Values)
      ensures View() == Step(old(View()), Sweep(now), rps)
      ensures forall ip :: ip in clients <==> ip in old(clients) && now - old(clients[ip].lastRefill) <= 300_000_000_000
    {
      var todo := clients.Keys;
      while todo != {}
        invariant todo <= clients.Keys <= old(clients.Keys)
        invariant forall ip :: ip in clients ==> clients[ip] == old(clients[ip])
        invariant forall ip :: ip in old(clients) && ip !in todo ==>
                    (ip in clients <==> !Stale(old(View())[ip], now))
        invariant forall ip :: ip in todo ==> ip in clients
        decreases todo
      {
        var ip :| ip in todo;
        if now - clients[ip].lastRefill > IDLE_LIMIT {
          clients := map other | other in clients && other != ip :: clients[other];
        }
        todo := todo - {ip};
      }
    }
  }
}
