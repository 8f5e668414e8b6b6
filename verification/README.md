# Access-control verification models

These Dafny modules model the decision-making parts of a door access system and prove what they keep:

- the **door decision** (`Redis`, `Access`, `Transparency`): a fast path over expiring Redis keys, a slow path over the
  database, and anti-passback over whole runs of swipes;
- the **event and permission pipeline** (`PartitionReader`, `Outbox`, `Spool`, `Producer`, `Aggregation`,
  `CacheInvalidation`): a producer with a bounded retry buffer and an on-disk outbox, and two consumers that commit
  offsets, as interleaved step systems with lost commits, crashes and restarts;
- the **reports** (`Calendar`, `Tally`, `Buckets`, `Periods`, `Trends`, `Series`, `Department`, `Personal`): calendar
  bucketing of daily totals, merging of daily metrics, the attendance series and its summary, the department report, and
  the personal attendance report;
- **scoping and auditing** (`OrgTree`, `Paging`, `AuditQuery`): materialized paths against the org tree, the static table
  of SQL texts with positional arguments, and paging;
- the **rate limiter** (`RateLimit`): a token bucket per client with an evictor.

`Options`, `Events`, `Counting` (additive measures of lists of events) and `Runs` (runs of a step function) are shared by
several modules. `Outbox` is the file byte by byte; `Spool` shows that it is a shelf of events with a possibly torn last
line, and `Producer` works on the shelf. Code that updates state is modelled by classes and methods with
loops (`Limiter`, `Worker`, `FileOutbox`, `KafkaProducer`, `RedisCache`, `AccessDecisionService`, the `GroupBy...` and
merge methods). Each is proved equal to a function of its inputs or old state, and the lemmas are about that function.
`Calendar` is built from the leap rule and the month lengths of RFC 3339 (section 5.7 and Appendix C) and from "the day
after"; dates are its full-date (section 5.6).

Verify with `dafny verify dfyconfig.toml`.

## What the proofs found

Some properties one would expect do not hold of the code. Each is stated with a run or input on which it fails and with
the exact condition under which it does hold.

- A consumer that skips a message after a failed write goes on to commit later offsets, which covers the skipped one: the
  ban, or the swipe, is never applied (`SkippedBanStaysLost`, `SkippedSwipeStaysLost`). A swipe can never be stored again
  if and only if it is not stored and no well-formed message that carries it lies at the committed offset or beyond
  (`LostExactly`). At the end of the log the denied set is right if and only if no user's latest write was lost with the flag
  wrong and the message never read again (`DeniedSetIsExact`, `FailedWriteDiverges`).
- The users that Redis reports as denied are then those the log leaves banned if and only if the last BAN write of each was
  less than 24 hours ago (`LiveDeniedIsExact`); nothing renews the key of a standing ban, so one that was applied at once
  is not reported a day later (`StandingBanExpires`).
- Redis and the fallback give the same decision and reason if and only if no key the decision depends on has expired
  (`FailureTransparency`); a day after an IN, Redis allows a second IN and the database refuses it (`ExpiryIsVisible`).
- A SetPassback in the other direction that reports an error but takes effect lets a user enter twice in a row
  (`PhantomWriteBreaksTheRule`); without one between two entries, they are a day apart (`SameDirectionTwiceTakesADay`).
- Rewriting the outbox truncates it first, so a disk that fails in the middle of a rewrite loses events that were not
  published (`FailedRewriteLoses`, exactly in `RewriteKeepsExactly`). A torn append merges with the next event, which
  survives if and only if the merged line decodes to it (`TornAppendGlues`).
- Replay publishes before it rewrites: published events stay in the outbox, to be published again, if and only if a replay
  that had published something was cut short, by a crash or by a file that could not be replaced (`OnceUnlessCutShort`,
  `NoRepeats`, `ReplayKeepsRemainder`; runs that do so are `CrashRepeats` and `InterruptedRepeats`).
- For each page size, pages 1 to ceil(n / size) show every audit event once in every run if and only if no page boundary
  has two different events of the same time on either side of it (`PagingIsExact`, `AuditPagingIsExact`; `TiesLoseRows` is a
  run that does not), because the order of ties may change from one request to the next.
- The department page's sub-units and own rows add up to its totals if and only if the children whose query failed have no
  traffic (`SubUnitsConserve`; `FailedChildIsMissing` is a page that does not).
- At the end of the log all decodable events are stored if and only if for each an insert landed, whatever it reported
  (`EndOfLogIsExact`); without failures that is always so (`AtLeastOnceIsComplete`).
- Accepted events can go missing on the producer's side. Net of what is acknowledged, in memory or in the outbox, a step
  loses an event exactly if the buffer is full and there is no outbox, if the outbox refuses the append, or if the process
  dies with it; a torn line or a broken rewrite loses what it no longer decodes to (`MissingOfStep`, `MissingOfRun`). On a
  disk that tears no line an event is missing if and only if one of the first three happened to it (`MissingExactly`;
  `OverflowLoses` is a run), and on a healthy disk without crashes none is (`NothingLostOnHealthyDisk`). An append that
  reports an error need not lose its event: one that stops right before the newline leaves it readable
  (`AppendKeepsExactly`, `UnendedLineIsHeld`).

One family of failures cannot reach the code as it is called. The yearly bounds are printed without leading zeros, so those
of years before 1000 do not parse, and the merge of such a year looks at 0001-01-01 (`PrintedBounds`,
`PointsReportTheirDays`, `EarlyYearIsSilent`). The functions by themselves therefore count each day once, and have the
summary as the mean of the points, exactly under conditions on those years (`EveryDayCountsOnce`,
`SummaryIsMeanOfSeries`). But the dates that the queries return are ClickHouse `Date` values, which begin in 1970, and for
these all three properties hold without a condition (`StoredDaysCountOnce`, `StoredSummaryIsMean`,
`StoredPointLiesBetweenItsDays`, `DepartmentReport`).

## Model

| member | source | states |
|---|---|---|
| RateLimit.StepKeepsSound | pkg/middleware/ratelimit.go:41-73 | between requests a bucket holds from 0 to capacity - 1 tokens and its refill time is not in the future, for requests and evictor passes |
| RateLimit.RunKeepsSound | pkg/middleware/ratelimit.go:23-73 | the same for whole runs in the order of time |
| RateLimit.ServePaysCredit | pkg/middleware/ratelimit.go:42-73 | with the fraction that truncation carries over counted, an admitted request costs a whole token of what the window can still admit and a rejected one gains nothing, for stamps in any order |
| RateLimit.WindowBound | pkg/middleware/ratelimit.go:23-73 | over any stretch of any run, evictions included, whose requests are stamped in a window [t1, t2], in any order, one client has at most rps + rps * (t2 - t1) requests admitted |
| RateLimit.WindowBoundInOrder | pkg/middleware/ratelimit.go:23-73 | when time never runs backwards along a run, any stretch of it admits one client at most rps times, and rps times more for each second from the first event of the stretch to the last |
| RateLimit.BurstIsExact | pkg/middleware/ratelimit.go:42-69 | a client that rested for a second, or is new, gets exactly the smaller of burst size and rps admitted |
| RateLimit.BurstAfterRest | pkg/middleware/ratelimit.go:42-73 | after a rest of any length, a burst of requests at one instant is admitted exactly as often as the tokens left and the whole tokens of the rest allow, up to the capacity |
| RateLimit.RejectionIsEarned | pkg/middleware/ratelimit.go:42-73 | the bound from below, evictions included: a client that is rejected has, since any earlier moment of a run in the order of time, been admitted rps times, or more often than half the refill of the time since, less half a token |
| RateLimit.EvictionInvisible | pkg/middleware/ratelimit.go:28-31 | a tracker idle for more than five minutes and no tracker at all give the same decision and the same bucket afterwards |
| RateLimit.SweepsNeverMatter | pkg/middleware/ratelimit.go:23-35 | deleting every evictor pass from a run leaves every verdict unchanged, also for requests stamped before the pass that precedes them |
| RateLimit.RejectedRequestsLeaveNoMark | pkg/middleware/ratelimit.go:54-73 | deleting every rejected request from a run leaves the trackers and every client's admissions unchanged, for stamps in any order |
| RateLimit.Limiter.Allow | pkg/middleware/ratelimit.go:37-74 | the middleware's request step on shared tracker objects changes the map as the bucket specification says and touches no other client |
| RateLimit.Limiter.EvictIdle | pkg/middleware/ratelimit.go:27-32 | the evictor's loop deletes exactly the stale trackers |
| CacheInvalidation.LastActionWins | cache-invalidation-worker/internal/consumer/worker.go:64-73 | replaying messages gives a mentioned user a flag independent of the start and leaves an unmentioned user's flag alone |
| CacheInvalidation.StepKeepsInv | cache-invalidation-worker/internal/consumer/worker.go:46-86 | every step keeps: handling the messages between the read position and the high-water mark again gives exactly the users that are not behind the flag the log demands, although flags may be stale in between |
| CacheInvalidation.ConvergencePerUser | cache-invalidation-worker/internal/consumer/worker.go:44-87 | in every run, at the end of the log a user has the flag of the user's last action if and only if the user is not behind: no latest write was lost with the flag wrong and the message never read again |
| CacheInvalidation.DeniedSetIsExact | cache-invalidation-worker/internal/consumer/worker.go:44-87 | in every run, at the end of the log the denied set is the last-action fold of the log if and only if nobody is behind |
| CacheInvalidation.ReplayConvergence | cache-invalidation-worker/internal/consumer/worker.go:44-87 | without failed writes, whenever the reader reaches the end of the log the denied set is the last-action fold of the whole log, after any crashes, lost commits and repeated messages |
| CacheInvalidation.FailedWriteDiverges | cache-invalidation-worker/internal/consumer/worker.go:76-79 | in every run, after a failed write of the last message the denied set is right if and only if the message would have changed nothing and nobody else is behind |
| CacheInvalidation.SkippedBanStaysLost | cache-invalidation-worker/internal/consumer/worker.go:76-85 | a run in which a later commit covers a failed ban: the log is read and committed to its end and the user is not denied |
| CacheInvalidation.KeysAreBans | cache-invalidation-worker/internal/cache/redis.go:38-44 | after any run Redis holds a user's key exactly if a BAN write landed with no UNBAN write since, and for 24 hours from the time of that write |
| CacheInvalidation.LiveDeniedIsExact | cache-invalidation-worker/internal/cache/redis.go:38-44 | with the TTL counted and nobody behind, the reported users are those the log leaves banned if and only if the last BAN write of each was less than 24 hours ago |
| CacheInvalidation.StandingBanExpires | cache-invalidation-worker/internal/cache/redis.go:38-44 | a failing input: one ban, written at once with nobody behind; 24 hours later the log still bans the user and Redis reports nobody |
| CacheInvalidation.AppliesExactly | cache-invalidation-worker/internal/consumer/worker.go:56-86 | what one message does: the key of a BAN is written for 24 hours, that of an UNBAN removed, exactly if the write landed, and anything else writes nothing; it is committed if it is undecodable, an unknown action, or its write reports success |
| CacheInvalidation.Worker.WriteCache | cache-invalidation-worker/internal/consumer/worker.go:64-74 | BAN sets the key, UNBAN deletes it, other actions succeed without a write, and a failed write may have landed |
| CacheInvalidation.Worker.Run | cache-invalidation-worker/internal/consumer/worker.go:44-87 | the endless loop does what the fetch, apply and commit steps of the protocol say, for any sequence of outcomes |
| Aggregation.StepKeepsInv | aggregation-worker/internal/consumer/worker.go:44-97 | every step keeps: each decodable message dealt with is stored or had an Insert error, and the stored ids are exactly those of messages whose insert landed |
| Aggregation.CommittedMeansAccounted | aggregation-worker/internal/consumer/worker.go:63-97 | under any insert failures, lost commits and restarts, every decodable message below the committed offset is stored or had its Insert return an error |
| Aggregation.EndOfLogIsExact | aggregation-worker/internal/consumer/worker.go:44-97 | in every run, at the end of the log the stored ids are exactly those with an insert that landed, all decodable ids are stored if and only if each has one, and a missing one was refused with every message that carries it |
| Aggregation.AtLeastOnceIsComplete | aggregation-worker/internal/consumer/worker.go:44-97 | without insert failures the stored ids at the end of the log are exactly the decodable ids, despite reprocessing |
| Aggregation.ExactlyOnceWithoutRestart | aggregation-worker/internal/consumer/worker.go:44-97 | without failures and restarts the table holds each decodable message read so far once, in log order |
| Aggregation.LostForGood | aggregation-worker/internal/consumer/worker.go:84-88 | an unstored event with no well-formed message at the committed offset or beyond is never stored in any continuation that does not produce it anew |
| Aggregation.StillReachable | aggregation-worker/internal/consumer/worker.go:44-97 | one with such a message is stored by some continuation that produces nothing: a restart and reading on |
| Aggregation.LostExactly | aggregation-worker/internal/consumer/worker.go:44-97 | from every reachable state an event can never be stored again if and only if it is not stored and no well-formed message that carries it lies at the committed offset or beyond |
| Aggregation.SkippedSwipeStaysLost | aggregation-worker/internal/consumer/worker.go:84-92 | one failed insert followed by one committed success loses the first event in every continuation |
| Aggregation.TableIsExact | aggregation-worker/internal/consumer/worker.go:63-92 | the table in every run: exactly one row for each insert that landed, in that order, with the id and the employee of the message handled then, under the unit its lookup found, the company root if there was none, or the zero id if the lookup failed |
| Aggregation.CommitsExactly | aggregation-worker/internal/consumer/worker.go:63-97 | an undecodable message is always committed, a swipe if its ids parse and the insert reports success |
| Aggregation.Worker.ProcessMessage | aggregation-worker/internal/consumer/worker.go:63-97 | decode, org lookup with its two fallbacks, insert and commit do what the protocol's process and commit steps say |
| Aggregation.Worker.Run | aggregation-worker/internal/consumer/worker.go:44-61 | the endless loop is a run of the protocol, for any sequence of outcomes |
| Outbox.ScanConcat | access-api/internal/queue/outbox.go:64-77 | scanning is compositional at line boundaries, including the failure on a line the scanner cannot hold |
| Outbox.ScanDropsReturn | access-api/internal/queue/outbox.go:64-77 | a carriage return before the newline is not part of the line |
| Outbox.RoundTrip | access-api/internal/queue/outbox.go:32-77 | scanning the bytes left by any sequence of successful appends yields exactly those events in order |
| Outbox.AppendAdds | access-api/internal/queue/outbox.go:32-46 | an append that reports success adds exactly its event at the end; one that fails without writing changes nothing |
| Outbox.TornAppendGlues | access-api/internal/queue/outbox.go:41-45 | after a torn append the next event is found again if and only if the merged line decodes to it, and the outbox is unreadable if and only if that line outgrows the scanner |
| Outbox.ReplaySplits | access-api/internal/queue/outbox.go:79-91 | published and remaining events together are the pending ones, in number and as multisets, and every remaining one was pending |
| Outbox.ReplayPicks | access-api/internal/queue/outbox.go:79-91 | published are the events whose publish reports success, kept those whose publish does not, and in Kafka those of the former and those that arrived all the same, each in the order of the file |
| Outbox.RewriteKeeps | access-api/internal/queue/outbox.go:94-116 | a rewrite on a healthy disk leaves exactly the events it was given |
| Outbox.FailedRewriteLoses | access-api/internal/queue/outbox.go:94-116 | a rewrite that fails at line k after any number of bytes keeps the first k events and what the fragment decodes to; a file that cannot be replaced stays as it was |
| Outbox.RewriteKeepsExactly | access-api/internal/queue/outbox.go:94-116 | on every disk: a rewrite leaves the events it was given if and only if nothing broke, or only the last line did and its fragment still decodes to its event, or the untouched file held just these |
| Outbox.ReplayKeepsRemainder | access-api/internal/queue/outbox.go:79-116 | on every disk: exactly when a replay leaves the events it could not publish; on a file that cannot be replaced only if it published nothing |
| Spool.AppendRefines | access-api/internal/queue/outbox.go:32-46 | on every disk an append to the file is an append to the shelf of events it holds: a new event, a torn line, or a line that continues a torn one |
| Spool.RewriteRefines | access-api/internal/queue/outbox.go:94-116 | on every disk a rewrite of the file is a rewrite of the shelf |
| Spool.AppendKeepsExactly | access-api/internal/queue/outbox.go:32-46 | an append to a file without a torn end leaves its event to be found, behind the others, if and only if the line was written or what was written of its body decodes to the event, whatever the append reports |
| Spool.UnendedLineIsHeld | access-api/internal/queue/outbox.go:41-45 | an append whose write stops right before the newline reports an error, and its event is found all the same |
| Spool.OutboxConserves | access-api/internal/queue/outbox.go:32-116 | over any run of appends and replays on any disk, replays that die half way included, each accepted event was published, is held or was spoiled by a torn line, once, but for the events published from a file that kept them and those a broken line uncovered |
| Spool.NoRepeats | access-api/internal/queue/outbox.go:79-91 | nothing is published from a file that keeps it if and only if no replay that published something was cut short |
| Spool.InterruptedRepeats | access-api/internal/queue/outbox.go:79-91 | a failing input: the process dies after the replay published its one event, which stays in the file to be published again |
| Spool.SoundDiskKeepsAll | access-api/internal/queue/outbox.go:32-116 | if no write tears and no rewrite fails, nothing is spoiled and nothing uncovered |
| Outbox.FileOutbox.Append | access-api/internal/queue/outbox.go:32-46 | the file after an append and the result, for each way the disk can fail |
| Outbox.FileOutbox.RewriteLocked | access-api/internal/queue/outbox.go:94-116 | removal of an emptied file, truncation and the write loop, for each way the disk can fail |
| Outbox.FileOutbox.ScanPending | access-api/internal/queue/outbox.go:64-77 | the scan loop finds the decodable non-empty lines in order or gives up on a line that is too long |
| Outbox.FileOutbox.Replay | access-api/internal/queue/outbox.go:49-92 | replayed count plus remainder is the decoded count, the remainder is the order-preserving subsequence of failures, what reached Kafka includes failed publishes that arrived, and a read or scan error publishes nothing and leaves the file as it was |
| Producer.StepConserves | access-api/internal/queue/kafka_producer.go:56-127 | every step of publishers, retry loop, each publish attempt and rewrite of a replay, close and crash moves each copy of an event from one place to one place, in the ledger of what was published twice and what torn lines cost |
| Producer.ProducerConserves | access-api/internal/queue/kafka_producer.go:56-127 | in every interleaving on any disk, accepted, doubled and uncovered events together are those acknowledged, in the buffer of at most 1024, held by one goroutine, in the outbox or lost; one whose Publish returned nil is acknowledged, in the outbox or spoiled there |
| Producer.RepeatsOfStep | access-api/internal/queue/outbox.go:79-116 | the exact copies that a step leaves in the outbox although they were published: those of a replay it cuts short |
| Producer.OnceUnlessCutShort | access-api/internal/queue/kafka_producer.go:87-92 | no copy is ever counted twice if and only if no replay that published something was cut short, by a crash or a file that could not be replaced |
| Producer.AttemptsAreReplay | access-api/internal/queue/outbox.go:79-91 | uninterrupted, the publish attempts of a replay publish and keep what FileOutbox.Replay does |
| Producer.StepShows | access-api/internal/queue/kafka_producer.go:56-127 | for every step: the topic gains the event of a write that succeeds, or fails and arrives all the same, and nothing else; acknowledged are those of writes that succeed; and Publish returns nil for such a write or an append that reports success, and only then |
| Producer.CrashRepeats | access-api/internal/queue/kafka_producer.go:87-92 | a failing input: the 1025th event is spooled, a replay publishes it and the process dies; it is acknowledged and still in the outbox |
| Producer.MissingOfStep | access-api/internal/queue/kafka_producer.go:56-127 | by how much a step changes the net amount missing, accepted and neither acknowledged nor in memory nor in the outbox, exactly: by the event offered to a full buffer without an outbox or refused by it, by what a torn line or a broken rewrite no longer decodes to, by all that a dying process has in memory, and not at all in any other case |
| Producer.MissingOfRun | access-api/internal/queue/kafka_producer.go:56-127 | in every run the amount missing in the end is the sum of what went missing step by step |
| Producer.MissingExactly | access-api/internal/queue/kafka_producer.go:56-73 | in every run on a disk that tears no line, an event is missing if and only if some step gave it up: a full buffer without an outbox, a refused append or a crash |
| Producer.OverflowLoses | access-api/internal/queue/kafka_producer.go:56-73 | a failing input: without an outbox, the 1025th event that Kafka does not take is gone |
| Producer.NothingLostOnHealthyDisk | access-api/internal/queue/kafka_producer.go:56-121 | with an outbox whose appends succeed and whose rewrites do not break, and no crash, nothing is ever lost or missing |
| Producer.CloseStrandsBuffer | access-api/internal/queue/kafka_producer.go:105-127 | once the retry loop has stopped, what is in the buffer stays there whatever publishers still do |
| Producer.StopNeedsClose | access-api/internal/queue/kafka_producer.go:105-127 | in every run the retry loop has stopped only after a Close of the same process |
| Producer.RetryDrainsBuffer | access-api/internal/queue/kafka_producer.go:105-121 | while the loop runs and Kafka answers, the buffer is delivered oldest first |
| Producer.KafkaProducer.EnqueueRetry | access-api/internal/queue/kafka_producer.go:56-73 | buffer first, outbox file when it is full, and nil is returned exactly when the append reports success, on any disk |
| Producer.KafkaProducer.Publish | access-api/internal/queue/kafka_producer.go:75-84 | the new buffer, outbox file and topic on any disk; nil means the event is in the topic, or can be found in the outbox unless its line continued a torn one |
| Producer.KafkaProducer.RetryOne | access-api/internal/queue/kafka_producer.go:111-118 | one turn of the retry loop delivers the oldest event or puts it back at the end; the outbox is not needed |
| Producer.KafkaProducer.ReplayOutbox | access-api/internal/queue/kafka_producer.go:87-92 | the topic gains exactly what reached Kafka and the file is rewritten with exactly what failed, as far as the disk lets it; an unreadable outbox changes nothing and reports an error |
| Redis.KeysAreDistinct | access-api/internal/cache/redis.go:197-207 | passback, denied and card keys of any owners never collide |
| Access.Latest | access-api/internal/repository/employee.go:49-101 | the current row of an employee or of a card is one that fits with the greatest update time |
| Access.LatestAllow | access-api/internal/repository/employee.go:73-88 | the last passback state is that of an ALLOW swipe of the user with the greatest event time |
| Access.LookupIsOwner | access-api/internal/repository/employee.go:90-101 | the card lookup answers the employee of the newest row with the card, and nothing if no row has it |
| Access.CardFitsHolder | access-api/internal/repository/employee.go:90-101 | if a card is only ever one employee's, it fits exactly the employee who has a row with it |
| Access.ActiveIsNotBanned | access-api/internal/repository/employee.go:49-70 | the activity check answers no exactly if the employee's newest row is inactive |
| Access.LastDirectionIsLastAllowed | access-api/internal/repository/employee.go:73-88 | the last passback state is the direction of the employee's latest ALLOW swipe |
| Access.FallbackAnswers | access-api/internal/service/access_decision.go:112-154 | the fallback's answer in terms of the rows for every query that may fail: no database is ErrCacheUnavailable, a card whose owner cannot be found is refused, a failing activity check is an error, a failing passback query counts as no swipe |
| Access.PassbackWrites | access-api/internal/service/access_decision.go:63-110 | an evaluation changes only its own user's passback key, exactly when SetPassback was reached and took effect, and for 24 hours |
| Access.CardWrites | access-api/internal/service/access_decision.go:72-87 | an evaluation changes only the swiped card's key, exactly if Redis does not have the card and the newest row with it names an employee, to that employee and for 24 hours |
| Access.CacheIsHistory | access-api/internal/service/access_decision.go:98-109 | after any run with any failures, denials, bans and database changes, Redis holds for each user the direction of the last write that landed, until it is 24 hours old |
| Access.HealthySwipeFollowsHistory | access-api/internal/service/access_decision.go:71-109 | what a healthy swipe answers, with or without a card, in terms of the cached owner or the rows with the card, the denied flag and the history alone |
| Access.SwipeFollowsHistory | access-api/internal/service/access_decision.go:63-110 | the same for swipes whose card query or SetPassback fails, the latter leaving the answer to the fallback |
| Access.WritesAreSpaced | access-api/internal/service/access_decision.go:98-107 | successive writes of one user's state in the same direction are at least 24 hours apart, in every run |
| Access.SameDirectionTwiceTakesADay | access-api/internal/service/access_decision.go:63-110 | two successive non-degraded ALLOWs of one user in the same direction are at least 24 hours apart for any mix of other events, unless a SetPassback of that user in the other direction that reported an error took effect in between |
| Access.PhantomWriteBreaksTheRule | access-api/internal/service/access_decision.go:105-107 | a run with such a SetPassback in which the two ALLOWs are closer |
| Access.RedisCache.BatchRead | access-api/internal/cache/redis.go:68-120 | the three reads, field by field, with expired keys absent and unknown passback values read as none |
| Access.RedisCache.SetPassback | access-api/internal/cache/redis.go:157-161 | the key is set for 24 hours, also by a failed call that landed |
| Access.RedisCache.SetCardMapping | access-api/internal/cache/redis.go:178-180 | the owner is cached for 24 hours if the write succeeds |
| Access.AccessDecisionService.Evaluate | access-api/internal/service/access_decision.go:63-154 | the service over the cache object decides and writes as the specification used by the run theorems, fallback included |
| Transparency.ReachableIsConsistent | access-api/internal/service/access_decision.go:63-110 | from consistent stores, healthy swipes, ingestion, bans in the database and their application to the cache keep cache and database consistent |
| Transparency.FastPathRule | access-api/internal/service/access_decision.go:71-110 | Redis answers by the rows with the card, the denied key and the text of the passback key |
| Transparency.FallbackRule | access-api/internal/service/access_decision.go:112-154 | the fallback answers by the same rule over the rows with the card, the employee's newest row and the latest ALLOW swipe |
| Transparency.FailureTransparency | access-api/internal/service/access_decision.go:63-154 | in every reachable state a settled user gets the same decision and reason from Redis and from the fallback if and only if no key the decision depends on has expired, and a failing SetPassback answers as the fallback does |
| Transparency.TransparentWithoutExpiry | access-api/internal/service/access_decision.go:63-154 | while no key has expired, decision and reason are the same whether Redis is healthy, fails on read or fails on SetPassback |
| Transparency.ExpiryIsVisible | access-api/internal/cache/redis.go:157-161 | a reachable state in which, a day later, Redis allows what the database refuses |
| Calendar.CalendarIsExact | report-api/internal/service/report_service.go:405-413 | day numbers and valid dates are two names for the same things, leap years included |
| Calendar.DaysBeforeYearIs | report-api/internal/service/report_service.go:405-413 | the days before a year in closed form, by the Gregorian leap rule |
| Calendar.SlotsAreAdjacent | report-api/internal/service/report_service.go:412-413 | the last day of a month, quarter or year as AddDate computes it is the day before the next one's first, December included |
| Calendar.SlotIsExact | report-api/internal/service/report_service.go:409-485 | the days from a period's first to its last are exactly the days that map to its key |
| Calendar.ParseInverse | report-api/internal/service/report_service.go:405-416 | Parse and Format of dates are inverse between the texts Parse accepts and the days of years 0 to 9999 |
| Calendar.KeysAreInjective | report-api/internal/service/report_service.go:409-472 | different months, quarters or years have different map keys |
| Calendar.PrintedBounds | report-api/internal/service/report_service.go:414-478 | the printed period bounds name the first and last day, except yearly ones before year 1000, which do not parse |
| Tally.PartitionConserves | report-api/internal/service/report_service.go:421-423 | disjoint day ranges that cover every item add up to the whole |
| Buckets.GroupingConserves | report-api/internal/service/report_service.go:401-491 | the ranges of the buckets met are disjoint, cover every row and add up to all rows |
| Buckets.FineSumsAddUp | report-api/internal/service/report_service.go:401-491 | the fine buckets inside a coarse one add up to it |
| Periods.PeriodsConserve | report-api/internal/service/report_service.go:401-491 | monthly, quarterly and yearly periods are pairwise disjoint, cover every parseable row, and the entries, exits and employees they report add up to those of all such rows |
| Periods.PeriodsShowRows | report-api/internal/service/report_service.go:401-491 | every month, quarter or year of a report shows the entries, exits and employees of the rows dated in it, column by column, and is printed with its first and last day, but for years before 1000 |
| Periods.RegroupingCommutes | report-api/internal/service/report_service.go:401-491 | grouping the months by quarter or year, or the quarters by year, gives exactly the periods of grouping the rows directly, in the same order |
| Periods.QuarterIsThreeMonths | report-api/internal/service/report_service.go:401-462 | for any rows in any order, the totals that the report by quarter shows for a quarter are the sum of those that the report by month shows for its three months |
| Periods.YearIsFourQuarters | report-api/internal/service/report_service.go:432-491 | likewise for the reported totals of a year and its four quarters |
| Periods.WeeksPartitionRange | report-api/internal/service/report_service.go:364-376 | weekly buckets are consecutive and disjoint, cover exactly the range, hold seven days except the last, and number ceil(n / 7) |
| Periods.WeeksConserve | report-api/internal/service/report_service.go:348-394 | the totals that the weekly periods report add up to those of all rows dated in the range; there are none if a bound does not parse |
| Periods.WeeksShowRows | report-api/internal/service/report_service.go:348-394 | the same for every week |
| Periods.DaysConserve | report-api/internal/service/report_service.go:323-346 | the totals that the daily periods report add up to those of all rows, parseable or not |
| Periods.DateReportShows | report-api/internal/service/report_service.go:323-346 | a day's period shows the rows of its date text, column by column, and the hours of the last of them that has any |
| Periods.GroupByUnit | report-api/internal/service/report_service.go:401-491 | the row loop over a map of periods and a key order gives one period for each slot met, in order of first row, with that slot's sums and bounds |
| Periods.BuildWeeks | report-api/internal/service/report_service.go:364-376 | the boundary loop terminates with the ranges the partition lemma is about |
| Periods.FillWeeks | report-api/internal/service/report_service.go:378-392 | the nested row and bucket loops add each dated row to exactly the bucket that holds it |
| Periods.GroupByDay | report-api/internal/service/report_service.go:323-346 | one period for each date text in order of first row, the last positive average winning |
| Periods.BuildPeriods | report-api/internal/service/report_service.go:293-310 | the dispatch, with daily as the default and nothing for no rows |
| Trends.MergeTrendsIntoPeriods | report-api/internal/repository/analytics.go:167-229 | the in-place merge gives every period the rates of the metrics its day loop meets |
| Trends.SumRange | report-api/internal/repository/analytics.go:180-193 | the day loop's four accumulators are the sums over the days of the range that have a metric |
| Trends.DayLoopIsSum | report-api/internal/repository/analytics.go:185-193 | for one metric a day, looking dates up day by day is summing the metrics dated in the range |
| Series.PointsReportTheirDays | report-api/internal/service/analytics.go:80-98 | for every granularity string the series has one point for each span of days; field by field, its late rate is the late employees over all, its hours the mean, of the metrics dated in these days, and its bounds are the first and the last of them; but a year before 1000 shows 0001-01-01 |
| Series.AttendanceSeries | report-api/internal/service/analytics.go:80-98 | rows, periods, merge and points: for every granularity string the returned points are those |
| Series.EveryDayCountsOnce | report-api/internal/service/analytics.go:80-98 | for distinct daily dates in range and every granularity string, each metric feeds exactly one point of the series if and only if a yearly series has no metric before 1000 other than one of 0001-01-01; then the sums behind the points add up to those of all metrics |
| Trends.UnitSeriesReports | report-api/internal/repository/analytics.go:179-199 | each point of a monthly, quarterly or yearly series reports the metrics of its own period: late count over headcount and mean hours |
| Trends.WeekSeriesReports | report-api/internal/repository/analytics.go:200-220 | the same for each weekly point |
| Trends.DaySeriesReports | report-api/internal/repository/analytics.go:221-225 | any other granularity gives one point a metric, in order, with its own rates |
| Trends.EarlyYearsAreSkipped | report-api/internal/repository/analytics.go:183-193 | a yearly period before year 1000 is merged with the metrics of 0001-01-01 only |
| Trends.SummaryRates | report-api/internal/repository/report.go:184-196 | the summary fold computes total late over total headcount and mean hours, and zero where there is nothing to divide by |
| Series.SummaryIsMeanOfSeries | report-api/internal/repository/report.go:184-196 | at every granularity the summary's late rate is the mean of the returned points' late rates weighted by headcount, if and only if the metrics of a yearly series before 1000 have the rate of 0001-01-01 between them; likewise its hours weighted by days |
| Series.PeriodLiesBetweenItsDays | report-api/internal/repository/analytics.go:179-225 | a returned point's late rate and mean hours lie between the least and the greatest of its days; for a year before 1000 if and only if those of 0001-01-01 do |
| Series.StoredDaysCountOnce | report-api/internal/service/analytics.go:80-98 | for the dates a query can return, from 1970 on, the merge loop of every point meets exactly the point's own days, each day feeds exactly one point and the sums add up, at every granularity |
| Series.StoredSummaryIsMean | report-api/internal/repository/report.go:184-196 | for such dates the summary's late rate and hours are the weighted means of the returned points', at every granularity |
| Series.StoredPointLiesBetweenItsDays | report-api/internal/repository/analytics.go:179-225 | for such dates every returned point lies between the least and the greatest of its days |
| Series.EarlyYearIsSilent | report-api/internal/service/report_service.go:475-478 | the functions by themselves, on a date no query returns: the only day of a yearly series is before 1000 and somebody was late, and the point's late rate is zero while the summary's is not |
| Department.MergeKeepsTotals | report-api/internal/repository/analytics.go:167-229 | the merge leaves the bounds and totals of every period alone |
| Department.DepartmentReport | report-api/internal/service/report_service.go:193-197 | for any aggregated rows and metrics on dates from 1970 on, the periods by week, month, quarter or year are disjoint; each is printed with its first and last day and shows, field by field, the entries, exits and employees of the rows and the late rate and mean hours of the metrics dated in its own days; and a metric feeds exactly one period if it is in the requested range (by week) or some row shares its month, quarter or year, and none otherwise |
| Department.DailyDepartmentReport | report-api/internal/service/report_service.go:193-197 | by day, each period carries the rates of the metric of its date text and stays as built if there is none, so a metric feeds a period if and only if some row has its date |
| Department.DepartmentPeriods | report-api/internal/service/report_service.go:146-197 | the granularity default, the periods and the merge, which is skipped if the trends query fails |
| Personal.TextOrderIsTime | report-api/internal/service/report_service.go:664-675 | comparing HH:MM:SS texts is comparing times |
| Personal.FactsAreExtremes | report-api/internal/service/report_service.go:655-678 | FirstIn and LastOut are the earliest IN and the latest OUT of the day, and absent exactly if there is none |
| Personal.GroupEventsByDate | report-api/internal/service/report_service.go:655-678 | the event loop leaves a record exactly for the days with events, holding the day's counts and extremes |
| Personal.CalculateHoursWorked | report-api/internal/service/report_service.go:680-698 | the loop over the map, in any order, sets the hours of every record |
| Personal.HoursAreElapsedTime | report-api/internal/service/report_service.go:680-698 | a complete day counts the time from first IN to last OUT to the nearest hundredth of an hour, any other day nothing |
| Personal.RecordShows | report-api/internal/service/report_service.go:655-698 | a day's record field by field: its date, the times of its earliest IN and latest OUT or none, how many there are, and the hours between the two |
| Personal.ActiveDaysAreExact | report-api/internal/service/report_service.go:81-87 | the date loop emits each in-range day with events exactly once in ascending order |
| Personal.ReportConserves | report-api/internal/service/report_service.go:69-87 | the entries and the exits that the emitted records show add up to all IN and all OUT events of the range |
| Personal.ReportIgnoresOrder | report-api/internal/service/report_service.go:69-87 | the whole report is the same for the events in any order |
| Personal.PersonalRecords | report-api/internal/service/report_service.go:69-87 | the report after the query, and an error exactly if a bound does not parse |
| OrgTree.PrefixIsTreeOrder | report-api/internal/repository/org.go:205-226 | one path is a prefix of another if and only if its unit is an ancestor of or equal to the other's in the parent relation |
| OrgTree.SubtreeTestIsAncestry | report-api/internal/repository/org.go:205-226 | IsInSubtree answers exactly for two known units, and then by ancestry |
| OrgTree.AncestryIsPartialOrder | report-api/internal/repository/org.go:204-226 | the scoping relation is reflexive, antisymmetric and transitive |
| OrgTree.LikeIsPrefix | report-api/internal/repository/org.go:119-120 | LIKE concat(path, '%') is the prefix test for a path without wildcards |
| OrgTree.WildcardsWiden | report-api/internal/repository/org.go:119-120 | with a wildcard in an id it would match an unrelated unit |
| OrgTree.GetSubtreeIDs | report-api/internal/repository/org.go:107-135 | the query and row loop return exactly the unit and its descendants in the parent relation, and fail exactly for an unknown unit |
| OrgTree.GetChildUnits | report-api/internal/repository/org.go:250-280 | the rows whose parent is the unit, in row order |
| OrgTree.SubtreeSplits | report-api/internal/repository/org.go:107-135 | a unit's subtree is the unit and the disjoint union of its children's subtrees |
| OrgTree.SubUnits | report-api/internal/service/report_service.go:199-220 | the sub-unit loop lists every child whose queries succeed, with its subtree's totals |
| OrgTree.ListedShows | report-api/internal/service/report_service.go:199-220 | the list shows each child whose query succeeds under its own id with the entries and exits of its subtree, and nothing else |
| OrgTree.SubUnitsConserve | report-api/internal/service/report_service.go:199-220 | a unit's entries and exits are its own rows plus the listed sub-units plus the failed children, so the page adds up if and only if the failed ones have no traffic |
| OrgTree.FailedChildIsMissing | report-api/internal/service/report_service.go:199-220 | a failing input: a unit with one child, whose entry is the only one and whose query fails; the unit's total shows it and nothing below does |
| AuditQuery.TableIsSystematic | report-api/internal/repository/inout_audit_queries.go:23-88 | each of the sixteen masks has an entry whose count and select texts carry exactly the clauses of the mask, in the order the arguments are appended |
| AuditQuery.AppendOrgUnitsFilter | report-api/internal/repository/inout_audit_queries.go:159-172 | the unit loop keeps the ids that parse and sets the mask bit for any non-empty list |
| AuditQuery.BuildAuditQuery | report-api/internal/repository/inout_audit_queries.go:101-126 | an error exactly for a malformed employee or door id or an unknown status, the first of these winning; otherwise count and select bind by position to the filter's conditions, and the table lookup never fails |
| AuditQuery.ConditionsAreFilter | report-api/internal/repository/inout_audit_queries.go:101-172 | a row meets the bound conditions if and only if it satisfies every field of the filter that is set |
| AuditQuery.GetAuditEvents | report-api/internal/repository/inout.go:94-122 | the total is the number of matching rows and the events are the requested window of the same rows in result order |
| AuditQuery.PagesAreTheResult | report-api/internal/repository/inout.go:100-122 | in one result order the pages 1 to ceil(n / size) show each stored row as often as it is stored if it matches, and no other row |
| AuditQuery.AuditPagingIsExact | report-api/internal/repository/inout.go:94-122 | for each page size, every run of pages over the matching events is complete, whatever order ties get at each request, if and only if no page boundary has two different events of one time on either side |
| AuditQuery.GetAuditLog | report-api/internal/service/report_service.go:498-561 | an answer exactly for a known unit and a well-formed filter, with page and size corrected to at least 1 and to 1 to 200 |
| AuditQuery.AuditIsScoped | report-api/internal/service/report_service.go:498-533 | by role and field by field: the matching events are those from the start of the first to the end of the last asked day, at the asked door, with the asked status, whose unit is the requester's own or below it; for an employee the employee's own, for the five other roles those of the asked employee or of everybody; the unit list is never empty |
| AuditQuery.RoleDecides | report-api/internal/service/report_service.go:500-515 | an employee's request for another employee changes nothing, nor does the user id of anybody else |
| AuditQuery.AuditLogIsExact | report-api/internal/service/report_service.go:498-561 | a response of GetAuditLog holds only events that the role may see, and the pages show each of them as often as it is stored |
| Paging.FixedOrderTiles | report-api/internal/repository/inout.go:106-110 | with a fixed order the pages 1 to ceil(n / size) are the full result |
| Paging.PagingIsExact | report-api/internal/repository/inout_audit_queries.go:97-99 | for each page size, every run of pages is complete if and only if no page boundary has two different rows of the same time on either side of it |
| Paging.PageCountIsLeast | report-api/internal/repository/inout_audit_queries.go:97-99 | the number of pages is the least that covers the result |
| Paging.TiesLoseRows | report-api/internal/repository/inout_audit_queries.go:97-99 | a failing run for every boundary with such rows: the order of the two changes between two requests, one of them is shown twice and the other one never |
| Paging.OnePageIsComplete | report-api/internal/repository/inout_audit_queries.go:97-99 | a result that fits one page is complete whatever the ties |

## Left out

- HTTP handlers, authentication, metrics, configuration and logging: they carry no property of this kind.
- PDF, chart and CSV output: the libraries that render it are not part of this model.
- Demo data: the records, summaries and sub-units substituted for an empty report are not modelled; the code before the
  substitution is.
- ClickHouse: queries are functions over finite row sets. Materialized views, the live aggregation used while the
  pre-aggregated table is empty, and the distinct-employee estimate are not modelled; unique employees are added as the
  code adds them.
- Kafka: one ordered partition. Balancing over partitions and rebalancing are not modelled; a fetch at the end of the log,
  which blocks, is a turn that does nothing.
- Time-outs: a write that times out is a failed write that may or may not have arrived.
- Floating point: rates, hours and the limiter's refill are exact; hours worked are integer hundredths.
- Concurrent swipes of one user: each Evaluate is one atomic step, as the code takes no lock between its read and its write.
- Report caching: cached responses are not modelled.
- Role texts: a role is one of the six the code knows; reading it from the stored text is not modelled.
- The limiter's mutex: each request and each evictor pass is one atomic step.
- RateLimit.WindowBound: for rps of at least 1, as for smaller values the capacity is not positive, and for requests that
  wait for the lock less than four minutes and 59 seconds while the evictor passes.
- Outbox.RoundTrip: assumes of the JSON codec that it decodes what it encoded and encodes to one non-empty line shorter than
  64 KiB that does not end in a carriage return.
- Spool.OutboxConserves: assumes in addition that what was decoded can be encoded. An event on a line too long for the
  scanner counts as held, although Replay gives up on the file.
- Producer.ProducerConserves: the outbox is the shelf of events that its file holds (Spool.AppendRefines,
  Spool.RewriteRefines), where what a torn line decodes to is any list of events; a replay that cannot read the file is one
  that does not begin.
- Producer.KafkaProducer.EnqueueRetry: one call tests the buffer and appends, with nothing in between; in the interleaving
  these are separate steps, and the buffer may have room again when the append comes.
- Producer.KafkaProducer.RetryOne: no publisher fills the buffer between the two halves of the turn; the steps Take and
  Requeue of the interleaving allow it.
- Producer.MissingExactly: for disks that tear no line; with torn lines the amount missing is Producer.MissingOfRun, and one
  line may make up for another.
- Transparency.FailureTransparency: bans change employees already known to the database, each with a newer version, and a
  card belongs to one employee in all versions.
- Transparency.ReachableIsConsistent: swipes meet a healthy Redis and carry increasing event times for each user.
- Access.CacheIsHistory: user ids are compared as they are given; different spellings of one UUID are different users.
- Periods.GroupByUnit: the periods that the map of the code points to are values of a map here, written back after each row.
- Personal.GroupEventsByDate: likewise; event times are a day and a second, for years 0 to 9999.
- Trends.UnitSeriesReports: for yearly series of years from 1000 on; earlier years are the subject of
  Trends.EarlyYearsAreSkipped.
- OrgTree.GetSubtreeIDs: for ids that are UUIDs in text; OrgTree.PrefixIsTreeOrder needs only ids without slashes.
- AuditQuery.BuildAuditQuery: SQL texts are sequences of the constants they are concatenated from; an empty id list selects
  no row.
- AuditQuery.GetAuditEvents: the offset does not wrap around at 64 bits, and the card, address and reason columns, which no
  filter reads, are left out of the rows.
