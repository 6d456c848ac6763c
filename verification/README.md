# Verified model of the URL shortener

A Dafny model of the shortener's protocols over its two stores, PostgreSQL tables and Redis keys, with
proofs about every run of them. `dafny verify dfyconfig.toml` checks the whole project.

## What is modelled

Each protocol is a state machine whose steps are single store calls, so that any number of requests,
workers or instances interleave between calls. A call ends in one of three ways (`Common.Outcome`): it
answers, it fails without effect, or it takes effect and its reply is lost, which the program cannot tell
from a failure. Crashes, the passage of time and keys running out are steps of their own. Time is an integer
clock in nanoseconds. A run is a list of labels; `Run` gives the state it leads to, if all its steps fit.

| component | files of the model |
|---|---|
| tables, constraints, cascades; the code column | `Schema.dfy`, `CodeSpace.dfy` |
| base 62, decimal and digit arithmetic | `Base62.dfy`, `Radix.dfy`, `Decimal.dfy` |
| idempotent create | `Idempotency.dfy`, `IdempotencyWitness.dfy`, `CreateRun.dfy` |
| resolving, with the cache | `Cache.dfy`, `Resolver.dfy`, `Staleness.dfy` |
| the service and the idempotency store as programs | `Service.dfy` |
| click pipeline: buffer, stream, consumer, counters, statistics | `Recorder.dfy`, `Analytics.dfy`, `Ledger.dfy`, `Delivery.dfy`, `ExactlyOnce.dfy`, `Consumer.dfy`, `Pipeline.dfy`, `Stats.dfy` |
| rate limiter | `RateLimit.dfy` |
| expiry requests | `Expiry.dfy` |
| migrations | `Versioning.dfy`, `Migrate.dfy` |

Code that the source writes as objects updated in place is a class here (`Schema.Database`, `Cache.URLCache`,
`Service.IdempotencyStore`, `Service.LinkService`, `Consumer.Consumer`, `Recorder.Recorder`,
`RateLimit.Limiter`, `Migrate.Migrator`). The consumer keeps one ghost state of its machine from construction on,
always one that some run reaches, and every method moves it by a run (`Consumer.Leads`), so what is proved of
runs holds between any two of its calls (`Delivery.ReachableIsSound`), also when the table and the stream change in
between, as in the client `Consumer.CountClicks`. The migrator's `Apply` is shown to be a run of its machine in the
same way; that the limiter's `Allow` and the service's `Resolve` and `CreateIdempotent`, uninterrupted, are runs of
theirs is `RateLimit.AllowIsRun`, `Staleness.ResolveIsRun` and `CreateRun.CreateIsRun`.

## Where the code and its comments differ

The model follows the code.

- An automatic create is two statements, an insert and a later update of the code
  (`internal/service/url.go:216-221`), so rows without a code exist in between and stay behind after a failure.
- A malformed event returns nil and is not acknowledged, although its comment says it is
  (`internal/consumer/consumer.go:107-109`); `Delivery.LeftBehind` shows that it then stays pending.
- The consumer asks only for new entries (`internal/consumer/consumer.go:79`), so whatever a failure leaves
  pending is never delivered again: `Delivery.StuckForever`.
- The limiter counts fixed windows (`internal/middleware/ratelimit.go:62`): `RateLimit.SpanLimitIff`.

## What turned out not to hold

- An expiry request whose product passes 64 bits can be granted with another life span than asked for;
  `Expiry.GrantedOtherwise` says exactly when, `Expiry.WrappedRequest` gives one: "307445735m" lives 26 seconds.
- Release drops whatever lock is there. Exclusion needs every claimer to finish within the lock's life:
  `Idempotency.AtMostOneCreator`, and `IdempotencyWitness.LateReleaseBreaksExclusion` for what happens otherwise.
- A key does not give at most one row: there is no second look after a successful claim.
  `IdempotencyWitness.RowBoundIsTight` has n rows from n requests with nothing failing.
- A replay can report success with somebody else's link: once the row its recorder inserted is deleted and the
  code taken again, and even if the recorded row is still there, because createOne reads its row back by code.
  The replay returns the recorder's own row exactly while that row lives: `Idempotency.ReplayReadsOriginalIff`;
  the failing runs are `IdempotencyWitness.ReplayMayServeAnotherLink` and `RecordedRowMayBeAnotherLink`.
- The referrers reported can exceed the total reported, since each is a query of its own:
  `Stats.ReferrersMayOutrunTotal`; by how much is `Stats.ReportedReferrersWithinTotal`.
- Counted when they are decided, up to three times the limit of admissions fit into a minute, and twice the limit
  into a single tick (`RateLimit.SpanBoundIsTight`). Twice the limit is kept exactly on spans of at most 59 s and a
  tick: `RateLimit.SpanLimitIff`, which says it for every multiple.
- When a table delete takes effect but its reply is lost, the cache is not told, and the link goes on being
  served: `Resolver.StaleAfterMissedDropIff`.
- A user may choose a code that a later automatic create will generate: `CodeSpace.CollisionPossibleIff`.
- An INCR that lands more than a second late, be it by a nanosecond, can find its counter gone:
  `RateLimit.LateIncrBreaksLimit`.

## Model

| member | source | states |
|---|---|---|
| `Radix.LexIsOrder` | internal/service/base62.go:3-17 | on digit strings of one length, comparing from the left is comparing values, and equal values mean equal strings |
| `Base62.EncodeRoundTrip` | internal/service/base62.go:5-17 | for every n the code is canonical (alphabet characters, no leading 0 except for zero) and decodes to n |
| `Base62.DecodeRoundTrip` | internal/service/base62.go:5-17 | every canonical string is the code of the number it denotes, so all are covered |
| `Base62.EncodeInjective` | internal/service/base62.go:5-17 | two ids never share a code |
| `Base62.EncodeIsOrderIsomorphism` | internal/service/base62.go:3-17 | n < m exactly when n's code precedes m's by length and then byte order |
| `Base62.EncodeLength` | internal/service/base62.go:9-15 | a code has at most k characters exactly when n < 62^k |
| `Base62.ElevenDigitsSuffice` | internal/service/base62.go:9-13 | every uint64 needs between 1 and 11 characters |
| `Base62.EncodeBase62` | internal/service/base62.go:5-17 | the loop over the 11-byte buffer never runs past its start and returns the code of n |
| `Expiry.ParseExpiry` | internal/service/url.go:339-362 | whatever the digits, an accepted expiry is digits with a unit, and lies after now and at most 365 days ahead |
| `Expiry.Characterised` | internal/service/url.go:344-360 | the outcome is that of the 64-bit product of number and unit, one wrap-around for all three units |
| `Expiry.GrantedAsAsked` | internal/service/url.go:339-362 | digits and a unit (m, h, d: 60, 3600, 86400 seconds): the expiry asked for is granted exactly when it is more than 0 and at most 365 days ahead |
| `Expiry.GrantedOtherwise` | internal/service/url.go:344-357 | another expiry is granted exactly when the product leaves the 64-bit range and comes back inside the year |
| `Expiry.WrappedRequest` | internal/service/url.go:348-357 | "307445735m" is granted a life of 26.29 seconds |
| `Decimal.DigitsParse` | internal/repository/migrate.go:96-100 | strconv.ParseInt: digits, with or without a sign, give their signed value if it fits in 64 bits, and an error if not |
| `Schema.Find` | internal/repository/url_repo.go:73-86 | finds nothing exactly when no row carries the code, and otherwise a stored row that does |
| `Schema.FindIs` | migrations/0001_init.up.sql:9 | as codes are unique, the row found is the row that carries the code |
| `Schema.InsertKeeps` | migrations/0001_init.up.sql:7-16 | an insert, accepted or refused, keeps keys and uniqueness, and the checks on code and URL |
| `Schema.AssignKeeps` | migrations/0001_init.up.sql:7-16 | so does setting a code |
| `Schema.DeleteKeeps` | migrations/0001_init.up.sql:18-24 | a delete takes its counters along, so no counter is left without its link |
| `Schema.Database.constructor` | migrations/0001_init.up.sql:7-36 | starts from empty tables |
| `Schema.Database.Create` | internal/repository/url_repo.go:29-39 | inserts a code-less row under the next id, or leaves the rows alone; the sequence advances either way |
| `Schema.Database.CreateWithCode` | internal/repository/url_repo.go:41-54 | the same with a code, refused as a conflict if a live row has it |
| `Schema.Database.SetCode` | internal/repository/url_repo.go:56-71 | changes that row's code only, or reports conflict, bad format or missing row |
| `Schema.Database.GetByCode` | internal/repository/url_repo.go:73-86 | answers with the row found, changing nothing |
| `Schema.Database.DeleteByCode` | internal/repository/url_repo.go:88-97 | removes the row and its counters, or reports that there is none |
| `Schema.Database.ClaimEvent` | internal/consumer/consumer.go:166-177 | true exactly the first time an event id is claimed |
| `Schema.Database.Bump` | internal/consumer/consumer.go:138-157 | raises that counter by one, refused when the link is gone |
| `CodeSpace.GeneratedCodeFits` | internal/service/url.go:220-221 | every generated code meets the column's format check |
| `CodeSpace.ValidCustomIff` | internal/service/url.go:329-337 | a custom code is accepted exactly if it has 3 to 32 letters, digits, underscores or hyphens and does not spell api, health, ready or metrics, in whatever case |
| `CodeSpace.StepKeepsInv` | internal/service/url.go:202-234 | each insert, SetCode, crash and delete keeps: unique codes, generated codes only on their own ids, and code-less rows being exactly those in flight or stranded |
| `CodeSpace.HistoryKeepsInv` | internal/service/url.go:202-234 | the same over every history; rows that have a code never change and ids are never reused |
| `CodeSpace.AssignConflictsIff` | internal/service/url.go:220-225 | SetCode of a row in flight conflicts exactly when a live custom row has the code, is refused for no other reason, and never for ids below 62 * 62 |
| `CodeSpace.CollisionPossibleIff` | internal/service/url.go:222-224 | the collision branch can be reached for id n exactly when n's code is one users may choose |
| `Idempotency.RunKeepsInv` | internal/service/url.go:134-200 | the machine's invariant over every run: a request inserts at most one row, what a claimer reads back and records is the row it inserted while that lives, phases agree with the table |
| `Idempotency.ReplayFidelity` | internal/service/url.go:187-200 | in every run, whatever fails or expires, a replayed result wrote nothing and carries a code a claimer recorded, and it is exactly the row that claimer had inserted unless that row was deleted |
| `Idempotency.ReplayReadsOriginalIff` | internal/service/url.go:189-200 | the replay returns the row that the recorder of the code inserted exactly when that row is still live |
| `Idempotency.CreatedIsOwnRow` | internal/service/url.go:202-234 | in every run, a create returns the row this request inserted while that lives, with the URL and expiry asked for, and the code asked for or else that of its id |
| `Idempotency.WaiterPollsFiveTimes` | internal/service/url.go:172-185 | a request refused the claim polls up to five times, whatever goes on beside it: a poll that finds a response replays its code, and only after five in vain it gives up |
| `Idempotency.AtMostOneCreator` | internal/service/url.go:142-165 | if Redis answers the first Get and the Claim, keeps the lock for its 10 s, and claimers finish within them, at most one request is inside createOne, and every row of the key is a claimer's |
| `Idempotency.RowsPerKeyBounded` | internal/service/url.go:142-185 | while the response is remembered, only requests whose first Get missed before the first Set, or failed, write rows, one each |
| `Idempotency.RowsPerKeyWhenAnswered` | internal/service/url.go:142-185 | when Redis also answers, rows per key never exceed the requests whose first Get preceded the first Set |
| `IdempotencyWitness.RowBoundIsTight` | internal/service/url.go:142-165 | for every n some prompt, failure-free run has n rows under one key, so the bound cannot be lowered |
| `IdempotencyWitness.LateReleaseBreaksExclusion` | internal/idempotency/store.go:76-82 | with every call answered and a single request late, its Release lets a second claimer into createOne beside a first, both within their time |
| `IdempotencyWitness.ReplayMayServeAnotherLink` | internal/service/url.go:189-200 | a reachable state in which a replay returned a row that no request of the key wrote |
| `IdempotencyWitness.RecordedRowMayBeAnotherLink` | internal/service/url.go:229-233 | a reachable state in which the replayed row is recorded and live and yet no request of the key wrote it |
| `CreateRun.CreateOneIsRun` | internal/service/url.go:202-234 | an uninterrupted createOne, as `Service.LinkService.CreateOne` is proved to act, is a run of the machine with the same table and the same result, whichever calls fail |
| `CreateRun.CreateIsRun` | internal/service/url.go:134-171 | so is an uninterrupted createIdempotent that need not wait, with the same Redis entries |
| `Ledger.CreditKeeps` | internal/consumer/consumer.go:138-158 | raising a counter for an event not yet credited to it keeps every counter equal to the number of its events, and a day's referrer sum equal to its referred events |
| `Ledger.DeleteKeepsBalance` | migrations/0001_init.up.sql:19 | the cascade keeps that balance for all remaining links |
| `Ledger.InsertKeepsBalance` | internal/repository/url_repo.go:29-54 | a new link starts with no counter and no credited event |
| `Analytics.RunKeepsInv` | internal/consumer/consumer.go:75-177 | the consumers' invariant over every run with several workers, redelivery, failures and crashes: balanced counters, and every raise made or about to be made is for the link the event's code names and the event's day |
| `Analytics.AtMostOnce` | internal/consumer/consumer.go:105-177 | in every run an event raises at most one total and at most one referrer counter by one; a live counter is the number of distinct events in its name, all carrying its link's code, a timestamp within the 86400 seconds of its day if theirs parses, and its referrer |
| `Analytics.Conservation` | internal/consumer/consumer.go:126-158 | at every moment the referrer counters of a live link's day plus the unreferred events are its total |
| `Analytics.UnreferredIff` | internal/consumer/consumer.go:148-158 | the gap is exactly the counted events without referrer or not past the second upsert |
| `Analytics.TotalIsClicks` | internal/consumer/consumer.go:138-146 | all totals of a live link together are the number of distinct clicks counted for it |
| `Delivery.DeliveryCursor` | internal/consumer/consumer.go:75-118 | without redelivery: delivered entries are a prefix, each read once; pending is delivered minus acknowledged; acknowledged entries are claimed; the count is exactly the number of handle calls that returned nil, which are those of a prefix of the batch |
| `Delivery.CountIsRight` | internal/consumer/consumer.go:93-102 | in every reachable state, handle returned nil for entry i of a returned batch exactly if i is below the count |
| `Delivery.ReachableIsSound` | internal/consumer/consumer.go:75-162 | the invariants of both machines, counting and delivery, hold in every state a run without redelivery reaches |
| `Delivery.StuckForever` | internal/consumer/consumer.go:77-81 | a stuck entry, one delivered, unacknowledged and in nobody's hands, stays so for the rest of the run |
| `Delivery.LeftBehind` | internal/consumer/consumer.go:93-109 | when a batch is given up, its entries from the failing one on are stuck in that way, except exactly a failing one whose ack took effect; so are malformed entries |
| `Delivery.LostReadIsStuck` | internal/consumer/consumer.go:85-91 | entries delivered in a reply that was lost are stuck at once |
| `Delivery.PendingExactly` | internal/consumer/consumer.go:75-118 | an entry is pending exactly if it is stuck or still in some worker's hands |
| `ExactlyOnce.TalliedJoin` | internal/consumer/consumer.go:93-102 | group-bys of consecutive batches join, so batch boundaries make no difference |
| `ExactlyOnce.SmoothlyCounted` | internal/consumer/consumer.go:75-162 | between two reachable moments when nobody is at work, on a run with no failure, crash, redelivery or table change and any number of workers, the counters go up by exactly a group-by over what was delivered in between, and of that only malformed entries stay pending |
| `ExactlyOnce.EveryEventCountsOnce` | internal/consumer/consumer.go:75-162 | so on every such run from an empty group every counter ends up as the number of events that match it: each event counts exactly once, whoever handled it |
| `Consumer.Consumer.Claim` | internal/consumer/consumer.go:112-119 | claims the entry and moves the machine to the lookup, to the ack, or out |
| `Consumer.Consumer.Credit` | internal/consumer/consumer.go:126-158 | lookup and upserts; with every call answering, exactly the matching counters go up by one |
| `Consumer.Consumer.Handle` | internal/consumer/consumer.go:105-162 | is a run of the machine in which the entry is counted if it returns nil and the batch given up if not; with every call answering, a fresh event is claimed and acknowledged, and exactly the counters it concerns go up, of the day whose 86400 seconds have its timestamp, or the clock reading if it has none; one seen before counts nothing |
| `Consumer.Consumer.ReadGroup` | internal/consumer/consumer.go:76-91 | is a run of the machine that delivers the next at most 32 entries, which become pending |
| `Consumer.Consumer.HandleBatch` | internal/consumer/consumer.go:93-102 | the loop stops at the first entry whose handle errs, having counted exactly those before it |
| `Consumer.Consumer.ProcessOnce` | internal/consumer/consumer.go:75-103 | is a run of the machine; the count is exactly the number of entries at the front of the batch whose handle returned nil, which are dealt with; after a failure the next one did not, and all behind it stay pending; without failures the batch is one group-by step |
| `Consumer.Consumer.Drain` | internal/consumer/consumer.go:75-103 | repeating it without failures on well-formed events is a smooth run that terminates with nothing undelivered and nobody at work; the counters have gone up by one group-by pass over what was delivered, and of that only malformed entries are pending |
| `Consumer.Consumer.TableMoved` | internal/repository/url_repo.go:29-97 | another client's table call is a step of the machine and disturbs nothing the next call of the consumer needs |
| `Consumer.Consumer.Append` | internal/analytics/recorder.go:54-62 | so is a new stream entry |
| `Consumer.CountClicks` | internal/consumer/consumer.go:75-158 | a link of valid URL is made after start-up, events arrive between the consumer's batches, and every counter is in the end the number of events that match it |
| `Stats.DailyAddsUp` | internal/repository/stats_repo.go:16-40 | the daily rows add up to the sum of the total counters they answer for |
| `Stats.StatsByURLID` | internal/repository/stats_repo.go:10-64 | succeeds exactly when all three queries do, returns their rows, and reports a total equal to the sum of its days if both saw the same counters |
| `Stats.ListedWithinAll` | internal/repository/stats_repo.go:42-61 | the listed referrers never exceed the sum of all referrer counters |
| `Stats.DaysWithinTotals` | internal/repository/stats_repo.go:16-61 | if no day's referrers exceed its total, no link's do |
| `Stats.ReportedReferrersWithinTotal` | internal/repository/stats_repo.go:10-64 | in every run, the referrers reported exceed the total reported before them by at most the clicks counted for the link between the two queries |
| `Stats.ReferrersMayOutrunTotal` | internal/repository/stats_repo.go:16-46 | a run in which the total is read as 0 and the referrers then as 1 |
| `Recorder.RecorderConservation` | internal/analytics/recorder.go:42-69 | for every interleaving: pushes = dropped + buffered + in hand + published + failed, published counts exactly the answered XADDs, at most 4096 are buffered, and the stream is what became of the accepted events in order |
| `Recorder.KeptIsSubsequence` | internal/analytics/recorder.go:52-69 | what reached the stream is an in-order subsequence of the accepted events |
| `Recorder.KeptAll` | internal/analytics/recorder.go:52-69 | and exactly those whose XADD took effect |
| `Recorder.Recorder.PushEvent` | internal/analytics/recorder.go:42-50 | accepts exactly when fewer than 4096 are buffered, and counts the drop otherwise |
| `Recorder.Recorder.TakeNext` | internal/analytics/recorder.go:52-53 | takes the oldest event |
| `Recorder.Recorder.AddToStream` | internal/analytics/recorder.go:54-68 | an answered XADD counts as published, any other as failed; the event is in the stream unless the call failed outright, so after a lost reply too |
| `Recorder.Recorder.Flush` | internal/analytics/recorder.go:52-69 | empties the buffer, trying each event once and in order |
| `Pipeline.CountedWithinPushed` | internal/analytics/recorder.go:42-69 | over every interleaving of any number of replicas' recorders and any number of consumers, the totals of a live link over all days never exceed the clicks pushed for its code, all replicas together |
| `Pipeline.ClicksCarryCode` | internal/consumer/consumer.go:126-146 | the totals of a live link never exceed the stream entries that carry its code |
| `Cache.URLCache.Get` | internal/cache/url_cache.go:40-58 | answers the live entry, a miss, or an error |
| `Cache.URLCache.Set` | internal/cache/url_cache.go:60-78 | keeps the row for the lesser of 60 s and its remaining life, and not at all when that is over |
| `Cache.URLCache.Delete` | internal/cache/url_cache.go:80-85 | drops the entry |
| `Resolver.ResolveKeepsCoherence` | internal/service/url.go:236-267 | on a coherent cache Resolve answers as without one and leaves the cache coherent, whichever cache calls fail |
| `Resolver.BareIs` | internal/service/url.go:250-259 | without a cache: no row with the code is not found, a row whose expiry is not after now is expired, any other is returned |
| `Resolver.EntriesAfter` | internal/service/url.go:236-267 | an expired hit is evicted, a usable one answered and left alone, and a row read from the table kept until the earlier of a minute on and its expiry |
| `Resolver.StepKeepsCoherence` | internal/service/url.go:202-283 | every non-overlapping create, resolve, delete whose cache delete succeeds, clock advance and cache loss keeps every live entry equal to the stored row and no longer-lived than the link |
| `Resolver.CacheIsTransparent` | internal/service/url.go:236-283 | over all such histories every Resolve answers as with no cache |
| `Resolver.StaleAfterMissedDropIff` | internal/service/url.go:269-283 | after a delete the cache did not hear of, and whatever else happens short of the code being taken again or Redis losing the entry, a Resolve is served the dead link exactly while its entry lives |
| `Staleness.SwiftRunKeepsInv` | internal/service/url.go:236-283 | the invariant behind the bound, over every interleaving |
| `Staleness.BoundedStaleness` | internal/service/url.go:236-283 | over every interleaving, with cache deletes failing or late, a row served after being read at t was what the table held under its code at some moment between t - 60 s - d and t, d bounding read-to-cache-write, and when checked its expiry was still to come |
| `Staleness.StalenessBoundIsTight` | internal/cache/url_cache.go:60-78 | for every d a run meets the bound to the tick |
| `Staleness.ResolveIsRun` | internal/service/url.go:236-267 | an uninterrupted Resolve, as `Service.LinkService.Resolve` is proved to act, is a run of the machine with the same cache and the same answer, whichever calls fail |
| `Service.IdempotencyStore.Get` | internal/idempotency/store.go:43-55 | the remembered code, unknown, or an error |
| `Service.IdempotencyStore.Set` | internal/idempotency/store.go:58-63 | remembers the code for 24 hours |
| `Service.IdempotencyStore.Claim` | internal/idempotency/store.go:68-73 | takes a free or expired lock for 10 s; true exactly for the taker |
| `Service.IdempotencyStore.Release` | internal/idempotency/store.go:77-82 | drops the lock whoever holds it |
| `Service.LinkService.Resolve` | internal/service/url.go:236-267 | whichever calls fail, leaves the cache and answers as the cached resolve says, and on a coherent cache as the uncached one; a row returned has its expiry ahead, and expired, not found and error are each answered only for their cause |
| `Service.LinkService.Delete` | internal/service/url.go:269-283 | deletes the link and its counters from the table and nothing else, then drops the cache entry only if the table reported a deletion |
| `Service.LinkService.CreateOne` | internal/service/url.go:202-234 | success and each error have their exact condition: bad code, code taken by a live row, generated code taken, or a failed call; the table afterwards is determined too: at most one new row under the next id, with the contents asked for, with or without its code |
| `Service.LinkService.Replay` | internal/service/url.go:189-200 | the stored row, that it is gone if no row has the code, or an error if the call failed |
| `Service.LinkService.CreateIdempotent` | internal/service/url.go:134-185 | a remembered key is replayed and a locked one waited for (five polls a fifth of a second apart), writing nothing; a free key is created for, remembered for 24 hours and released, or left locked for 10 s on failure; when Get or Claim errs it is one plain create, and nothing is remembered |
| `Service.LinkService.Await` | internal/service/url.go:172-185 | gives up exactly if none of five polls, a fifth of a second apart, answers and finds what was Set last still alive, whatever other requests Set meanwhile, and otherwise replays what the first such poll found |
| `Service.CreateTwice` | internal/service/url.go:134-200 | a second request under the key within 24 hours gets the first one's row, whatever it asks for, and only one row exists |
| `RateLimit.Effective` | internal/middleware/ratelimit.go:27-30 | a positive limit is in force as it is, any other as 60 |
| `RateLimit.RetryAfterIsNextWindow` | internal/middleware/ratelimit.go:75-80 | Retry-After is 1 to 60 seconds (section 10.2.3 of RFC 9110) and ends exactly when the next window begins |
| `RateLimit.IncrStep` | internal/middleware/ratelimit.go:61-74 | an INCR at most a second after its clock reading finds every earlier count of its window, because 61 s outlast them all |
| `RateLimit.RunKeepsInv` | internal/middleware/ratelimit.go:61-83 | the limiter's invariant over every on-time run |
| `RateLimit.LimitPerWindow` | internal/middleware/ratelimit.go:61-83 | on every on-time schedule, even if EXPIRE fails, no client is admitted more than perMinute times per window of 60 s while Redis answers |
| `RateLimit.RefusedOnlyAboveLimit` | internal/middleware/ratelimit.go:35-83 | on every on-time schedule, whatever fails: a request is refused only if INCR answered it with a number above the limit, the requests of a window hear different numbers no higher than its INCRs, one that hears a number within the limit is admitted, and one that INCR did not answer is let through |
| `RateLimit.LimitPerSpan` | internal/middleware/ratelimit.go:61-83 | if every allow is over within a second, k minutes less a second, and a tick more, of admission moments hold at most k + 1 times the limit, for every k |
| `RateLimit.LimitPerSpanOfReadings` | internal/middleware/ratelimit.go:61-83 | k minutes of clock readings, and a tick more, hold at most k + 1 times the limit |
| `RateLimit.SpanBoundIsTight` | internal/middleware/ratelimit.go:62-63 | for every limit and k a run, each allow over within a second, on which k minutes less a second, and two ticks more, see k + 2 times the limit: twice in a single tick, three times within a minute |
| `RateLimit.SpanLimitIff` | internal/middleware/ratelimit.go:61-83 | k + 1 times the limit is kept on all such runs if and only if the span is at most k minutes less the second an allow may take, to the tick |
| `RateLimit.LateIncrBreaksLimit` | internal/middleware/ratelimit.go:68-74 | INCRs at most one nanosecond later than allowed admit a second request under a limit of one |
| `RateLimit.AllowIsRun` | internal/middleware/ratelimit.go:35-83 | an uninterrupted allow is a run of the machine with the same counters and decision |
| `RateLimit.Limiter.Allow` | internal/middleware/ratelimit.go:35-83 | serves unchecked exactly if INCR did not answer, refuses exactly if the window's live count was at the limit, with the wait to the next full minute, and leaves the counter one higher, with a life of 61 s if it is new (429 is section 4 of RFC 6585) |
| `Versioning.NamesFollowVersions` | internal/repository/migrate.go:57-60 | with digit prefixes of one width, byte order of names is never against version order |
| `Versioning.NumberedNameParses` | internal/repository/migrate.go:96-100 | a name of digits, an underscore or nothing more, and the suffix stands for exactly its number if that fits in 64 bits |
| `Versioning.UnequalWidthsMisorder` | internal/repository/migrate.go:57-60 | without one width, version 10 sorts before version 2 |
| `Migrate.PlanVersions` | internal/repository/migrate.go:59-74 | dropping files that repeat a version loses no version |
| `Migrate.StepKeepsInv` | internal/repository/migrate.go:25-94 | every call of every instance, failing or not, and every lost session keeps: only the lock's owner is inside, and what has run is what the plan asks for so far |
| `Migrate.MigrationsAreSafe` | internal/repository/migrate.go:25-94 | in every run from an empty schema: one Apply at most between lock and unlock, committed SQL and recorded versions agree, no version runs twice, and what has run is a prefix of the name-sorted list without repeats |
| `Migrate.NilReturnIsFinal` | internal/repository/migrate.go:25-94 | a nil return means every name parses and the whole list has run, and no later run changes anything |
| `Migrate.LockComesFree` | internal/repository/migrate.go:32-37 | however instances end, once their sessions are over the next one to ask for the lock gets it |
| `Migrate.PlanIsNumeric` | internal/repository/migrate.go:57-60 | with digit prefixes of one width, migrations run in strictly increasing version order |
| `Migrate.Migrator.TakeLock` | internal/repository/migrate.go:32-34 | the lock is taken, again if the session has it already, unless it is held elsewhere |
| `Migrate.Migrator.Commit` | internal/repository/migrate.go:75-91 | a file's SQL and its version appear together or not at all |
| `Migrate.Migrator.ApplyFile` | internal/repository/migrate.go:59-91 | success leaves the file's version recorded; a name that does not parse changes nothing |
| `Migrate.Migrator.ApplyFiles` | internal/repository/migrate.go:59-94 | without failures the whole plan has run, and success is exactly that every name parses |
| `Migrate.Migrator.Apply` | internal/repository/migrate.go:25-94 | is a run of the machine; success means the whole plan has run; without failures success is exactly that every name parses, and the files before the first bad one have run all the same |

## Left out

- `Service.LinkService.CreateIdempotent`: apart from what others Set while it polls, one request at a time; the interleavings are in `Idempotency`, of whose machine `CreateRun.CreateIsRun` shows it to be a run when it need not wait; waiting is in `Idempotency.WaiterPollsFiveTimes`.
- `Service.LinkService.Resolve`: one request at a time; the interleavings are in `Staleness`, of whose machine `Staleness.ResolveIsRun` shows it to be a run.
- `RateLimit.AllowIsRun`: the machine reads the second clock of a refusal at the moment of the last call; `RateLimit.Limiter.Allow` takes it as a time of its own.
- `Stats.StatsByURLID`: the answers of the three queries are parameters, each constrained to what its SQL asks of some snapshot of the counters.
- `Consumer.Consumer.ProcessOnce`: one worker of the machine, with no other step between its calls; any number of workers and any interleaving are in `Analytics` and `Delivery`.
- `Consumer.Consumer.Drain`: for events whose timestamp parses; the clock's day for other events is an arbitrary value in `Analytics`.
- `ExactlyOnce.EveryEventCountsOnce`: likewise; and clicks on a link created or deleted in mid-run are in `Analytics.AtMostOnce` only.
- `Recorder.Recorder.Flush`: no push comes in between; interleaved pushes are in `Recorder.RecorderConservation`.
- `Migrate.MigrationsAreSafe`: the migration SQL is taken to be transactional and all instances to embed the same files.
- `Idempotency.AtMostOneCreator`: one Idempotency-Key, since keys share nothing but the table, whose other writers are steps of the machine.
- HTTP handlers, routing, request ids, logging, recovery, metrics: no deep state.
- `validateLongURL` and `shortURLFor`: they rest on URL parsing; a long URL is an opaque string, and the column's length check applies to it.
- Trimming of the Idempotency-Key, and the variants of the service with the cache or the idempotency store switched off (the cache calls then behave as failing ones).
- JSON of cached rows and string fields of stream entries: taken as identity round trips.
- Retries inside the database and Redis clients, connection pools and context cancellation: abstracted into how a call ends.
- Redis rounds lives to milliseconds; the model does not.
- Several clocks: the limiter, the service and Redis read one clock.
- Any purge of the consumer's claim records: the code has none, and `Analytics.AtMostOnce` relies on that.
- Other dimensions of the counters (device, country): nothing writes them.
- The consumer's outer loop, group creation and back-off; configuration and process start-up.
- Character sets: strings are sequences of characters, lengths count characters, and upper and lower case is ASCII only.
