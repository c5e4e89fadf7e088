# Proofs about a URL shortener

A Dafny model of the behaviour of a URL-shortening service (Express, Redis, PostgreSQL), with
proofs of what that behaviour keeps. `dafny verify dfyconfig.toml` checks all of it.

The service is a set of operations that share stores without a common transaction: a click
buffer in Redis and a table of clicks; a sequence, a table of URLs and an expiring cache; one
counter per client address; one deque of fork times; the partitions of one table. The proofs
are about all runs: any number of calls, every interleaving, and faults at every command.

## How it is modelled

- **Step systems.** `ClickMachine`, `UrlMachine` and `RateLimiterMachine` each define a state
  and one transition function. Each Redis command and each SQL statement is one step. An action
  that does not fit the state changes nothing, so *every* sequence of actions is a run, and a
  lemma about all sequences is a lemma about all interleavings. A reply is `Done` or a fault; a
  fault says whether the server had already carried the command out, so a COMMIT whose reply is
  lost is a case of its own. A pipeline is a sequence of separate commands, not an atomic block.
- **Objects.** The source's classes that change fields or stores are Dafny classes whose methods
  keep the source's branches, loops and catch blocks. `ClickWorld`, `UrlWorld` and
  `LimiterWorld` stand for Redis and the database as one process meets them: the world's state is
  by its invariant the result of a run, before each command the other processes take whatever
  steps a schedule says, and replies come from a script. So the lemmas about runs hold at every
  moment of every method call, and the methods' postconditions need no assumption about the
  others unless they say so (`Alone`, `Calm`).
- **Modules.** `Base62`, `Decimal`, `WhiteSpace` and `ClickEvents` are about text; `ClickLedger`,
  `ClickDelivery`, `ClickGuarantees`, `ClickLiveness`, `ClickAgreement`, `ClickOccupancy` and
  `ClickCounters` about runs of the click pipeline; `FlushWorkers` and `AnalyticsServices` are its
  objects; `UrlInvariants`, `UrlTheorems` and `UrlServices` the same for URLs; `RateLimiterQuotas`,
  `RateLimiterArrivals` and `RateLimiters` for the limiter.
  `ClusterManagers`, `Calendar`, `Partitions`, `MigrationRunners` and `InputSanitizer` stand alone.

## What is proved

1. **Click pipeline.** A conservation ledger over every run; the exact condition under which a
   reply loses events, and seven causes that are the only ones; duplicates arise only behind a
   statement that took effect although it reported an error; at-least-once delivery exactly when no
   fault drops an unstored event, and every state can still come to rest; an occupancy bound that
   survives the unguarded check-then-push; progress of the flush under any failures, and exactly
   which error codes put a batch back; what of a click is pushed and stored, field by field;
   agreement of the real-time counters with the events pushed, and exactly when two visitors count
   as one.
2. **URL service.** The cached system refines plain table lookup in every interleaving;
   identifiers and aliases never repeat; a returned alias resolves for ever; the outcome of a call
   says exactly what it left in the table; every pool client is returned.
3. **Base62.** Round trips both ways, shortlex order, exact length bands.
4. **Cluster manager.** The purged deque holds exactly the forks of the full history in the last
   minute, so no closed minute of any run holds more than workerCount + 5 forks.
5. **Rate limiter.** Counts within one key lifetime have no gap or repeat; any interval of one
   window length passes at most twice the maximum; an answered API request is counted twice and any
   other once, so at most half the maximum of API requests pass on counts of one lifetime.
6. **Migrations.** The seven monthly ranges tile their span across the turn of a year; runs in one
   zone never fail or overlap; over any history of runs in any zones, exactly when a run goes
   through and exactly when it leaves no instant of its months without a partition.
7. **Request sanitising.** It succeeds exactly when no path has more than ten edges, and then
   keeps the shape.

## Where the code and its documentation differ

The model follows the code.

- README.md:131 promises at-least-once delivery. `TransientConnectFailureLosesTheClick` gives a run
  in which a connection failure with a code on the worker's own transient list loses a click.
  `DeliveredExactly` and `AtLeastOnceExactly` say when the promise holds, in terms of the faults of
  the run's steps: `CauseOf` names the faults, `AtStake` the events each puts at risk.
- README.md:228-237 says that the on-demand consumer re-queues on transient errors only, so that no
  corrupt record can block it. The code re-queues on every error; `UnbindableForever`
  shows that no series of calls granted a client ever gets rid of a parseable event it cannot bind,
  and `RemovedExactly` when a call does remove an event.
- The fingerprint at src/services/analytics/analyticsService.ts:63-64 is meant to tell unique visitors
  apart. `FingerprintsEqualExactly` and `VisitorCounts` say exactly when it does.
- README.md:55 names a fork threshold of 5; the code uses workerCount + 5.
- README.md:113 and specifications.md:312 describe inserting a placeholder alias and updating it;
  the code takes the id from the sequence and inserts once.
- The comment at src/middleware/rate_limiter/index.ts:21 says EXPIRE is sent when the count is 1;
  the code always sends EXPIRE NX.
- The comment at src/database/postgres/pool_schema_manager/schema/schema_manager.sql:37 speaks of
  twelve months; the script makes nine, with UTC bounds, while the runner uses the host's zone.
  `RunAfterScript` says which runs fail because of it, `MarchRunFails` names one, and
  `CoverageAfterScript` says which of the others leave hours without a partition.
- shortenUrl returns an alias for every id, but the redirect route
  (src/routes/shortener.ts:21) refuses those of fewer than four characters. `BigserialAliases` says
  which: exactly the ids below 62^3.

## Model

| member | source | states |
|---|---|---|
| Base62.IndexOf | src/utils/hashing/aliasGenerator.ts:60-61 | The scan of the charset finds the digit a character stands for, and -1 exactly for characters outside it |
| Base62.GenerateAlias | src/utils/hashing/aliasGenerator.ts:22-46 | The encoding loop yields the canonical alias of every non-negative id and rejects exactly the negative ones |
| Base62.DecodeAlias | src/utils/hashing/aliasGenerator.ts:56-69 | The decoding loop yields the value of every string of base62 digits and rejects exactly the others |
| Base62.GenerateObfuscatedAlias | src/utils/hashing/aliasGenerator.ts:79-81 | The result decodes to id + offset; it throws exactly when that sum is negative |
| Base62.DecodeOfEncode | src/utils/hashing/aliasGenerator.ts:22-69 | Decoding undoes encoding for every id |
| Base62.EncodeInjective | src/utils/hashing/aliasGenerator.ts:13-22 | Different ids never share an alias |
| Base62.EncodeOfDecode | src/utils/hashing/aliasGenerator.ts:56-69 | Encoding the value of any non-empty valid string gives that string without leading zeros |
| Base62.OrderPreserved | src/utils/hashing/aliasGenerator.ts:7-11 | m < n exactly when m's alias is shorter, or as long and earlier in charset order |
| Base62.AliasLength | src/utils/hashing/aliasGenerator.ts:31-45 | An alias has k characters exactly when the id lies in [62^(k-1), 62^k) |
| Base62.BigserialAliases | src/routes/shortener.ts:21 | Every id of a BIGSERIAL column needs at most 11 characters, and its alias meets the route's 4-to-64 rule exactly from 62^3 on |
| Base62.RouteAcceptsExactly | src/routes/shortener.ts:21 | The route accepts exactly the texts of 4 to 64 characters of the charset |
| Decimal.ParseOfText | src/services/url/urlService.ts:68-70 | An id written as decimal text reads back as itself, as the cache needs |
| Decimal.NumberOfPadded | src/database/postgres/pool_schema_manager/migrations/migrationRunner.js:87 | A month padded to two digits has two characters and reads back as itself |
| WhiteSpace.SpacesExactly | src/middleware/security/securityMiddleware.ts:35 | What counts as white space, by code point, as ECMA-262 has it |
| WhiteSpace.TrimExactly | src/middleware/security/securityMiddleware.ts:35 | Trimming takes off the white space around a text and nothing else |
| WhiteSpace.TrimTakes | src/middleware/security/securityMiddleware.ts:35 | Every text is its trimmed text between two stretches of white space |
| ClickEvents.StripTagsExactly | src/workers/analyticsFlushWorker.ts:47 | A tag reaches from its '<' to the next '>', or to the end; everything before it stays, and what follows is stripped in turn |
| ClickEvents.DropAnglesExactly | src/services/analytics/analyticsService.ts:36 | The producer's replacement drops angle brackets character by character and keeps all else in order |
| ClickEvents.SanitizersExactly | src/workers/analyticsFlushWorker.ts:44-48 | On text without angle brackets both sanitisers drop the white space around it and then keep its first 512 characters |
| ClickEvents.SanitizersNormalize | src/workers/analyticsFlushWorker.ts:44-48 | Both sanitisers produce at most 512 characters, no '<', and no leading white space, whatever the input |
| ClickEvents.SanitizeNormal | src/workers/analyticsFlushWorker.ts:44-48 | On normal text the worker's sanitiser only trims the right end, and trimming twice is trimming once |
| ClickEvents.SanitizeSettles | src/workers/analyticsFlushWorker.ts:44-48 | A second application removes at most trailing white space, a third changes nothing |
| ClickEvents.StoredTextIsBufferedText | src/services/analytics/analyticsService.ts:34-37 | What the worker stores of a text the producer cleaned is that text right-trimmed |
| ClickAgreement.PushedEventsAreWellFormed | src/services/analytics/analyticsService.ts:43-76 | In every run each event a producer has pushed for a decimal url id passes the worker's check, and no copy of it is discarded |
| ClickEvents.EachFieldChecked | src/workers/analyticsFlushWorker.ts:50-58 | Validation fails without any one of the five fields, or with null in its place, and ignores every other field |
| ClickEvents.FieldValuesChecked | src/workers/analyticsFlushWorker.ts:50-58 | Which values each of the five fields may hold, both ways |
| ClickEvents.CleanableExactly | src/services/analytics/analyticsService.ts:34-37 | Which values the on-demand consumer's sanitiser accepts without throwing, both ways |
| ClickAgreement.PushAppendsClickText | src/services/analytics/analyticsService.ts:48-76 | A producer's push appends an object with the request's own id, timestamp, address, cleaned user agent and cleaned referer under those names |
| ClickAgreement.WorkerStoresClick | src/workers/analyticsFlushWorker.ts:112-125 | Of such a click the worker's statement stores, under the columns it names, the same values with the two texts right-trimmed |
| ClickAgreement.ServiceStoresClick | src/services/analytics/analyticsService.ts:110-124 | The on-demand consumer's statement stores the same |
| ClickEvents.StoredExactly | src/workers/analyticsFlushWorker.ts:125 | The statement names url_id, timestamp, ip_address, user_agent and referer for the values of a row in this order |
| ClickEvents.PayloadInjective | src/services/analytics/analyticsService.ts:68-74 | The pushed text determines the event |
| ClickEvents.ValidInvalidPartition | src/workers/analyticsFlushWorker.ts:95-106 | Validation splits a batch: each event is kept or discarded, with its multiplicity |
| ClickEvents.QueryReferences | src/workers/analyticsFlushWorker.ts:112-125 | Read back from its text, the INSERT for n events refers to parameters 1..5n in order |
| ClickEvents.BulkInsertBindsRows | src/services/analytics/analyticsService.ts:110-124 | Binding the text and the flat parameters rebuilds exactly the rows they were made from, in order |
| ClickEvents.BulkInsertRebuildsRows | src/workers/analyticsFlushWorker.ts:92-128 | For any raw batch, the statement stores one row per valid event, in order, with that event's own five columns |
| ClickEvents.MalformedEventsAffectNoRow | src/workers/analyticsFlushWorker.ts:95-106 | Removing a malformed event from anywhere in a batch leaves the rows of the others as they were |
| ClickLedger.StepBalanced | src/workers/analyticsFlushWorker.ts:60-152 | Every command of every process, with every reply, takes up as many copies of an event as it puts down |
| ClickLedger.NextKeepsLedger | src/services/analytics/analyticsService.ts:42-134 | Every action keeps the ledger: pushed plus pushed-back copies equal buffer, hands, table, discarded and lost |
| ClickLedger.Conservation | src/workers/analyticsFlushWorker.ts:60-152 | The ledger balances after every run, for every event, under all interleavings and faults |
| ClickLedger.ConservationOfEvents | src/workers/analyticsFlushWorker.ts:60-152 | After every run, as multisets of events: pushed + pushed back although stored = buffer + in hand + inserted + discarded + lost |
| ClickDelivery.LossExactlyByCause | src/workers/analyticsFlushWorker.ts:132-148 | A reply loses events exactly when one of seven causes strikes and a well-formed, unstored event is at stake |
| ClickDelivery.EveryLossHasACause | src/workers/analyticsFlushWorker.ts:60-152 | Every lost event was lost in a step of the run where one of those causes struck |
| ClickDelivery.LosesNothingExactly | src/workers/analyticsFlushWorker.ts:60-152 | A run loses nothing exactly when none of its steps drops such an event |
| ClickDelivery.NoDoublingNoCopies | src/workers/analyticsFlushWorker.ts:129-146 | Unless a statement took effect behind an error, no stored event is ever pushed back |
| ClickDelivery.DoublesAtExactly | src/workers/analyticsFlushWorker.ts:129-144 | The steps meant: a COMMIT that took effect behind one of four codes, or an on-demand INSERT of a bindable batch that took effect behind any code |
| ClickDelivery.AtMostOnce | src/workers/analyticsFlushWorker.ts:129-146 | Unless a statement took effect behind an error, no event is stored more often than it was pushed |
| ClickDelivery.RunSorted | src/workers/analyticsFlushWorker.ts:95-106 | Only malformed events are discarded and only well-formed ones are lost |
| ClickDelivery.ExactlyOnceWithoutFaults | src/workers/analyticsFlushWorker.ts:60-152 | A run with none of those faults that comes to rest stores every well-formed event exactly as often as it was pushed |
| ClickGuarantees.StoredCount | src/workers/analyticsFlushWorker.ts:60-152 | Once a run is at rest, a well-formed event is in the table as often as pushed, plus once for each step that pushed it back although stored, less once for each step whose fault dropped it |
| ClickGuarantees.DeliveredExactly | src/workers/analyticsFlushWorker.ts:60-152 | For every run at rest: delivery is at least once exactly when no event is dropped by more steps than push it back although stored, at most once exactly when the reverse holds |
| ClickGuarantees.NothingDroppedDelivers | src/workers/analyticsFlushWorker.ts:60-152 | If no step drops a well-formed, unstored event, delivery is at least once, whatever was stored twice |
| ClickGuarantees.AtLeastOnceExactly | src/workers/analyticsFlushWorker.ts:127-148 | Unless a statement took effect behind an error, delivery is at least once exactly when no step's fault drops a well-formed, unstored event; it is then exactly once |
| ClickDelivery.TransientConnectFailureLosesTheClick | README.md:131 | At-least-once fails: a connection failure with transient code 08006 leaves the click nowhere |
| ClickGuarantees.DoublingRequeues | src/workers/analyticsFlushWorker.ts:129-144 | A hidden COMMIT with a transient code leaves the valid events in the table and leads to the re-queue loop exactly when ROLLBACK succeeds; a hidden on-demand INSERT leaves the whole batch in the table and always leads there |
| ClickGuarantees.LoopCopies | src/workers/analyticsFlushWorker.ts:142-144 | Such a loop copies each stored event of its batch: the worker's the well-formed ones, the on-demand one all |
| ClickGuarantees.HiddenCommitStoresTwice | src/workers/analyticsFlushWorker.ts:129-146 | A run with one hidden COMMIT stores one click twice |
| ClickLiveness.RestIsReachable | src/workers/analyticsFlushWorker.ts:60-152 | With a worker and a positive batch size, ticks and successful commands lead from every reachable state to rest, losing nothing unless a persistent error is already being rolled back |
| ClickLiveness.DeliveryIsReachable | src/workers/analyticsFlushWorker.ts:60-152 | If no step has dropped an event and none is condemned, fault-free steps lead to a state at rest where delivery is at least once |
| ClickOccupancy.HandsBounded | src/workers/analyticsFlushWorker.ts:66-80 | At every moment all consumers together hold at most a batch for each worker and what the on-demand calls then running may still hold |
| ClickOccupancy.NextOccupancy | src/services/analytics/analyticsService.ts:54-76 | An action adds to buffer, pending producers and hands only from outside or while the buffer is below its limit |
| ClickOccupancy.OccupancyBound | src/services/analytics/analyticsService.ts:54-76 | With at most P producers past their check and on-demand calls of at most Q events running at any one time, buffer + pending + hands never exceeds MAX_BUFFER_SIZE - 1 + P + Q + a batch for each worker + foreign pushes |
| ClickCounters.ClickTotals | src/services/analytics/analyticsService.ts:60-79 | A URL's click total is always the events pushed, plus the producers past HINCRBY, plus those that failed after it |
| ClickCounters.PushedEventsAreVisitors | src/services/analytics/analyticsService.ts:63-76 | The fingerprint of every pushed event is in a visitor set of its URL |
| ClickCounters.FingerprintsEqualExactly | src/services/analytics/analyticsService.ts:64 | Two visitors share a fingerprint exactly when they are the same, or one address continues the other behind a colon and the other user agent starts with that continuation and a colon |
| ClickCounters.FingerprintInjective | src/services/analytics/analyticsService.ts:64 | Without a colon in the addresses a fingerprint determines address and user agent |
| ClickCounters.FingerprintCount | src/services/analytics/analyticsService.ts:63-65 | Distinct fingerprints are at most the distinct (address, user agent) pairs, and as many exactly when no two different pairs share one |
| ClickCounters.VisitorCounts | src/services/analytics/analyticsService.ts:63-65 | In every reachable state a visitor set is at most as large as the number of distinct pairs counted, and as large exactly when no two of them share a fingerprint, so always when no address has a colon |
| ClickCounters.CollisionUndercounts | src/services/analytics/analyticsService.ts:53-65 | Any two different visitors with one fingerprint, tracked on one day, leave a visitor set of one member |
| ClickCounters.Ipv6VisitorsUndercounted | src/services/analytics/analyticsService.ts:64 | Two IPv6 clients are such a pair |
| ClickWorlds.ClickWorld.LedgerHolds | src/workers/analyticsFlushWorker.ts:60-152 | The ledger balances at every moment of every call of the objects below |
| FlushWorkers.AnalyticsFlushWorker.PopBatch | src/workers/analyticsFlushWorker.ts:66-80 | The pipeline takes the first B events off the list in order; under faults what it returns is what the process holds |
| FlushWorkers.AnalyticsFlushWorker.Flush | src/workers/analyticsFlushWorker.ts:60-90 | A second call while running changes nothing; the flag and the client are restored on every path; undisturbed, the list and the table become exactly what the database's replies imply |
| FlushWorkers.AnalyticsFlushWorker.ParseBatch | src/workers/analyticsFlushWorker.ts:93-106 | The loop keeps exactly the valid events, in order |
| FlushWorkers.AnalyticsFlushWorker.PersistBatch | src/workers/analyticsFlushWorker.ts:92-152 | A batch with nothing valid, or without a client, stores nothing; otherwise rows and re-queue follow the transaction's outcome, and the client is released |
| FlushWorkers.AnalyticsFlushWorker.StoreOrRequeue | src/workers/analyticsFlushWorker.ts:127-148 | The raw batch goes back to the list exactly when the first error is transient and ROLLBACK succeeds; the valid rows are in the table exactly when COMMIT took effect |
| FlushWorkers.AnalyticsFlushWorker.StoreBatch | src/workers/analyticsFlushWorker.ts:112-129 | BEGIN, a statement that binds to the rows of the valid events, COMMIT; the first error ends the sequence |
| FlushWorkers.AnalyticsFlushWorker.Requeue | src/workers/analyticsFlushWorker.ts:142-144 | Undisturbed, the raw batch is appended to the list in order |
| FlushWorkers.AnalyticsFlushWorker.Stop | src/workers/analyticsFlushWorker.ts:159-167 | With no flush running and a healthy database exactly max(0, n - B) events are left |
| FlushWorkers.FlushRotatesOrShortens | src/workers/analyticsFlushWorker.ts:138-148 | A transient failure rotates the list by min(B, n) and keeps every event; any other flush shortens it by min(B, n) |
| FlushWorkers.VerdictDecidesStorage | src/workers/analyticsFlushWorker.ts:127-148 | A flush that counts as stored stored all valid events; any other stored none, unless COMMIT took effect behind an error |
| FlushWorkers.FailedFlushExactly | src/workers/analyticsFlushWorker.ts:127-148 | Whichever statement fails first and with whatever code: the batch goes back exactly when it holds a valid event, ROLLBACK succeeds and the code is 08001, 08003, 08006 or 57P01; its rows are stored exactly when the failing COMMIT took effect |
| FlushWorkers.OtherFlushesExactly | src/workers/analyticsFlushWorker.ts:110-131 | Without an error the batch leaves the list and its valid events are stored; without a client it leaves the list and nothing is |
| FlushWorkers.RequeuedCodesExactly | src/workers/analyticsFlushWorker.ts:133-147 | In any run, after a successful ROLLBACK exactly those four codes lead to the re-queue loop |
| FlushWorkers.Progress | src/workers/analyticsFlushWorker.ts:60-152 | After any series of flushes the length is max(0, n - s * B) for s non-rotating ones; with s = 0 the events are all still there |
| FlushWorkers.EmptiedByCeiling | src/workers/analyticsFlushWorker.ts:60-152 | ceil(n / B) non-rotating flushes empty the list, so poison events cannot loop |
| AnalyticsServices.AnalyticsService.TrackClick | src/services/analytics/analyticsService.ts:42-80 | An invalid address changes nothing; at 10000 events the click is dropped before it is counted; undisturbed, it is counted, its visitor recorded, and the five-field text of the request appended to the list |
| AnalyticsServices.AnalyticsService.ProcessBufferedClicks | src/services/analytics/analyticsService.ts:89-134 | Undisturbed: which events leave the list, which rows are added, and exactly when the call rejects; the client is released on every path |
| AnalyticsServices.AnalyticsService.DrainBuffer | src/services/analytics/analyticsService.ts:93-104 | The loop takes events in order up to the size, an empty list or an empty string, and drops unparseable ones |
| AnalyticsServices.AnalyticsService.InsertOrRequeue | src/services/analytics/analyticsService.ts:109-133 | The batch is pushed back exactly when binding or the INSERT fails; its rows are in the table exactly when the INSERT took effect |
| AnalyticsServices.AnalyticsService.InsertBatch | src/services/analytics/analyticsService.ts:110-124 | The statement binds to the batch's own rows in order; nothing is sent when a value cannot be sanitised |
| AnalyticsServices.RemovedExactly | src/services/analytics/analyticsService.ts:89-134 | For any list and size: a call removes a parseable event exactly when it takes it and either gets no client or stores the batch |
| AnalyticsServices.UnbindableEventsReturn | src/services/analytics/analyticsService.ts:125-130 | For any list and size: a call that is granted a client leaves every copy of an event it cannot bind |
| AnalyticsServices.UnbindableForever | src/services/analytics/analyticsService.ts:89-134 | No series of such calls ever removes it |
| AnalyticsServices.UnbindableBlocks | src/services/analytics/analyticsService.ts:109-130 | A call that takes it stores nothing |
| ClickAgreement.UnbindableNeverStored | src/services/analytics/analyticsService.ts:109-130 | In every run, under any interleaving and faults, an event that cannot be bound is never in the table |
| ClickAgreement.NullComesBack | src/services/analytics/analyticsService.ts:98-130 | A run with the JSON text null and one undisturbed on-demand call, which leaves the list as it was |
| ClickAgreement.CountExactly | src/services/analytics/analyticsService.ts:60 | HINCRBY adds one to the URL's clicks and touches nothing else |
| ClickAgreement.VisitExactly | src/services/analytics/analyticsService.ts:63-65 | SADD adds the address, a colon and the user agent to the URL's set of the day and touches nothing else |
| ClickAgreement.PopAndPushExactly | src/workers/analyticsFlushWorker.ts:66-70 | LPOP takes the head of the list into the consumer's hands; a re-queue appends the batch head first |
| ClickAgreement.StoreExactly | src/workers/analyticsFlushWorker.ts:127-129 | COMMIT makes the well-formed events of the batch durable in order; the on-demand INSERT all events or, if one cannot be bound, none |
| ClickAgreement.FaultsExactly | src/workers/analyticsFlushWorker.ts:129-138 | A failed command leaves list, table and counters as a successful one does if it was carried out, and as they were if not |
| UrlMachine.DecodeOfEncode | src/services/url/urlService.ts:61-70 | A cached record reads back as itself, its bigint id included |
| UrlInvariants.NextKeepsInv | src/services/url/urlService.ts:36-140 | Every step of every call keeps: fresh ids, alias = encoding of id, one author a row, readable cache entries backed by committed rows, live slots within 24 hours |
| UrlInvariants.Reachable | src/services/url/urlService.ts:36-140 | All of that holds in every reachable state: under any interleaving, faults, expiry and corruption |
| UrlInvariants.ClientsAccounted | src/services/url/urlService.ts:37-80 | Clients checked out are exactly the calls between connect and release, also when ROLLBACK throws |
| UrlTheorems.IdsAndAliasesUnique | src/services/url/urlService.ts:41-57 | Ids never repeat over concurrent and rolled-back calls; every row's alias is its id's and decodes to it; no INSERT meets a taken id or alias |
| UrlTheorems.InsertNeverConflicts | src/services/url/urlService.ts:49-55 | An INSERT about to be sent conflicts neither with a committed row nor with another call's uncommitted one |
| UrlTheorems.SequenceExactly | src/services/url/urlService.ts:42 | nextval gives the next value up to 2^63 - 1 and fails from there on |
| UrlTheorems.CacheRefinesTable | src/services/url/urlService.ts:87-103 | In every reachable state a readable cache hit agrees with the table on id, alias, URL and owner |
| UrlTheorems.HitExactly | src/services/url/urlService.ts:88-107 | A GET that is answered ends the call with the record of a live entry, without a SELECT; an absent, expired or garbled entry, or a GET that fails, leads to the SELECT |
| UrlTheorems.SetLeavesEntry | src/services/url/urlService.ts:61-70 | Either SET leaves a live entry of the row's own id, alias, URL and owner for 86400 seconds |
| UrlTheorems.UniqueIndexExactly | src/services/url/urlService.ts:49-55 | An INSERT goes through exactly when no row has its id or alias |
| UrlTheorems.ResolveIsTableLookup | src/services/url/urlService.ts:87-140 | Every resolve that does not throw returns what a table lookup returned at some moment between its start and its answer |
| UrlTheorems.FoundWasInTable | src/services/url/urlService.ts:87-134 | A record a resolve has found was, at a moment before the answer, a row of the alias with its id, URL and owner |
| UrlTheorems.AbsentWasNotInTable | src/services/url/urlService.ts:114-116 | When a resolve has found nothing, there was a moment before the answer without a row of the alias |
| UrlTheorems.RowsOnlyGrow | src/services/url/urlService.ts:49-57 | Committed rows stay, in order, in every continuation |
| UrlTheorems.ReturnedAliasResolvesForever | src/services/url/urlService.ts:36-140 | An alias that shortenUrl returned resolves to its URL and owner in every later resolve that does not throw |
| UrlTheorems.WriteOutcome | src/services/url/urlService.ts:36-81 | Each call commits at most one row, exactly when its phase says so; a failure before COMMIT leaves none, one after it leaves a row that resolves |
| UrlTheorems.FaultsExactly | src/services/url/urlService.ts:37-80 | A failed command leaves sequence, table and cache as a successful one does if it was carried out, and as they were if not |
| UrlServices.UrlService.ShortenUrl | src/services/url/urlService.ts:36-81 | The call returns an alias exactly when its process ends so; the alias then looks up the URL and owner it was given, and a live cache entry says the same for 86400 seconds; without faults it returns |
| UrlServices.UrlService.StoreAndCache | src/services/url/urlService.ts:38-80 | The try, catch and finally blocks: returns only after COMMIT and the cache SET; every other path rolls back and releases |
| UrlServices.UrlService.WarmCache | src/services/url/urlService.ts:61-70 | An answered SET leaves the entry of this row, an error leads to the catch block with the row committed |
| UrlServices.UrlService.StoreRow | src/services/url/urlService.ts:39-57 | Either the first error leads to the catch block, or a row with this URL and owner is committed |
| UrlServices.UrlService.ResolveUrl | src/services/url/urlService.ts:87-140 | Undisturbed: a live entry is returned and no SELECT is sent; with nothing to use the SELECT decides, its row is returned as it is and cached for 86400 seconds; it throws only when the SELECT fails; in any run a record it returns agrees with the table |
| UrlServices.UrlService.QueryTable | src/services/url/urlService.ts:109-139 | It throws exactly when the SELECT fails; undisturbed, null means no row and a record is some row of the alias, cached when the SET is answered |
| ClusterManagers.SinceTwice | src/bootstrap/cluster/clusterManager.ts:91-97 | Purging an already purged history is purging the history |
| ClusterManagers.SinceDropHead | src/bootstrap/cluster/clusterManager.ts:93-95 | Shifting an expired head leaves the entries of the window as they were |
| ClusterManagers.AllowedForkKeepsSpacing | src/bootstrap/cluster/clusterManager.ts:78-97 | A fork the guard allows keeps any two forks within a minute fewer than the limit apart, even if the clock moves between check and record |
| ClusterManagers.AnyWindow | src/bootstrap/cluster/clusterManager.ts:91-97 | A spaced history has at most the limit in every closed interval of 60000 ms |
| ClusterManagers.CountExactly | src/bootstrap/cluster/clusterManager.ts:91-97 | What the window bound counts is the number of forks whose time lies in the interval |
| ClusterManagers.SinceExactly | src/bootstrap/cluster/clusterManager.ts:91-97 | What the guard compares is the number of forks from that time on |
| ClusterManagers.TotalForks | src/bootstrap/cluster/clusterManager.ts:78-97 | Over any stretch the forks are at most the limit times the started minutes |
| ClusterManagers.ClusterManager.constructor | src/bootstrap/cluster/clusterManager.ts:25-53 | workerCount is the configured one, else the cores capped at 4; the guard starts consistent |
| ClusterManagers.ClusterManager.Start | src/bootstrap/cluster/clusterManager.ts:59-76 | The initial burst never trips the guard and leaves exactly workerCount workers |
| ClusterManagers.ClusterManager.ForkWorker | src/bootstrap/cluster/clusterManager.ts:78-89 | It forks nothing when shutting down, and otherwise halts exactly when the full history has workerCount + 5 forks in the last minute |
| ClusterManagers.ClusterManager.IsForkBombing | src/bootstrap/cluster/clusterManager.ts:91-97 | The head-only purge leaves exactly the forks of the full history at or after now - 60000, and the answer is about those |
| ClusterManagers.ClusterManager.HandleWorkerExit | src/bootstrap/cluster/clusterManager.ts:99-104 | A lost worker is replaced unless shutting down; it keeps live + unreported exits at workerCount |
| ClusterManagers.ClusterManager.HandleSignal | src/bootstrap/cluster/clusterManager.ts:106-127 | The first signal sets the flag, sends each living worker one message and starts the analytics worker's stop, or the timer when there is none; later signals change nothing |
| ClusterManagers.ClusterManager.StopHasSettled | src/bootstrap/cluster/clusterManager.ts:118-132 | Whether the stop resolves or rejects, the timer is set |
| ClusterManagers.ClusterManager.TimeoutReached | src/bootstrap/cluster/clusterManager.ts:129-132 | The timer ends the primary with code 0 |
| ClusterManagers.ClusterManager.EventLoop | src/bootstrap/cluster/clusterManager.ts:70-133 | Over any sequence of deaths, exit events, signals, settled stops and timeouts the invariant and the window bound hold, after the first signal nothing is forked, and the primary ends with code 0 exactly in a shutdown |
| ClusterManagers.ClusterManager.NoForkBomb | src/bootstrap/cluster/clusterManager.ts:52-53 | At any time of any run no closed minute holds more than workerCount + 5 forks |
| RateLimiterQuotas.StepCounter | src/middleware/rate_limiter/index.ts:34-51 | Every command keeps the counter sound: counts step by one or restart, lifetimes last a window and do not overlap |
| RateLimiterQuotas.Reachable | src/middleware/rate_limiter/index.ts:25-75 | In every reachable state the counter is sound, each limiter call has incremented at most once, and the counts requests hold are their own |
| RateLimiterQuotas.CountsAreGapless | src/middleware/rate_limiter/index.ts:34-42 | The n-th count of a lifetime is n, and exactly min(n, MAX) of the first n are within the quota |
| RateLimiterQuotas.QuotaPerLifetime | src/middleware/rate_limiter/index.ts:34-67 | In every reachable state each lifetime has exactly min(n, MAX) of its n counts within the quota |
| RateLimiterQuotas.NeighbouringLifetimes | src/middleware/rate_limiter/index.ts:34-51 | Counts at most a window apart are from one lifetime or two neighbouring ones |
| RateLimiterQuotas.QuotaPerInterval | src/middleware/rate_limiter/index.ts:34-69 | Any interval of one window length has at most 2 * MAX counted passes |
| RateLimiterQuotas.UsedTwice | src/bootstrap/main/server.ts:47 | k requests that reached their handler on two counts of one lifetime used 2k different counts |
| RateLimiterQuotas.DoubleMountHalvesQuota | src/routes/shortener.ts:27-57 | At most floor(MAX / 2) such requests per lifetime, under any interleaving |
| RateLimiterArrivals.CountedAsMounted | src/bootstrap/main/server.ts:47 | In every run, a request whose commands are answered and that has reached its handler was counted once, and a second time exactly when it goes to an API route |
| RateLimiterArrivals.ApiQuota | src/routes/shortener.ts:27-57 | At most floor(MAX / 2) requests that arrive for an API route and are answered reach their handler in one lifetime, whatever fails for others |
| RateLimiterArrivals.OneApiRequest | src/routes/shortener.ts:27 | A single API request with every command answered reaches its handler on counts 1 and 2 of the first lifetime |
| RateLimiterArrivals.FaultsExactly | src/middleware/rate_limiter/index.ts:34-51 | A failed command leaves the key as a successful one does if it was carried out, and as it was if not |
| RateLimiterArrivals.IncrementExactly | src/middleware/rate_limiter/index.ts:35 | INCR starts a new lifetime at 1 without a key or from its deadline on, and otherwise adds one |
| RateLimiterArrivals.ExpireExactly | src/middleware/rate_limiter/index.ts:36-50 | EXPIRE NX gives a missing deadline a window away and keeps any other; the fallback always sets one |
| RateLimiterArrivals.TtlExactly | src/middleware/rate_limiter/index.ts:37 | TTL answers -2 without a key, -1 without a deadline, otherwise the time left |
| RateLimiterArrivals.LostDeadlineRepaired | src/middleware/rate_limiter/index.ts:48-51 | A first count whose EXPIRE NX never arrives makes the limiter set the deadline itself |
| RateLimiterArrivals.PassingInExactly | src/middleware/rate_limiter/index.ts:64-69 | What the interval bound counts is the number of counts within the quota given in the interval |
| RateLimiters.RateLimiter.Pipeline | src/middleware/rate_limiter/index.ts:34-42 | Results carry the count of the request's own stamp; a TTL is at most a window; undisturbed, the count is one more than the lifetime's |
| RateLimiters.RateLimiter.Limit | src/middleware/rate_limiter/index.ts:25-75 | Status 429 exactly when counted above MAX and answered; remaining and limit add up; reset is in the future by at most a window and, undisturbed, the end of the lifetime; retry_after is the time left until reset; every failure lets the request pass without headers |
| RateLimiters.RateLimiter.Expire | src/middleware/rate_limiter/index.ts:48-51 | After the fallback EXPIRE the decision goes by the request's own count; its failure lets the request pass |
| RateLimiters.LimiterWorld.QuotasHold | src/middleware/rate_limiter/index.ts:25-75 | Both quotas hold at every moment of every call |
| Calendar.YearLength | src/database/postgres/pool_schema_manager/migrations/migrationRunner.js:84-85 | The closed-form day count of ECMAScript dates agrees with the leap-year rule for every year |
| Calendar.MonthsFollow | src/database/postgres/pool_schema_manager/migrations/migrationRunner.js:84-85 | Each month begins one month's length after the one before, also from December into January |
| Calendar.StartsApart | src/database/postgres/pool_schema_manager/migrations/migrationRunner.js:84-89 | In any zone a month begins at least 26 days before any later one |
| Calendar.Epoch | src/database/postgres/pool_schema_manager/migrations/migrationRunner.js:84-89 | January 1970 begins at instant 0 in UTC |
| Partitions.CreateAgain | src/database/postgres/pool_schema_manager/migrations/migrationRunner.js:91-95 | A statement repeated after it took effect changes nothing |
| Partitions.CreateExactly | src/database/postgres/pool_schema_manager/migrations/migrationRunner.js:91-94 | A taken name is skipped whatever its range; a new one is made exactly when its range is not empty and shares no instant with a partition, and otherwise fails with 42P17 |
| Partitions.NoInstantTwice | src/database/postgres/pool_schema_manager/migrations/migrationRunner.js:91-94 | In a disjoint schema no instant has two partitions |
| Partitions.NamesInjective | src/database/postgres/pool_schema_manager/migrations/migrationRunner.js:87 | No two months share a table name |
| Partitions.Contiguous | src/database/postgres/pool_schema_manager/migrations/migrationRunner.js:84-93 | Each range ends where the next begins |
| Partitions.MonthsDisjoint | src/database/postgres/pool_schema_manager/migrations/migrationRunner.js:84-93 | Ranges of different months in one zone never overlap |
| Partitions.Tiling | src/database/postgres/pool_schema_manager/migrations/migrationRunner.js:83-93 | Every instant in the span of n consecutive months lies in exactly one month's range |
| Partitions.CreateWhen | src/database/postgres/pool_schema_manager/migrations/migrationRunner.js:91-94 | A statement for a month that exists is skipped; for a new month it succeeds exactly when no existing range overlaps |
| Partitions.AnyRuns | src/database/postgres/pool_schema_manager/migrations/migrationRunner.js:80-97 | In one zone no statement of any runs ever fails, the schema holds exactly the named months with their own ranges, and all are disjoint |
| Partitions.ScriptRanges | src/database/postgres/pool_schema_manager/schema/schema_manager.sql:41-66 | The model's ranges of the nine months are, as instants, the bounds the script writes |
| Partitions.ScriptNames | src/database/postgres/pool_schema_manager/schema/schema_manager.sql:41-66 | The model's names of the nine months are the names the script writes |
| Partitions.ScriptMade | src/database/postgres/pool_schema_manager/schema/schema_manager.sql:41-66 | Running the script is running the model's statements for its months in UTC |
| Partitions.AnyHistory | src/database/postgres/pool_schema_manager/migrations/migrationRunner.js:80-97 | Whatever statements of whatever runs in whatever zones came before, the schema holds a set of months, each with the range it has in the zone it was made in |
| Partitions.StatementExactly | src/database/postgres/pool_schema_manager/migrations/migrationRunner.js:84-94 | Over any such schema a statement skips a month that is there and makes a new one exactly when that fits between the neighbours there |
| Partitions.RunExactly | src/database/postgres/pool_schema_manager/migrations/migrationRunner.js:80-97 | Over any such schema a run goes through exactly when each month it has to make fits between the neighbours that were there before |
| Partitions.RunCoversExactly | src/database/postgres/pool_schema_manager/migrations/migrationRunner.js:80-97 | Each instant of the months such a run names has a partition afterwards exactly when the partitions, old and new, leave no gap at any turn of the span |
| Partitions.SecondZoneRun | src/database/postgres/pool_schema_manager/migrations/migrationRunner.js:80-97 | Over months a to b - 1 made in one zone, a run in another zone from any month m over n months goes through exactly when first(a) <= second(a) if it makes month a - 1, and second(b) <= first(b) if it makes month b |
| Partitions.SecondZoneCovers | src/database/postgres/pool_schema_manager/migrations/migrationRunner.js:80-97 | It then covers its months exactly when second(a) <= first(a) if it names month a, and first(b) <= second(b) if it names month b - 1 |
| Partitions.ZoneGap | src/database/postgres/pool_schema_manager/migrations/migrationRunner.js:84-94 | A witness: where month b begins later in the second zone, the instants between the two midnights have no partition after the run |
| Partitions.RunAfterScript | src/database/postgres/pool_schema_manager/schema/schema_manager.sql:41-66 | Over the script's UTC partitions, a run from any month goes through exactly when the host is not behind UTC on 1 April 2026 if it makes March 2026, and not ahead of UTC on 1 January 2027 if it makes January 2027 |
| Partitions.CoverageAfterScript | src/database/postgres/pool_schema_manager/schema/schema_manager.sql:41-66 | It then covers its seven months exactly when the host is not ahead of UTC on 1 April 2026 if it names that month, and not behind UTC on 1 January 2027 if it names December 2026 |
| Partitions.MarchRunFails | src/database/postgres/pool_schema_manager/schema/schema_manager.sql:41-42 | A run started in March 2026 four hours behind UTC fails |
| MigrationRunners.MigrationRunner.ExecuteWithRetry | src/database/postgres/pool_schema_manager/migrations/migrationRunner.js:99-115 | It returns exactly when one of retries + 1 attempts goes through after transient faults only, with the effect of one execution; delays double from 200 ms |
| MigrationRunners.RetriedCodesExactly | src/database/postgres/pool_schema_manager/migrations/migrationRunner.js:112-115 | A first fault is made good by the next attempt exactly for 57P01, 57P03, 08006, 08001, 08004 and 40P01 |
| MigrationRunners.MigrationRunner.EnsureMonthlyPartitions | src/database/postgres/pool_schema_manager/migrations/migrationRunner.js:80-97 | Success leaves what the seven statements make of the schema, failure what the first few make of it |
| MigrationRunners.TotalBackoff | src/database/postgres/pool_schema_manager/migrations/migrationRunner.js:104-105 | n retries wait 200 * (2^n - 1) ms in all |
| MigrationRunners.RunCovers | src/database/postgres/pool_schema_manager/migrations/migrationRunner.js:80-97 | If all partitions there were made in the run's own zone, every instant of the current month and the next six has a partition after it; Partitions.RunCoversExactly has the general case |
| InputSanitizer.SanitizeValue | src/middleware/security/securityMiddleware.ts:26-36 | All patterns are applied in order, and the result neither starts nor ends with white space; of one pattern it is the trimmed replacement |
| InputSanitizer.ReplaceAllExactly | src/middleware/security/securityMiddleware.ts:31-34 | Each pattern is applied to what the ones before it leave |
| InputSanitizer.PatternAchieves | src/middleware/security/securityMiddleware.ts:31-35 | What one pattern achieves and neither later ones nor trimming undo, the cleaned text has |
| InputSanitizer.SanitizeInput | src/middleware/security/securityMiddleware.ts:41-62 | The recursion ends on every graph, cyclic or not, and computes the specified tree or error |
| InputSanitizer.SanitizeArray | src/middleware/security/securityMiddleware.ts:53-55 | Elements are mapped in order; the first error is the result |
| InputSanitizer.SanitizeObject | src/middleware/security/securityMiddleware.ts:57-61 | Properties are mapped in order into a fresh object; the first error is the result |
| InputSanitizer.SucceedsExactly | src/middleware/security/securityMiddleware.ts:41-62 | It succeeds exactly when no path from the root has more than ten edges |
| InputSanitizer.CyclesRejected | src/middleware/security/securityMiddleware.ts:42-46 | Every reachable cycle makes it fail |
| InputSanitizer.PathsKept | src/middleware/security/securityMiddleware.ts:49-61 | On success each path leads in the result to the same shape, leaves unchanged and text cleaned, except that paths through the key __proto__ lead nowhere |
| InputSanitizer.SameHereExactly | src/middleware/security/securityMiddleware.ts:49-61 | The same shape: equal leaves, text with all patterns applied and trimmed, equally long arrays, the same keys in order |
| InputSanitizer.SanitizeRequest | src/middleware/security/securityMiddleware.ts:92-109 | The request goes on exactly when body, query and parameters all fit; otherwise status 400, with the parts before the offending one already replaced |

## Left out

- Express, helmet, Joi, pino, dotenv, health probes, configuration loading, server start-up and pool construction: wiring without state of its own.
- ShutdownManager: connection draining and timers. Of the primary's shutdown the flag, the messages, the awaited stop and the timer are modelled as events; how long they take is not.
- ClusterManagers.ClusterManager.Start: in a process that is not the primary the source's method returns at once; only the primary is modelled.
- ClickEvents.WellFormed: `isIP` and `Number` are any functions, the latter accepting decimal text; `isIP` of a value that is not text counts as failing.
- ClickEvents.QueryReferences: the statement's text is one INSERT with the source's column list; only its parameter references are read back, not the rest of SQL.
- JSON text: a buffer or cache entry is either the encoding of a value or text that does not parse (for the cache, does not read back as a record). Spacing, escapes and number formats are not modelled.
- Text is a sequence of characters: UTF-16 surrogate pairs split by the 512-character limit are not modelled.
- Commands of a pipeline that Redis carries out after the client has already given up on the pipeline are not modelled; a rejected pipeline loses what its LPOPs took before the rejection.
- Redis eviction, restart and sub-second TTL rounding; one time unit per component and clocks that never go back.
- ClickOccupancy.OccupancyBound: batch sizes and worker counts are natural numbers; negative or fractional configuration is not modelled.
- UrlInvariants.Reachable: a cache entry the service did not write is taken to be unreadable; creation times in the cache are approximate, as in the source, and are not compared.
- UrlTheorems.ResolveIsTableLookup: a resolve that throws (only when the SELECT fails) is not compared with the table.
- RateLimiterQuotas.QuotaPerInterval: calls that pass uncounted, because a Redis command failed, are not limited; that is the source's choice to fail open. One client address is modelled, since addresses use separate keys.
- RateLimiters.RateLimiter.Limit: the clock counts whole seconds.
- MigrationRunners.MigrationRunner.EnsureMonthlyPartitions: years from 100 on, since `Date` reads smaller ones as 1900 + year; instants stand for their ISO text. The tables urls and clicks are taken to exist.
- Mutual exclusion of migrations: the advisory lock is taken outside an explicit transaction and the statements use other clients, so it is not claimed; `Partitions.AnyRuns` covers interleaved runs instead.
- InputSanitizer.PathsKept: the regular expressions are any functions from text to text; holes of sparse arrays, property order of integer keys and the prototype that assigning to __proto__ sets are not modelled.
- The route handlers, request validation of URLs and the response bodies: no state beyond the calls modelled here.
