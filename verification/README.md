# Proofs about the two-level cache and the migrations of the auth service

The service keeps an in-process cache (L1, BigCache) in front of Redis (L2). A `Set` writes both, a
`Get` falls through from L1 to L2 and starts a detached goroutine that copies the value up. An
invalidator keeps a tag index and a table of delayed jobs, a warmer copies keys up in batches, and a
restartable runner applies database migrations, two of whose views are SQL joins with real counting
in them. This project models that logic in Dafny and proves what it keeps. The branches it leaves out
(encoding errors and cancellation among them) are listed at the end.

Check everything with `dafny verify dfyconfig.toml`.

## Main results

1. What a completed write leaves to be read: `Coherence.SetIsThereInL1`, `Coherence.SetIsThereInL2`,
   `Coherence.DeletedIsGone`. Staleness: `Coherence.StaleIffLateFill`, with the run `Coherence.LateFillHappens`; with each level's Get
   in two steps: `WriteBacks.StaleIffLate`, with the run `WriteBacks.WriteBackRevives`.
2. How long an old copy can live: `Coherence.StalenessBound`, reached by `Coherence.BoundIsReached`.
3. Where values come from: `Provenance.EveryValueWasSupplied`.
4. Lookup counters balance: `Lookups.LookupsAreConserved`.
5. What each level holds and answers over any run, read off the run: `BigCache.AnswersTheLiveSet`,
   `RedisCache.HoldsTheLiveRecord`, `RedisCache.AnswersUntilTheDeadline`. Hit counts:
   `BigCache.HitCountCountsHits`, `BigCache.StoredHitsWithinCounter`.
6. Reads and deadlines: `BigCache.ReadsKeepTheWindow`, `RedisCache.ReadsAndDeadline`,
   `RedisCache.OverlappingReads`.
7. Warming preserves meaning: `Warmer.WarmingPreservesMeaning`; its batches: `Warmer.Batches`.
8. The tag index is the relation "key has tag": `Tags.IndexIsTheRelation`, on Go slices that are spliced
   in place: `Invalidator.CacheInvalidatorImpl.RemoveKeyFromTags`.
9. The worker protocol: `Workers.ProtocolIsSafe`, `Workers.EveryRunFinishes`.
10. What invalidation by tags does in every schedule: `Workers.InvalidateByTagsEffect`,
    `Workers.EachKeyAtTheEnd`; with tagging going on: `Tags.TagsLostToTheWindow`.
11. Delayed jobs: `Jobs.JobsWaitForTheirDelay`, `Jobs.DueJobIsStarted`, `Jobs.JobsRunLateAndLeaveDone`,
    `Jobs.TickStartsAllDue`, `Jobs.SecondRunIsIdle`, `Jobs.JobLeavesWhateverItDid`.
12. Migrations: `Migrations.RecordedIsAPrefix`, `Migrations.RecordedWasApplied`,
    `Migrations.RunEndsAtTheFirstFailure`, `Migrations.SuccessRecordsAll`.
13. The views: `OrgStats.StatsAreIndependentCounts`, `UserPermissions.Multiplicity`,
    `UserPermissions.UniqueIndexCondition`.
14. The combined hit ratio: `Manager.CombinedHitRatio`.

## How it is built

| file | what it holds |
|---|---|
| `Sequences.dfy`, `Entries.dfy` | lists without duplicates; keys, values (a nil Go slice and an empty one differ), cache entries, errors, counters |
| `BigCache.dfy`, `RedisCache.dfy` | each level as a class updated in place, specified by functions on its state |
| `Manager.dfy` | the manager as a class over the two levels; the bag of detached goroutines; the combined ratio |
| `Coherence.dfy` | every interleaving of write-through writes, reads, fills, warming, evictions and time |
| `WriteBacks.dfy` | one key when each level's Get reads and writes back in two steps |
| `Provenance.dfy` | every strategy, with failures and with each level's read and write-back apart |
| `Lookups.dfy` | the hit and miss counters under concurrent lookups and Clears that may fail on a level |
| `Warmer.dfy` | the batching loop, the warmer as a class, and every interleaving of its goroutines |
| `Tags.dfy` | the tag index as a value, and the relation it has to agree with |
| `Jobs.dfy` | what an invalidation does, delayed jobs, overlapping ticks, and running a job twice |
| `Invalidator.dfy` | the tag index as Go slices, appended to and spliced in their backing arrays |
| `Workers.dfy` | the semaphore, wait group, channels and lock of one `InvalidateByTags` |
| `Migrations.dfy` | the runner and the rollback |
| `OrgStats.dfy`, `UserPermissions.dfy` | the two materialized views as functions on tables |

Code that works by updating fields is a class whose methods are proved against functions, and the
theorems are about those functions. The state machines of the concurrent parts take their steps from
the same functions where a step is one operation; the worker protocol has finer steps, and
`Workers.InvalidateByTagsEffect` shows that together they come to `Jobs.Execute`, the function that
the class methods `InvalidateByTags` and `RunJob` are proved against. Clocks, failures and the order in
which replies arrive are parameters, so every theorem holds for all of them. Instants and durations are
integers in nanoseconds.

## What the proofs found

- A fill can land after a later write and leave an old value in L1. `Coherence.StaleIffLateFill` shows
  that this is the only way, in both directions, while a level's Get is one step;
  `Coherence.LateFillHappens` gives the run. With its write-back apart, a late write-back is the other way
  (`WriteBacks.StaleIffLate`), and it can bring a deleted value back into L2 (`WriteBacks.WriteBackRevives`).
- A Redis `Get` that still sees a record but works out its remaining time at or after createdAt + ttl
  stores it back without any expiry (`RedisCache.StraddlingReadIsForever`). `RedisCache.ReadsAndDeadline`
  gives the deadline after any series of Gets.
- A scheduled job that fails is removed from the table all the same, and what failed to be deleted stays:
  `Jobs.JobLeavesWhateverItDid`, with the run `Jobs.FailedJobIsForgotten`. `Jobs.SecondExecutionIsIdle`
  says exactly when running a job again changes nothing, and `Jobs.SecondRunCanMatter` is a run in which it
  changes something.
- A key tagged while its tag is being invalidated can lose the tag without being invalidated
  (`Tags.WindowLosesATag`), but not when no key had the given tags at the snapshot, since the call then
  returns before the clean-up (`Tags.EmptySnapshotLosesNone`). `Tags.TagsLostToTheWindow` says exactly which
  keys do.
- The comment on `InvalidatePattern` (internal/cache/invalidator.go:88) speaks of all cache levels; the
  code deletes from L2 only. Afterwards a matching key is still answered exactly as long as L1 can read it
  (`Invalidator.PatternLeavesL1`), and that can be for ever (`Invalidator.PatternKeyStillAnswered`).
- The unique index on `user_permissions_mv` can be built iff no user gets the same non-system
  permission through two active roles (`UserPermissions.UniqueIndexCondition`), and it can fail
  (`UserPermissions.UniqueIndexCanFail`).

## Model

| member | source | states |
|---|---|---|
| BigCache.BigCacheImpl.constructor | internal/cache/bigcache.go:52-57 | a new L1 is empty and has counted nothing |
| BigCache.BigCacheImpl.Get | internal/cache/bigcache.go:61-102 | each error in its case (empty key, failed read, missing, expired) and else the value; a hit leaves the same entry but for its access time and hit count (nothing changes if the write-back fails), an expired entry is removed, no other key is touched; each call with a key counts one hit or one miss |
| BigCache.BigCacheImpl.Set | internal/cache/bigcache.go:105-137 | refuses an empty key and a nil value; else the key holds a fresh entry with no hits, version 1 and this instant, counted; no other key is touched |
| BigCache.BigCacheImpl.Delete | internal/cache/bigcache.go:140-156 | removes exactly the key and counts it; a key that is not there is an error that changes nothing |
| BigCache.BigCacheImpl.Exists | internal/cache/bigcache.go:159-173 | tells whether an entry is stored, expired or not, and changes nothing |
| BigCache.BigCacheImpl.Clear | internal/cache/bigcache.go:176-191 | empties the level and its counters, or on failure changes nothing |
| BigCache.HoldsTheLiveSet | internal/cache/bigcache.go:61-191 | over every run the level holds, for each key, exactly the entry of the last accepted Set of it, unless the key was deleted, evicted, cleared or found expired since, whatever was read and done to other keys |
| BigCache.AnswersTheLiveSet | internal/cache/bigcache.go:61-102 | so a Get answers with the value of that Set exactly up to its instant plus its TTL, however often the key was read |
| BigCache.ReadsKeepTheWindow | internal/cache/bigcache.go:61-102 | after any series of Gets the entry is still there iff each was inside its window; then it is the same payload, its hit count grew by the number of reads, and it is readable exactly up to createdAt + ttl as before |
| BigCache.HitCountCountsHits | internal/cache/bigcache.go:92-98 | over any run whose write-backs succeed, a stored entry's hit count is the number of hits on its key since its last successful Set |
| BigCache.AccessedAtIsTheLastTouch | internal/cache/bigcache.go:92-98 | with write-backs succeeding, the access time of an entry is the instant of the last hit or, without one, of its Set |
| BigCache.StoredHitsWithinCounter | internal/cache/bigcache.go:61-191 | through any mix of Get, Set, Delete, eviction and Clear, failures included, the stored hit counts never add up to more than the hits counter |
| BigCache.CountersTally | internal/cache/bigcache.go:61-191 | over every run each counter is the number, since the last Clear that succeeded, of Gets that answered, Gets with a key that did not, accepted Sets, and Deletes of a key that was there |
| RedisCache.RedisCacheImpl.constructor | internal/cache/redis_cache.go:66-71 | a new L2 namespace is empty and has counted nothing |
| RedisCache.RedisCacheImpl.Get | internal/cache/redis_cache.go:75-108 | with three instants apart (Redis serves the read, the client works out the time left, Redis executes the write-back): each error in its case and else the value; a hit stores the record back with its access time, one hit more and that time, without expiry if none is left; no other key is touched; each call with a key counts one hit or one miss |
| RedisCache.RedisCacheImpl.Set | internal/cache/redis_cache.go:111-144 | refuses an empty key and a nil value; else the key holds a fresh record with the deadline now + ttl, or none for ttl <= 0, counted; no other key is touched |
| RedisCache.RedisCacheImpl.SetWithVersion | internal/cache/redis_cache.go:294-321 | the same with the given version, except that a nil value is let through |
| RedisCache.RedisCacheImpl.Delete | internal/cache/redis_cache.go:147-166 | the key is gone; it was found, and counted, iff a live record was there |
| RedisCache.RedisCacheImpl.Scan | internal/cache/redis_cache.go:189-194 | the loop collects each live matching key once |
| RedisCache.RedisCacheImpl.DeletePattern | internal/cache/redis_cache.go:268-291 | deletes and counts exactly the live matching records; when it fails (and exactly then) nothing has changed |
| RedisCache.RedisCacheImpl.Clear | internal/cache/redis_cache.go:185-217 | no live record is left and the counters are zero; when it fails (and exactly then) nothing has changed |
| RedisCache.OneRead | internal/cache/redis_cache.go:98-104 | one Get that sees the record keeps its payload and sets its deadline to createdAt + ttl plus the delay of the write-back, or to none if no time was left; one that does not see it changes nothing |
| RedisCache.ReadsAndDeadline | internal/cache/redis_cache.go:75-144 | the deadline after any series of Gets, in closed form: createdAt + ttl plus the delay of the last Get that worked out the time left before it had run out (delays do not add up), or none, for good, iff the next Get still saw the record |
| RedisCache.ReadsKeepTheDeadline | internal/cache/redis_cache.go:75-144 | when commands are executed at the instant they are made for, the deadline after any series of Gets is exactly createdAt + ttl iff none of them reads before it and writes back at or after it, and else there is none; the payload never changes |
| RedisCache.StraddlingReadIsForever | internal/cache/redis_cache.go:98-104 | for every ttl > 0: a Get that sees the record but works out the time left at or after createdAt + ttl makes it visible at every instant from then on |
| RedisCache.OverlappingReads | internal/cache/redis_cache.go:75-108 | however Gets of one key overlap, the payload stays and the deadline is decided by the last write-back alone |
| RedisCache.HoldsTheLiveRecord | internal/cache/redis_cache.go:75-321 | over every run the level holds, for each key, exactly the record that was last accepted for it, expired or not, unless it was removed since, whatever was read and done to other keys |
| RedisCache.AnswersUntilTheDeadline | internal/cache/redis_cache.go:75-144 | from any level: after a Set of a key with ttl > 0, while that key is only read and anything happens to others, a Get answers with its value exactly before the deadline that its reads give it by `RedisCache.ReadsAndDeadline` |
| RedisCache.CountersTally | internal/cache/redis_cache.go:75-166 | over every run hits, misses, sets and deletes are the Gets that answered, the Gets with a key that did not, the accepted sets, and the Deletes of a live record |
| RedisCache.EveryRecordIsWellArmed | internal/cache/redis_cache.go:75-144 | after any run of L2 operations in time order, each executed at the instant it is made for, every visible record has the deadline a re-arming at this instant would give it |
| Manager.Collect | internal/cache/manager.go:141-151 | draining the reply channel succeeds iff every reply is tolerated, and else returns the earliest that is not |
| Manager.CacheManagerImpl.constructor | internal/cache/manager.go:28-65 | two distinct new levels, write-through, nothing in the background |
| Manager.CacheManagerImpl.Get | internal/cache/manager.go:68-98 | L1's answer if it has one, leaving L2 alone; else L2's, with one fill started iff L2 answered; with healthy backends at one instant it is the answer the two maps determine; no other key's entries or answers change |
| Manager.CacheManagerImpl.RunTask | internal/cache/manager.go:90-94 | a detached fill writes L1 with the default TTL, a detached store writes L2 with the call's; each runs once and touches one level |
| Manager.CacheManagerImpl.Set | internal/cache/manager.go:101-125 | error cases; a zero ttl becomes the default; every strategy but write-back writes both levels, write-back writes L1 and starts one L2 store iff L1 accepted; under each of them every other key's entries, and so its answers at every instant, are what they were |
| Manager.CacheManagerImpl.SetWriteThrough | internal/cache/manager.go:128-155 | both levels are written, whichever replies first, and the call fails iff either did |
| Manager.CacheManagerImpl.SetWriteBack | internal/cache/manager.go:158-173 | L1 is written; an L2 store is left in the background iff that succeeded |
| Manager.CacheManagerImpl.Delete | internal/cache/manager.go:188-218 | both levels delete; a key missing on either is no error; after success the key is on neither, and every other key is as it was |
| Manager.CacheManagerImpl.Clear | internal/cache/manager.go:236-261 | after success L1 is empty, all counters are zero, and no key is answered at any later instant |
| Manager.CacheManagerImpl.Stats | internal/cache/manager.go:303-326 | each total is the sum of the two levels' counters, and the ratio times all lookups is the hits (zero before the first lookup) |
| Manager.SetIsReadableUntil | internal/cache/manager.go:101-155 | after a write-through Set the value is answered exactly until the later of the two levels lets it go |
| Manager.LevelsLeaveOthers | internal/cache/redis_cache.go:136 | no Set, Get or Delete of a level touches the entry of another key |
| Manager.DeleteUndoesSet | internal/cache/manager.go:188-218 | after a Delete the key is answered by neither level, and every other key's answer is what it was |
| Manager.GetAndFillChangeNoAnswer | internal/cache/manager.go:68-98 | from any state of the two levels, a Get and its fill at one instant change no key's answer at that instant |
| Manager.CombinedHitRatio | internal/cache/manager.go:303-314 | the combined ratio lies in [0, 1], is the lookup-weighted mean of the two, so lies between them, and is the only defined one when one level has no lookups |
| Coherence.InvHolds | internal/cache/manager.go:68-218 | the coherence invariant (values, order of steps, deadlines) holds in every reachable state |
| Coherence.DerivedKept | internal/cache/manager.go:68-218 | every action keeps: each copy and each pending fill holds the value of the write it is numbered with |
| Coherence.OrderedKept | internal/cache/manager.go:68-218 | every action keeps: a copy is of the newest write its level has seen, or came by a fill whose L2 read and landing are ordered against that write's two halves |
| Coherence.TimedKept | internal/cache/redis_cache.go:98-104 | every action keeps: copies and fills of a write respect the instants its TTL allows |
| Coherence.StepsAreEvents | internal/cache/manager.go:79-94 | the steps a copy remembers are the reads, landings and write halves that stand at those places in the run |
| Coherence.SetIsThereInL1 | internal/cache/manager.go:128-155 | over every run: from the L1 half of a Set on, as long as no later half, fill or eviction touches the key in L1, L1 answers with its value exactly up to the instant of that half plus the effective TTL, whatever is read |
| Coherence.SetIsThereInL2 | internal/cache/manager.go:128-155 | the same for L2, strictly before the instant of its half plus the TTL |
| Coherence.DeletedIsGone | internal/cache/manager.go:188-218 | from its half of a Delete on a level has nothing for the key until it is written again |
| Coherence.EvictedIsGone | internal/cache/invalidator.go:100-106 | the same after an eviction |
| Coherence.FillIsThereInL1 | internal/cache/manager.go:89-94 | a landed fill is answered by L1 exactly up to its landing plus DefaultTTL, as long as nothing touches it |
| Coherence.FillsComeAndGo | internal/cache/manager.go:79-94 | each L2 read that asks for a fill and is answered starts one with the value answered; each landing takes one away; nothing else changes the pending fills |
| Coherence.StaleIffLateFill | internal/cache/manager.go:68-218 | whenever no write of the key has reached one level and not the other (calls that have begun or not yet returned included), L2 holds the last completed write or nothing; L1's copy is of an earlier write iff a fill read L2 before the last write's L2 half and landed after its L1 half; else L1 holds the last completed write or nothing |
| Coherence.StaleOnlyByThreeEvents | internal/cache/warmer.go:93-122 | behind a stale L1 value the run contains an L2 read, after it the last L2 half, and a landing with no L1 half after it |
| Coherence.LateFillHappens | internal/cache/manager.go:89-94 | for any two values there is a run after which L1 holds the old one and no write is under way |
| Coherence.StalenessBound | internal/cache/manager.go:68-98 | with fills landing within delta of their L2 read, no copy of a write with ttl > 0 is answered at or after s + ttl + delta + DefaultTTL, by L2 not even at s + ttl, after any number of reads, fills and warmings; s is when the later half of that write ran |
| Coherence.BoundIsReached | internal/cache/manager.go:68-98 | for every ttl, delta and DefaultTTL there is a run on which L1 still answers one nanosecond before the bound |
| WriteBacks.InvHolds | internal/cache/bigcache.go:92-98 | the invariant on where each copy and each pending write-back or fill comes from holds in every run |
| WriteBacks.StaleIffLate | internal/cache/redis_cache.go:98-104 | with each level's read and write-back as two steps: whenever no write is half done, a level holds something other than the last completed write (anything at all, after a Delete) iff on its way there it was written back late, that is read before the level's latest half of a write and stored after it, or, in L1, was filled by an L2 read before the latest L2 half or of a late copy; a late write-back into L1 of the new value itself is the one exception |
| WriteBacks.PositionsAreEvents | internal/cache/manager.go:68-98 | the reads, write-backs, fills and halves a copy's way names are those events at those places of the run |
| WriteBacks.HalfIsThere | internal/cache/manager.go:128-218 | from a half of a write on, its level holds the value set, or nothing after a Delete, until it is written or loses it |
| WriteBacks.WriteBackRevives | internal/cache/redis_cache.go:98-104 | for every value a run, without any fill, after which a Delete has completed and L2 holds the deleted value |
| WriteBacks.LateWriteBackOfTheNewValue | internal/cache/bigcache.go:92-98 | a run in which a write-back into L1 overlaps a Set and yet carries its value |
| Provenance.InvKept | internal/cache/manager.go:68-285 | every event keeps it |
| Provenance.EveryValueWasSupplied | internal/cache/manager.go:68-185 | in every interleaving, under every strategy, with failures and with read and write-back apart: each stored entry carries its own key, and its value, like each value answered, was supplied by some set call of the run for that key |
| Provenance.SetArrives | internal/cache/manager.go:101-185 | under every strategy a set call and its steps, if none fails, put the value with its effective TTL under the key into both levels and touch no other key |
| Provenance.GetArrives | internal/cache/manager.go:68-98 | a Get that L1 lacks and L2 has answers with L2's value and its fill brings it into L1 with DefaultTTL |
| Provenance.DeleteArrives | internal/cache/manager.go:188-218 | a Delete and its steps take exactly the key out of both levels |
| Provenance.HitArrives | internal/cache/bigcache.go:92-101 | a Get that L1 answers does so with L1's value and writes the entry back with its metadata bumped |
| Lookups.StepKeepsBalance | internal/cache/manager.go:68-98 | every event, a Clear that succeeds on one level only included, keeps: counted plus in flight equals asked for since the level was last cleared |
| Lookups.LookupsInFlight | internal/cache/manager.go:236-261 | so it is at every moment of every run, for each level by itself, lookups in flight when it was cleared included |
| Lookups.LookupsAreConserved | internal/cache/manager.go:236-261 | with nothing in flight, after a Clear that succeeded on both levels while nothing was: L1 hits + misses are the Gets with a non-empty key since then, and L2 hits + misses are the L1 misses plus the warmer's L2 reads |
| Lookups.LookupsSinceStart | internal/cache/manager.go:68-98 | the same from the start of the process, while nothing has been cleared |
| Warmer.Batches | internal/cache/warmer.go:47-73 | the batches in order are the list, each non-empty and at most batch-size long (100 for a non-positive setting), and their number is the ceiling of n / size |
| Warmer.CacheWarmerImpl.WarmSingleKey | internal/cache/warmer.go:93-122 | nothing for an empty key, a failed check or a key L1 has; else one L2 Get, and an L1 entry with its value and the default TTL iff it answered and L1 accepts it; no other key is touched |
| Warmer.CacheWarmerImpl.WarmBatch | internal/cache/warmer.go:81-90 | continues the warming of the list by exactly the positions of this batch |
| Warmer.CacheWarmerImpl.WarmKeys | internal/cache/warmer.go:41-78 | whatever the batch size, every position of the list is warmed exactly once |
| Warmer.InvHolds | internal/cache/warmer.go:54-75 | so it holds at every point of every schedule |
| Warmer.WarmingPreservesMeaning | internal/cache/warmer.go:41-122 | from any state of the two levels, at every point of every schedule, the manager's answer for every key is unchanged, no L2 payload has changed nor the deadline of a record that has the one a re-arming gives, and L1 changed only at requested keys it lacked and L2 held, by fresh entries with the default TTL; at the end every requested key L2 held with a non-nil value has an L1 entry |
| Warmer.WarmingMovesNoDeadline | internal/cache/warmer.go:93-112 | when L2 was reached by its own operations, warming moves no deadline at all |
| Warmer.WarmAllKeeps | internal/cache/warmer.go:81-90 | the same for the list, position by position |
| Warmer.WarmKeysPreservesMeaning | internal/cache/warmer.go:41-78 | from any state of the two levels, what WarmKeys computes answers every key as before |
| Tags.SpliceTakesOne | internal/cache/invalidator.go:305-311 | the splice takes one occurrence away, so the key stays in the list iff the list held it twice |
| Tags.SpliceIsRemoval | internal/cache/invalidator.go:305-311 | on a duplicate-free list one splice is the whole removal, order kept |
| Tags.TaggingAppends | internal/cache/invalidator.go:277-294 | TagKey appends the key to exactly the requested lists that lacked it |
| Tags.TaggingAdds | internal/cache/invalidator.go:269-297 | it adds exactly the pairs asked for to the relation |
| Tags.RemovalRemoves | internal/cache/invalidator.go:300-318 | removeKeyFromTags takes exactly the key's pairs away, keeps the order of the other keys, and drops a tag iff nothing is left under it |
| Tags.InvalidationEffect | internal/cache/invalidator.go:117-178 | the given tags are gone; every other tag keeps its list minus exactly the invalidated keys in the same order and vanishes iff that is empty; a key whose delete failed keeps its other tags |
| Tags.NothingTagged | internal/cache/invalidator.go:133-136 | the early return for tags without keys is no different from going on |
| Tags.IndexIsTheRelation | internal/cache/invalidator.go:269-318 | over every run of tagging, untagging and forgetting, in any interleaving, every list is non-empty and duplicate-free, the empty key is under no tag, and the index is the relation "key has tag" |
| Tags.LastUpdateDecides | internal/cache/invalidator.go:269-318 | from any index on, a key has a tag after a run of updates iff the last update to touch the pair tied it, or none did and it had the tag at the start |
| Tags.TagsLostToTheWindow | internal/cache/invalidator.go:124-172 | with TagKey calls between the snapshot and the end of the call: if the snapshot was empty no pair is lost, since the call returns before the clean-up; else the pairs the clean-up takes away are exactly those, under a given tag, of failed keys and those made after the key was last untagged; for keys this call never invalidated these are the pairs of failed keys and the pairs made in the window |
| Tags.WindowLosesATag | internal/cache/invalidator.go:124-172 | a window in which a key is tagged and loses that tag though nothing untagged or invalidated it |
| Tags.EmptySnapshotLosesNone | internal/cache/invalidator.go:133-136 | the same tagging keeps its tag when no key was under the tag at the snapshot |
| Invalidator.Append | internal/cache/invalidator.go:292 | Go's append: the items grow by one, in the same array while capacity lasts and else in a new one |
| Invalidator.Splice | internal/cache/invalidator.go:308 | the tail is shifted down in the same array; the items lose exactly position i |
| Invalidator.CacheInvalidatorImpl.constructor | internal/cache/invalidator.go:34-47 | no tags, no jobs |
| Invalidator.CacheInvalidatorImpl.TagKey | internal/cache/invalidator.go:269-297 | the whole index after TagKey; nothing for an empty key or no tags |
| Invalidator.CacheInvalidatorImpl.RemoveKeyFromTags | internal/cache/invalidator.go:300-318 | every list loses the key's first match, whatever order the tags are visited in |
| Invalidator.CacheInvalidatorImpl.GetTaggedKeys | internal/cache/invalidator.go:443-455 | nil for an unknown tag, else a new array, no tag's, with the tag's list |
| Invalidator.CacheInvalidatorImpl.CopyOutlivesCalls | internal/cache/invalidator.go:443-455 | a list returned by GetTaggedKeys is altered by no sequence of later calls, and its array is never a tag's |
| Invalidator.CacheInvalidatorImpl.Snapshot | internal/cache/invalidator.go:124-131 | the concatenation of the given tags' lists, in an array no tag shares |
| Invalidator.CacheInvalidatorImpl.InvalidateKey | internal/cache/invalidator.go:50-86 | both levels delete the key; it is untagged iff no delete failed, and a missing key is no failure |
| Invalidator.CacheInvalidatorImpl.InvalidatePattern | internal/cache/invalidator.go:89-114 | removes the live matching L2 records, refuses an empty pattern, fails exactly when the scan does or there is something to delete and DEL fails, and leaves L1 and the tags alone, so that a matching key is from then on answered exactly while L1 can read it |
| Invalidator.PatternLeavesL1 | internal/cache/invalidator.go:88-114 | after a pattern delete, at every later instant, a matching key is answered iff L1 can read it, and any other key as before |
| Invalidator.PatternKeyStillAnswered | internal/cache/invalidator.go:88-114 | a matching key set on both levels is still answered at every later instant |
| Invalidator.CacheInvalidatorImpl.InvalidateEach | internal/cache/invalidator.go:152-165 | all turns in any order, with any deletes failing: each level loses exactly the keys whose delete on it went through, the index those for which both did |
| Invalidator.CacheInvalidatorImpl.InvalidateByTags | internal/cache/invalidator.go:117-178 | the effect on index, L1 and L2 is that of `Jobs.Execute` for these tags and these failures; an empty tag list is refused and changes nothing |
| Invalidator.CacheInvalidatorImpl.Schedule | internal/cache/invalidator.go:181-266 | each refusal with its error (empty key, pattern or tag list, negative delay); else one active job for now + delay is added |
| Invalidator.CacheInvalidatorImpl.PickDue | internal/cache/invalidator.go:344-354 | the loop picks exactly the active jobs whose time is strictly past |
| Invalidator.CacheInvalidatorImpl.RunJob | internal/cache/invalidator.go:364-387 | the goroutine of a scheduled job of any kind does to L1, L2 and index what `Jobs.Execute` says for its failures, and takes the job off the table whatever happened |
| Invalidator.CacheInvalidatorImpl.FinishJob | internal/cache/invalidator.go:383-386 | exactly this job leaves the table |
| Invalidator.CacheInvalidatorImpl.ClearScheduledInvalidations | internal/cache/invalidator.go:432-440 | the table is empty and nothing else changes |
| Workers.ProtocolKept | internal/cache/invalidator.go:152-172 | every step of any goroutine keeps it: slots, wait group and lock agree with where the workers stand |
| Workers.NeverStuck | internal/cache/invalidator.go:154-172 | unless the call has finished somebody can move |
| Workers.MeasureDecreases | internal/cache/invalidator.go:152-172 | every step of anybody makes an explicit measure smaller |
| Workers.ListKept | internal/cache/invalidator.go:300-318 | at every step each list is the original minus the keys of the workers that have visited it, in order |
| Workers.CachesKept | internal/cache/invalidator.go:60-66 | at every step a level lacks exactly what it lacked and the keys whose delete went through |
| Workers.ReachableStates | internal/cache/invalidator.go:138-172 | all of this in every reachable state, and no run is longer than the starting measure |
| Workers.ProtocolIsSafe | internal/cache/invalidator.go:138-172 | in every schedule at most 10 workers are past the semaphore, at most one goroutine is inside the lock and that very goroutine can make a step, no key is handed to InvalidateKey twice, and the call is never stuck |
| Workers.TenAtOnce | internal/cache/invalidator.go:150-157 | the bound of ten is reached: with ten keys or more, ten workers can be deleting at once |
| Workers.EveryRunFinishes | internal/cache/invalidator.go:165-177 | so every run is bounded and can be completed |
| Workers.RepliesAreFaults | internal/cache/invalidator.go:60-79 | in a finished call each worker's replies are errors exactly for the deletes that failed in the run |
| Workers.InvalidateByTagsEffect | internal/cache/invalidator.go:117-178 | in every schedule a finished call has handed each distinct tagged key to InvalidateKey exactly once, and its effect on both levels and the index is that of `Jobs.Execute` in one step, with the deletes failing that failed in the run |
| Workers.EachKeyAtTheEnd | internal/cache/invalidator.go:117-178 | key by key: a tagged key is gone from a level unless a delete of it on that level failed in the run, and from the other tags unless either did; the given tags are gone; an untagged key keeps its entries and other tags |
| Workers.WithoutDeleteErrors | internal/cache/invalidator.go:117-178 | in every schedule without delete errors, every tagged key is gone from both levels and from the index |
| Jobs.InvHolds | internal/cache/invalidator.go:341-389 | so it holds in every run |
| Jobs.ScheduleAddsItsJob | internal/cache/invalidator.go:181-266 | in every run an accepted call adds one active job for its instant plus its delay and changes nothing else; a refused one changes nothing |
| Jobs.JobsWaitForTheirDelay | internal/cache/invalidator.go:190-197 | behind every goroutine of a job there is the call that scheduled it, and it started strictly after the instant of that call plus its delay |
| Jobs.JobStaysUntilDone | internal/cache/invalidator.go:383-386 | an accepted job is in the table, unchanged, exactly until one of its goroutines leaves, if the jobs are not cleared |
| Jobs.DueJobIsStarted | internal/cache/invalidator.go:341-364 | a tick that read the clock after that instant, and picks while the job is not done and not cleared, starts it |
| Jobs.TickReadsTheClock | internal/cache/invalidator.go:342 | a tick works with the clock as it was when it began |
| Jobs.ClearEmptiesTheTable | internal/cache/invalidator.go:432-440 | clearing empties the table and leaves running goroutines alone |
| Jobs.JobsRunLateAndLeaveDone | internal/cache/invalidator.go:341-389 | no job starts at or before its time or other than as scheduled; a job that has left the table was cleared, or one of its goroutines has run it and left |
| Jobs.RunsBeforeItLeaves | internal/cache/invalidator.go:364-387 | a goroutine that has left has made its invalidation and then its removal, in that run |
| Jobs.TickStartsAllDue | internal/cache/invalidator.go:342-364 | over every run from the pick of a tick to its start: it starts exactly the active jobs that were in the table and past their time when it picked, each once, whatever happened in between |
| Jobs.SecondExecutionIsIdle | internal/cache/invalidator.go:364-375 | running a job again, with any faults and nothing in between, changes nothing iff, by what was known before: for a key, each delete that failed had nothing to delete or fails again and, if any failed and none fails again, the key had no tag; for a pattern, no matching record whose delete failed and does not fail again is still visible; for tags, always |
| Jobs.SecondRunIsIdle | internal/cache/invalidator.go:341-389 | the same over runs, for two goroutines of one job started by overlapping ticks |
| Jobs.SecondRunCanMatter | internal/cache/invalidator.go:341-389 | a run in which two ticks start one job, the first goroutine fails to delete its key and the second deletes it |
| Jobs.JobLeavesWhateverItDid | internal/cache/invalidator.go:364-387 | over every run: after its invalidation, failed or not, the job is off the table, and a key is left exactly where a delete of it failed and under its tags iff any did |
| Jobs.FailedJobIsForgotten | internal/cache/invalidator.go:377-386 | a run after which the table is empty though the delete of the job's key failed and L1 still holds it |
| Migrations.MigrationManager.RunMigration | internal/database/migrations.go:88-121 | skips a recorded version; else attempts Up once and records iff Up succeeded and the record could be written |
| Migrations.MigrationManager.RunMigrations | internal/database/migrations.go:37-78 | the five migrations in order up to the first failure |
| Migrations.MigrationManager.RollbackMigration | internal/database/migrations.go:259-274 | succeeds iff the version was recorded and its record could be deleted; then exactly that record is gone, and Ups are not undone |
| Migrations.MigrationsAreDistinct | internal/database/migrations.go:43-69 | the five listed versions are pairwise different and numbered in the order of the list |
| Migrations.RecordedIsAPrefix | internal/database/migrations.go:37-121 | over any number of restarts with failures at any check, Up or record, the recorded versions are a prefix of the list, and the log of attempted Ups, immediate repeats apart, is the list in order from the first unrecorded version on |
| Migrations.TheMigrationsAreAPrefix | internal/database/migrations.go:43-75 | both halves of that, for the migrations the code lists |
| Migrations.RunExecutesTheUnrecorded | internal/database/migrations.go:37-121 | from any recorded set a run tries only unrecorded versions, in list order, recording all of those but perhaps the last |
| Migrations.RunEndsAtTheFirstFailure | internal/database/migrations.go:71-121 | exactly what a run leaves: it ends at the first version whose check fails or, if unrecorded, whose Up or record fails; all unrecorded ones before it are attempted once and recorded; it is itself attempted iff its check succeeded and it was unrecorded, and is not recorded |
| Migrations.SucceedsIff | internal/database/migrations.go:71-121 | a run succeeds iff every check does and every unrecorded version's Up and record do |
| Migrations.RecordedWasApplied | internal/database/migrations.go:88-121 | over any number of restarts from any recorded set, a version gets recorded only if in one run its check, its Up and its record all succeeded |
| Migrations.RollbackTakesOne | internal/database/migrations.go:259-274 | a rollback takes the version's record out and keeps all others in their order |
| Migrations.SuccessRecordsAll | internal/database/migrations.go:37-121 | a successful run executes exactly the unrecorded versions in list order and leaves every version recorded |
| Migrations.RollbackThenRun | internal/database/migrations.go:259-274 | rolling back one version and running again executes exactly that one and records it again |
| OrgStats.GroupIsCrossProduct | internal/database/migrations.go:218-222 | an active organization's group is the cross product of its active users and its active roles, each padded with NULL if empty |
| OrgStats.ProductKeepsBothSides | internal/database/migrations.go:219-220 | no user and no role is lost or invented by the product, whatever padding the other side has |
| OrgStats.AggregateOfProduct | internal/database/migrations.go:214-217 | the four aggregates over the product are the number of users, of roles, of users with a login in the last 30 days, and the last login of the users alone |
| OrgStats.LastLoginOfProduct | internal/database/migrations.go:217 | MAX over the product is the MAX over the users alone |
| OrgStats.StatsAreIndependentCounts | internal/database/migrations.go:208-223 | each active organization and no other gets exactly one row, its counts and MAX equal those computed from its active users and its active roles apart, and active_users_30d <= user_count |
| OrgStats.StatsInPlainSets | internal/database/migrations.go:208-223 | the same in plain sets of ids: active users of the organization, its active roles, those users with a login less than 30 days ago, and the greatest of their logins |
| OrgStats.OrganizationIndexIsValid | internal/database/migrations.go:230-233 | no two rows share an organization id, so the unique index can be built |
| UserPermissions.Multiplicity | internal/database/migrations.go:176-191 | (u, p) appears exactly as often as u has active roles carrying p if p is not a system permission, and never otherwise |
| UserPermissions.RowsAreJoins | internal/database/migrations.go:178-190 | for any tables, the rows are exactly those of a user-role link, its active role, a link of that role and its non-system permission, with the permission's name and the role's organization |
| UserPermissions.UniqueIndexCondition | internal/database/migrations.go:198-201 | the unique index can be built iff no user receives the same non-system permission through two active roles |
| UserPermissions.UniqueIndexCanFail | internal/database/migrations.go:198-201 | for any user, two roles and a permission there are keyed tables on which it cannot be built |

## Left out

- BigCache and Redis themselves, networking, connection set-up, memory limits: a level is a map with
  atomic reads, writes and deletes; eviction is a step that may happen at any time. A failed BigCache
  write leaves the old entry in the class; that it may lose it is covered by eviction steps.
- JSON: an entry comes back as it was stored. Keys that are not valid UTF-8, which encoding would alter
  in the entry's Key field, are not part of this model.
- The Redis key prefix: the model's keys are those of one cache's namespace.
- Redis `SET` with an expiry: a positive one sets an absolute deadline in nanoseconds and any other sets
  none. Rounding to milliseconds and the client's special value of -1 ns (keep the TTL) are left out.
- RedisCache.RedisCacheImpl.Set: is executed at the instant its entry carries as creation time, and the
  readings of the clock inside one level operation count as one. A SET that Redis executes later only
  starts the record with a later deadline, which `RedisCache.ReadsAndDeadline` allows for.
- RedisCache.ReadsKeepTheDeadline: is for Gets one after the other whose commands take no time;
  `RedisCache.ReadsAndDeadline` drops the second premise and `RedisCache.OverlappingReads` both.
- RedisCache.EveryRecordIsWellArmed: is for commands that take no time; a delayed write-back leaves a
  later deadline.
- 64-bit overflow of counters, hit counts, TTL sums and batch indices: integers are unbounded.
- SCAN returning a key twice or missing one that is written meanwhile: a scan is taken at one instant.
- Pattern syntax: a pattern is the predicate, or the set of keys, it stands for.
- Context cancellation and timeouts, in the warmer's batches and in the job goroutines.
- Warmer.WarmingPreservesMeaning: states the effect for an uncancelled, error-free warming with no
  concurrent writers, at one instant, because otherwise the answers may change for reasons of their own.
- Warmer.CacheWarmerImpl.WarmKeys: runs the batches one after the other; the goroutines in any
  interleaving are the state machine in the same module, without the limit of ten batches at a time,
  which only excludes schedules.
- Coherence.StaleIffLateFill: assumes what the code does not enforce, that writes of one key do not
  overlap, backends do not fail and a level's Get is one step; Clear is covered as evictions of all keys.
  `WriteBacks.StaleIffLate` drops the last of these.
- WriteBacks.StaleIffLate: assumes that writes of the key do not overlap and backends do not fail; expiry
  is a loss of the entry at any time.
- Coherence.StalenessBound: counts from the later half of the write, not from the call, because the
  write's L2 deadline does.
- Manager.CombinedHitRatio: is about the real quotient; the code rounds to a float64.
- Lookups.LookupsAreConserved: speaks of a Clear made while no lookup is under way, because one that races
  a lookup resets a count the lookup has still to add to; `Lookups.LookupsInFlight` covers that one, too.
- Workers.InvalidateByTagsEffect: no other TagKey, Set or fill runs meanwhile; such a key could be tagged
  or stored again after it was removed. `Tags.TagsLostToTheWindow` covers TagKey, each update of the index
  being one step because it is made under the lock.
- Jobs.JobLeavesWhateverItDid: the invalidation of a job is one step; its own goroutines are in
  `Workers.dfy`.
- Invalidator.CacheInvalidatorImpl.InvalidateByTags: runs its workers one after the other, in any order;
  every concurrent schedule is in `Workers.dfy`.
- Jobs.JobsRunLateAndLeaveDone: assumes that job ids, which carry a nanosecond clock reading, are
  distinct; two jobs with one id would share a place in the table.
- Migrations.MigrationManager.RollbackMigration: removes every record of the version where the code
  deletes one row; versions are unique in the table.
- Each migration's Up is an opaque step that may fail; AutoMigrate, the indexes of migration 003,
  RefreshMaterializedViews and GetAppliedMigrations are left out.
- Columns the two views only pass on (resource, action, scope). An `active` flag means `is_active = true`
  and a permission counts as non-system iff `is_system = false`, so a NULL flag reads as the other case.
- The manager's Exists, GetFromLevel, SetToLevel, RegisterCache and GetCache as methods (setting one
  level directly is an event of `Provenance.dfy`), Sync, Close, Stop, tickers and logging.
- WarmPattern, ScheduleWarming and its job table, PredictiveWarming, the statistics maps, sizes and the
  evictions counter.
