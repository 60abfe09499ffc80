# NexLog server: a verified model

NexLog is a logistics CMS server written in Go on PostgreSQL. This project models the parts of it that hold shared state, and proves what they promise over every interleaving, failure pattern or input.

| File | What it models |
|---|---|
| `FixedWindow.dfy`, `FixedWindowLimiter.dfy` | the per-IP limiter of `cmd/server/middleware.go`: two locks, a sweeper in between |
| `TokenBucket.dfy`, `TokenBucketLimiter.dfy`, `TokenBucketWait.dfy` | the limiter `main.go` uses, `internal/middleware/ratelimit.go`: one bucket per IP, idle buckets evicted |
| `TtlCache.dfy` | the TTL cache of `internal/cache/cache.go` |
| `CacheAside.dfy`, `Handlers.dfy` | the handlers that fill and flush that cache, interleaved, and as methods that are runs of the same steps |
| `Migrations.dfy`, `MigrationFiles.dfy` | the migration runner, alone and with other instances, and how it finds its files |
| `ReplaceAll.dfy` | the list tables: replace-all transactions at READ COMMITTED, ordered reads, error handling |
| `Languages.dfy` | the language codec |
| `Boot.dfy`, `BootServers.dfy` | seeding and later boots, of one server in sequence and of several at once |
| `Transactions.dfy`, `Common.dfy` | what the others share |

`dafny verify dfyconfig.toml` checks everything.

How the model is built. A component whose steps interleave is a state machine on values: `Enabled` and `Step` are the code between two points where another goroutine, connection or process may run, `Exec` is a run from the initial state, and main results quantify over all runs. The objects of the program are classes. Their methods are the code with its branches and loops, and their contracts tie them to functions on values: those the machines step with, or one that is proved to be a run of the machine that nothing interrupts. What these functions mean is stated beside them without naming them: on times, rows, fields, paths and events. Clocks, failures of statements, crashes and the contents of requests are parameters or events.

What was found on the way:

- `cmd/server/middleware.go:61` calls its limiter a sliding window; the code at lines 113-119 is a fixed window, and so is the model. Any closed interval of one window length lets at most 2·max − 1 requests of an IP through, plus those admitted in it on an entry that the sweeper had deleted while they held it. A run with max = 2 attains it.
- `internal/cache/cache.go:2` speaks of `sync.Map`; the code uses a map and a mutex.
- Eviction of token buckets is invisible as long as a request calls `Allow` soon enough after it looked its bucket up: 600 s and 1 ns less the time an empty bucket takes to fill up, which is 585 s and 1 ns for the rates divisible by four and never less. At every rate that admits anything, one nanosecond more and there is a run in which it shows. Below four a minute nothing is ever admitted.
- A cache fill can store an old value after a PUT has flushed. The project proves exactly when this happens and how long the old value can live.
- Two overlapping PUTs on one list table can leave both lists. The project proves exactly when one PUT leaves only its own.
- Several instances may find `site` empty and seed at once; its primary key alone keeps all but one of them from committing anything.
- `applied` is not updated in the loop of the migration runner: without faults a run succeeds if and only if no two pending files share a version. A duplicate runs its SQL in the run that fails, which rolls it back, and is passed over in later ones; these succeed, and the database is then that of the first file of each version alone.

## Model

| member | source | states |
|---|---|---|
| GreedyWindows.WindowStartsApart | cmd/server/middleware.go:113-117 | two windows of one IP start more than `window` apart |
| GreedyWindows.AdmissionBound | cmd/server/middleware.go:113-119 | greedy windows admit at most 2·max − 1 requests in any closed interval of one window length |
| FixedWindowMachine.Step | cmd/server/middleware.go:84-120 | every step of look-up, count and sweep keeps each entry with the IP it was created for, in the map, on the heap and in the hands of requests |
| FixedWindowMachine.CountedIsGreedy | cmd/server/middleware.go:113-119 | counting on a live entry decides as the greedy windows do, also on expired and re-created entries |
| FixedWindowMachine.GreedyRun | cmd/server/middleware.go:84-120 | in every interleaving the decisions on live entries of an IP are those of greedy windows over its own request times |
| FixedWindowMachine.AccountedRun | cmd/server/middleware.go:84-120 | a request counts once, and on a deleted entry only if it held the entry when the sweeper deleted it |
| FixedWindowMachine.AdmissionsBounded | cmd/server/middleware.go:84-120 | at most 2·max − 1 admissions of an IP in any closed interval of one window length, plus those in that interval of requests counted on a deleted entry, all of which held it when the sweeper deleted it |
| FixedWindowMachine.UnstrandedIsGreedy | cmd/server/middleware.go:101-120 | if no request of an IP was stranded, sweeps and other IPs are not observable in any of its decisions |
| FixedWindowMachine.AtomicCallsStrandNobody | cmd/server/middleware.go:101-120 | if every look-up is followed at once by its count, no request is stranded |
| FixedWindowMachine.AdmissionsBoundAttained | cmd/server/middleware.go:84-120 | a concrete run with max = 2 attains the bound, an admission on a deleted entry included |
| FixedWindowMachine.EntryIsGreedy | cmd/server/middleware.go:110-119 | in every run the requests counted on one entry, live or deleted, are decided by greedy windows over their own times, so at most 2·max − 1 of them are admitted in any closed interval of one window length |
| FixedWindowMachine.AllowIsRun | cmd/server/middleware.go:101-120 | from any state in which the sweeper does not hold the map, an uninterrupted allow is a look-up and a count, with the same table and decision |
| FixedWindowMachine.SweepIsRun | cmd/server/middleware.go:85-96 | an uninterrupted sweep is a run of the sweeper's steps, with the same table |
| FixedWindowLimiter.IpEntry.constructor | cmd/server/middleware.go:105 | a new entry has count 0 and the zero time |
| FixedWindowLimiter.IpEntry.Count | cmd/server/middleware.go:110-119 | the second half of allow |
| FixedWindowLimiter.RateLimiter.constructor | cmd/server/middleware.go:77-83 | an empty table |
| FixedWindowLimiter.RateLimiter.Lookup | cmd/server/middleware.go:102-108 | the first half of allow: finds or creates the entry, moves no other |
| FixedWindowLimiter.RateLimiter.Allow | cmd/server/middleware.go:101-120 | both halves without interruption |
| FixedWindowLimiter.RateLimiter.Visit | cmd/server/middleware.go:89-93 | deletes an entry if and only if it has expired |
| FixedWindowLimiter.RateLimiter.Sweep | cmd/server/middleware.go:85-96 | leaves exactly the entries whose reset time the clock has not passed, in whatever order it visits them, and touches no counter |
| TokenBuckets.FullAfter15Seconds | internal/middleware/ratelimit.go:30-31 | a burst of perMinute / 4 refills within 15 s |
| TokenBuckets.Conservation | internal/middleware/ratelimit.go:30-31 | what was admitted and what is left is paid for by one burst and the refill |
| TokenBuckets.AdmissionRate | internal/middleware/ratelimit.go:30-31 | admissions in any interval are at most a burst and the refill of the interval |
| TokenBuckets.AdmittedIff | internal/middleware/ratelimit.go:30-31 | a request is admitted if and only if with it the admissions since any earlier moment are paid for by perMinute / 4 tokens and the refill since then |
| TokenBuckets.PaidInFull | internal/middleware/ratelimit.go:30-31 | no token is lost: some moment's full bucket and the refill since then are what was admitted since and what is left |
| TokenBuckets.SteadyIsAdmitted | internal/middleware/ratelimit.go:30-31 | for perMinute >= 4, requests 60 / perMinute seconds apart are all admitted |
| TokenBucketMachine.Step | internal/middleware/ratelimit.go:37-60 | every step of getLimiter, Allow and cleanup keeps each visitor with its IP |
| TokenBucketMachine.DecisionsAreReplayed | internal/middleware/ratelimit.go:37-60 | in every prompt run the decisions of an IP are those of one bucket replayed over the times of that IP alone, whatever cleanup and other IPs do |
| TokenBucketMachine.EvictionUnobservable | internal/middleware/ratelimit.go:37-48 | a prompt run makes the same calls and decisions as the same run with cleanup never firing |
| TokenBucketMachine.AdmissionsBounded | internal/middleware/ratelimit.go:27-60 | through evictions, at most perMinute / 4 + perMinute·T / 60 admissions of an IP in T seconds, perMinute + perMinute / 4 in a minute |
| TokenBucketMachine.CallAdmittedIff | internal/middleware/ratelimit.go:27-70 | through evictions and whatever other IPs do, each call of an IP is admitted if and only if it is paid for in that sense |
| TokenBucketMachine.SteadyClientAdmitted | internal/middleware/ratelimit.go:27-70 | a steady client is admitted every time, over unbounded runs and through evictions |
| TokenBucketMachine.MaxWaitIsExact | internal/middleware/ratelimit.go:30-43 | the wait allowed leaves an empty bucket just enough time to fill up before it can be evicted, and is at least 585 s and 1 ns at every rate |
| TokenBucketMachine.MaxWaitOfMultiples | internal/middleware/ratelimit.go:30-43 | at the rates divisible by four it is 585 s and 1 ns |
| TokenBucketMachine.NeverAllows | internal/middleware/ratelimit.go:30-31 | below four a minute no bucket ever admits anything |
| TokenBucketWait.WaitIsTight | internal/middleware/ratelimit.go:37-60 | at every rate of four or more, with a wait one nanosecond longer than allowed an eviction changes a decision |
| TokenBucketWait.AdmitsAllIff | internal/middleware/ratelimit.go:30-31 | n requests at one moment are all admitted if and only if the bucket holds n tokens |
| TokenBucketWait.BurstOfNewcomer | internal/middleware/ratelimit.go:30-31 | a new client has perMinute / 4 requests admitted at once, and no more |
| TokenBucketWait.AdmitIsRun | internal/middleware/ratelimit.go:50-70 | an uninterrupted request is a look-up and a later Allow, with the same table and decision |
| TokenBucketWait.CleanupIsRun | internal/middleware/ratelimit.go:40-46 | an uninterrupted cleanup is a run of evictions, with the same table |
| TokenBucketLimiter.Limiter.Allow | internal/middleware/ratelimit.go:70 | takes a token if there is one, otherwise changes nothing |
| TokenBucketLimiter.RateLimiter.constructor | internal/middleware/ratelimit.go:27-35 | no visitors |
| TokenBucketLimiter.RateLimiter.GetLimiter | internal/middleware/ratelimit.go:50-60 | returns the bucket of the IP, created full if missing, and records the visit; no other visitor changes |
| TokenBucketLimiter.RateLimiter.Cleanup | internal/middleware/ratelimit.go:40-46 | leaves exactly the visitors seen in the last ten minutes in the map, in whatever order it visits them |
| TokenBucketLimiter.RateLimiter.Admit | internal/middleware/ratelimit.go:70 | look-up and a later Allow without interruption |
| TtlCache.Cache.constructor | internal/cache/cache.go:21-25 | an empty cache |
| TtlCache.Cache.Set | internal/cache/cache.go:27-31 | stores the value until now + ttl and nothing else |
| TtlCache.Cache.Get | internal/cache/cache.go:33-41 | returns the value if there is one and it has not expired |
| TtlCache.Cache.Flush | internal/cache/cache.go:43-47 | empties the cache |
| TtlCache.Cache.Evict | internal/cache/cache.go:52-59 | deletes exactly the entries that had expired at the moment the clock was read |
| TtlCache.EvictionUnobservable | internal/cache/cache.go:27-61 | no result of Get depends on when or whether evict runs |
| TtlCache.GetReturnsLastWrite | internal/cache/cache.go:27-61 | every Get returns what was last set for its key before its own look-up and since the last flush, unless that has expired when it reads the clock |
| TtlCache.BeginsOnce | internal/cache/cache.go:33-36 | a Get has one look-up |
| TtlCache.NothingFlushedReturns | internal/cache/cache.go:33-47 | a Get that begins after a flush returns only a value set between that flush and its look-up |
| TtlCache.GetIsExact | internal/cache/cache.go:27-41 | a Get returns the value last set if that was within the ttl and not flushed before the look-up, and nothing once the ttl is over |
| TtlCache.GetFindsNothing | internal/cache/cache.go:33-47 | a Get of a key not set since the last flush returns nothing |
| TtlCache.EvictIsExact | internal/cache/cache.go:52-59 | in every run a tick of evict leaves exactly the entries not expired when it read the clock |
| TtlCache.GetIsRun | internal/cache/cache.go:33-41 | an uninterrupted Get is a look-up and a check |
| CacheAside.HistoriesOnlyGrow | internal/handlers/handlers.go:48-217 | in every run, what was committed to a section up to some point stays as it was |
| CacheAside.WhatChanges | internal/handlers/handlers.go:48-217 | only a PUT's commit changes the database, by the value put; only a store, a flush and evict change the cache |
| CacheAside.EvictIsExact | internal/cache/cache.go:52-59 | a tick of evict leaves exactly the pages not expired when it read the clock |
| CacheAside.InvRun | internal/handlers/handlers.go:48-217 | what fills, entries, hits and PUTs carry is true of the history of the sections, in every run |
| CacheAside.BoundedStaleness | internal/handlers/handlers.go:48-76 | every section of a hit at time t was read, in page order, no earlier than t − ttl − the duration of its own fill, and was the committed value then |
| CacheAside.Freshness | internal/handlers/handlers.go:206-217 | a hit whose look-up follows a flush is older than that PUT if and only if its fill read before the commit and stored after the flush |
| CacheAside.StaleHitsEnd | internal/handlers/handlers.go:48-112 | an older value is not served beyond commit + ttl + the duration of the fill |
| CacheAside.RaceIsReal | internal/handlers/handlers.go:83-93 | a concrete run hits a value from before a PUT after that PUT has flushed |
| Handlers.Handler.Content | internal/handlers/handlers.go:48-76 | serves the cached page, or reads eight sections and caches them, failed ones as zero values |
| Handlers.Handler.Languages | internal/handlers/handlers.go:78-94 | like Content, but a failed read is an error and is not cached |
| Handlers.Handler.SidePanel | internal/handlers/handlers.go:96-112 | like Content; the repository turns a failed read into a placeholder |
| Handlers.Handler.AdminPut | internal/handlers/handlers.go:206-217 | flushes the cache after a successful update and only then |
| Handlers.Handler.PutThenGet | internal/handlers/handlers.go:206-217 | without interleaving, a GET of any page after a PUT of any section shows that value and the database's values of the others, whatever was cached and whichever reads fail |
| Handlers.ServedFromDb | internal/handlers/handlers.go:55-93 | over any cache, a page that is missing or expired is answered with what the database holds now and exactly that is stored; only a failed read of the languages is an error |
| Handlers.ServedFromCache | internal/handlers/handlers.go:50-53 | a page that has not expired is answered as it was stored, and nothing changes |
| Handlers.Handler.Get | internal/handlers/handlers.go:48-112 | both, for the three routes |
| Handlers.GetIsRun | internal/handlers/handlers.go:48-112 | from any state of the cache protocol, a GET that nothing interrupts is a run of look-up, check, reads and store, with the same cache; a miss is answered with the very cells its fill stores |
| Handlers.PutIsRun | internal/handlers/handlers.go:206-217 | a PUT that nothing interrupts is a run of commit and flush, with the same database and cache |
| Migrations.Database.Apply | internal/migrate/migrate.go:100-117 | SQL and version are recorded together or not at all; a recorded version is refused |
| Migrations.Database.Run | internal/migrate/migrate.go:32-47 | the loop over the files, with the snapshot taken before it |
| Migrations.UninterruptedRun | internal/migrate/migrate.go:32-47 | from any prefix, a run without faults records all versions and folds the rest in order |
| Migrations.UpToDateRun | internal/migrate/migrate.go:36-39 | a run on an up-to-date database changes nothing |
| Migrations.RunIsExact | internal/migrate/migrate.go:32-47 | a run with any faults over any files stops at the first that is pending and fails or repeats a version; it has then recorded the versions before that file and folded the first pending file of each |
| Migrations.FailureLeavesNoTrace | internal/migrate/migrate.go:100-117 | a run whose first pending file fails leaves the database as it was and reports an error |
| Migrations.AddedDidNotFail | internal/migrate/migrate.go:100-117 | every version a run adds is that of a file that did not fail |
| Migrations.DuplicateIff | internal/migrate/migrate.go:32-44 | without faults a run succeeds if and only if no two pending files share a version |
| Migrations.RerunsSucceed | internal/migrate/migrate.go:32-44 | re-runs without faults get past duplicates, after at most as many failures as there are versions to record |
| Migrations.SuccessFoldsFirsts | internal/migrate/migrate.go:32-44 | once a run succeeds, after any number of runs with any faults and with duplicates or not, the schema is the fold of the first pending file of each version and all versions are recorded |
| Migrations.FirstsOncePerVersion | internal/migrate/migrate.go:36-44 | these files are one for each version of the files that was not recorded |
| Migrations.DuplicateIsLost | internal/migrate/migrate.go:100-117 | of two pending files with one version, the first run applies one and fails, the second succeeds, and the other file never takes effect |
| MigrationRunners.StepKeepsInv | internal/migrate/migrate.go:32-47 | each step of each runner keeps the prefix, the fold, and at most one uncommitted insert |
| MigrationRunners.RecordedPrefix | internal/migrate/migrate.go:24-47 | with any number of runners, failures and crashes, the versions are a prefix of the files in order and once each, the schema is the fold of that prefix, and each migration ran on exactly the files before it |
| MigrationRunners.OnlyCommitsChange | internal/migrate/migrate.go:100-117 | only a commit changes versions or schema, not a statement, a failure or a crash |
| MigrationRunners.RunIsRun | internal/migrate/migrate.go:32-47 | from any state without a transaction to wait for, an uninterrupted run with any faults is a run of a new runner, with the same database and outcome |
| MigrationRunners.CrashResume | internal/migrate/migrate.go:32-47 | once one runner succeeds, schema and versions are those of one uninterrupted run |
| MigrationRunners.CompleteIsFinal | internal/migrate/migrate.go:36-39 | once all is recorded no runner changes the database |
| MigrationFiles.Decimal | internal/migrate/migrate.go:40 | the decimal form of a number, which reads back as the number |
| MigrationFiles.Padded | internal/migrate/migrate.go:40 | the form %04d, which reads back as the number |
| MigrationFiles.FileNameRoundTrip | internal/migrate/migrate.go:79-90 | the printed form of a version and a name parses back to them, for every name without a separator and every version in range |
| MigrationFiles.ParsedShape | internal/migrate/migrate.go:80-90 | a file name that is accepted is a number, an underscore, the name found, and the suffix |
| MigrationFiles.CollectUpMigrations | internal/migrate/migrate.go:74-98 | fails if and only if the name of some file ending in .up.sql has no number before its first underscore; otherwise returns one migration for each such file, path for path, named by it, in order of version |
| MigrationFiles.ParsedAsIs | internal/migrate/migrate.go:76-91 | directories and other files are skipped, files without a number refused, the rest read as named |
| MigrationFiles.NamedOnce | internal/migrate/migrate.go:79-90 | a path determines its migration |
| MigrationFiles.AtoiIff | internal/migrate/migrate.go:83-85 | a number is an optional sign and digits within the range of int, and is read as its value |
| MigrationFiles.SortIsUnique | internal/migrate/migrate.go:96 | on distinct versions the unstable sort has one outcome, strictly increasing |
| ListTables.Items | internal/repository/repository.go:83-94 | the loop of the Get functions: the items of the rows in the order of the rows |
| ListTables.ReadBack | internal/repository/repository.go:75-95 | whatever the physical order, a complete list in the table is read back in its own order, even among other lists |
| ListTables.RoundTrip | internal/repository/repository.go:257-265 | an ordered read of the rows of one list is exactly the list |
| ListTables.LonePut | internal/repository/repository.go:248-266 | from any state of the table, a PUT that nothing interrupts leaves exactly the rows of its list |
| ListTables.InvRun | internal/repository/repository.go:248-266 | what the table and each open transaction hold, in every interleaving |
| ListTables.NoHalfReplacedList | internal/repository/repository.go:248-333 | the table is always a disjoint union of complete lists of committed PUTs or the seed, and every read shows them whole |
| ListTables.OnlyCommitsChange | internal/repository/repository.go:248-266 | no statement, failure or rollback changes the committed rows |
| ListTables.CommitReplaces | internal/repository/repository.go:248-266 | a commit removes exactly the rows that were committed when its own DELETE ran and adds its complete list |
| ListTables.LeavesByLaterDelete | internal/repository/repository.go:253-263 | a row leaves the table only by the commit of a PUT whose DELETE ran when the row was there |
| ListTables.LastListIsThere | internal/repository/repository.go:248-333 | the list committed last, or the seed, is always in the table, complete |
| ListTables.AbortedPut | internal/repository/repository.go:248-266 | a PUT may fail at any statement and is then rolled back without a trace |
| ListTables.ListsStay | internal/repository/repository.go:248 | the list of a PUT is the one it began with |
| ListTables.ExactlyOwnListIff | internal/repository/repository.go:248-266 | a commit leaves exactly its own list if and only if no PUT that committed since its DELETE has rows in the table |
| ListTables.OverlapLeavesBoth | internal/repository/repository.go:248-266 | a concrete run of two overlapping PUTs leaves both lists |
| ListUpdates.Table.UpdateChecked | internal/repository/repository.go:248-266 | the error-checking loop: old table and error, or the numbered list and nil |
| ListUpdates.Table.UpdateIgnoring | internal/repository/repository.go:268-281 | the error-ignoring loop: the same, by way of the aborted transaction |
| ListUpdates.SameOutcome | internal/repository/repository.go:248-333 | for every pattern of failures both loops leave the same table and return nil in the same cases |
| ListUpdates.Table.Get | internal/repository/repository.go:75-95 | after a PUT without error the ordered read returns the list that was put, whatever the physical order of the rows |
| LanguageCodec.WithoutTexts | internal/repository/repository.go:356-361 | the copy without flag and name, whatever the iteration order |
| LanguageCodec.Table.UpdateLanguages | internal/repository/repository.go:342-368 | all rows or none, the same whatever the iteration order: one for each object, its flag and name in their columns and its other fields in the data |
| LanguageCodec.Table.GetLanguages | internal/repository/repository.go:197-220 | each row shown with its columns as flag and name and its other fields, whatever the row order |
| LanguageCodec.RoundTripIsNormalForm | internal/repository/repository.go:342-368 | a write and a read drop the entries that are not objects and complete flag and name with strings, and change nothing else |
| LanguageCodec.NormalFormIsUnique | internal/repository/repository.go:342-368 | that determines the outcome |
| LanguageCodec.RoundTripIdentityIff | internal/repository/repository.go:342-368 | the round trip is the identity exactly on values in normal form |
| LanguageCodec.RoundTripIdempotent | internal/repository/repository.go:342-368 | a second round trip changes nothing |
| Boot.Service.MigrateLanguages | internal/service/service.go:112-133 | adds exactly the missing defaults whose insert succeeds, whatever the iteration order and whichever counts fail |
| Boot.Service.SeedIfEmpty | internal/service/service.go:28-109 | one boot |
| Boot.Service.Seed | internal/service/service.go:39-108 | the first boot's transaction: all of it, or nothing and an error |
| Boot.SeedIsAllOrNothing | internal/service/service.go:28-109 | over any sequence of boots and language edits of one server all tables are seeded or none is, and the server is up only on a seeded database |
| Boot.BootAfter | internal/service/service.go:28-133 | a boot seeds if and only if `site` is empty and every statement succeeds; any other boot leaves existing languages untouched and adds exactly missing defaults |
| Boot.FirstBoot | internal/service/service.go:28-109 | a boot on an empty database seeds it if and only if every statement succeeds, and then each default has its flag, name and texts in their columns |
| Boot.ShownAfterBoot | internal/service/service.go:76-133 | GetLanguages after a boot shows every language it added as exactly the texts of its default, and every other one as before |
| Boot.ShownAfterEdit | internal/repository/repository.go:342-368 | after an edit it shows the normal form of the value |
| Boot.BootTwice | internal/service/service.go:28-133 | booting twice in a row is booting once |
| BootServers.InvRun | internal/service/service.go:28-133 | what holds of the database and of every booting server, in every interleaving |
| BootServers.SeededAtMostOnce | internal/service/service.go:28-109 | however many servers boot at once and whatever fails, at most one transaction seeds, all tables are seeded or none is, and a server is up only on a seeded database |
| BootServers.SiteIsArbiter | internal/service/service.go:45-46 | a transaction that has inserted the row of `site` never waits for another server nor violates a key again |
| BootServers.HolderCanSeed | internal/service/service.go:39-108 | it can insert the rest and commit with no step of another server |
| BootServers.BootsKeepLanguages | internal/service/service.go:112-133 | no step of a boot changes or removes a language; what it adds are missing defaults |
| BootServers.DefaultsWithoutEdits | internal/service/service.go:87-133 | without edits the languages of a seeded database are exactly the defaults |
| BootServers.WhatChanges | internal/service/service.go:28-133 | only a commit, the insert of a missing language and an edit change the database |
| BootServers.FinishedHasMigrated | internal/service/service.go:112-133 | whatever the others do, a server that finishes migrating has seen to every default, if no edit comes in between and its inserts succeed |
| BootServers.BootIsRun | internal/service/service.go:28-133 | from any state without a transaction to wait for, an uninterrupted boot, whatever fails in it, is a run of a new server, with the same database and outcome |
| BootServers.EditIsShown | internal/repository/repository.go:342-368 | after an edit GetLanguages shows the normal form of the value |

## Left out

- FixedWindowMachine.AdmissionsBounded: a negative window is not modelled; the interval it speaks of would be empty.
- FixedWindowMachine.GreedyRun: the clock does not go back, and counters do not overflow.
- TokenBucketLimiter.Limiter.Allow: golang.org/x/time/rate is an exact integer bucket with an atomic Allow; its rounding of floats and its own lock are not modelled, nor is a negative perMinute, with which nothing is ever admitted.
- TokenBucketMachine.EvictionUnobservable: cleanup may be interrupted between two visitors here, which the map lock forbids in the program; the result covers more runs.
- ListTables.Step: a DELETE that waits for the row locks of another DELETE is not made to wait; what it removes in the end is the same.
- MigrationRunners.Step: the schema a commit installs is the one its SQL was run on plus its effect; RecordedPrefix shows that nothing was committed in between. CREATE TABLE IF NOT EXISTS of the version table and SQL with a COMMIT of its own are not modelled.
- MigrationFiles.CollectUpMigrations: the walk of the directory tree and its I/O errors; the entries of the walk are the input.
- LanguageCodec.Table.UpdateLanguages: JSON and jsonb encoding are taken to be faithful, and no encoding error is modelled.
- Boot.SeedIsAllOrNothing: boots and edits do not overlap here; BootServers interleaves them.
- BootServers.Step: an edit of the languages is one step, and the edits of other tables and the seeded texts are not modelled.
- CacheAside.BoundedStaleness: the section values are strings; the JSON sent to the client is not modelled.
- PostgreSQL beyond transaction states, primary keys, statement snapshots at READ COMMITTED and ORDER BY.
- The single-row updates of `internal/repository/repository.go` on their own: one statement each; they are the one-step commits of the cache protocol.
- HTTP routing, static files, uploads, gzip, security and CORS headers, `realIP`: I/O or one-branch logic.
- JWT and bcrypt: library calls.
- Configuration, logging, shutdown, request timeouts of the service layer, the HTML pages and deployment files.
