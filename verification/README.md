# Lattice server, verified

A Dafny model of the parts of the Lattice server where state, order and arithmetic are hard to get right, and proofs about them. Each part has a model of values and steps, theorems about every run or every input, and, where the server updates state in place, a class or a looping method proved to move exactly as the model does. `dafny verify dfyconfig.toml` checks everything.

- **Metrics store** (`Points`, `Buckets`, `Metrics*`, `Row*`): samples are merged into minute rows, rolled into coarser tiers, trimmed, and read back across tiers. The state also records every accepted sample and every trimmed row; nothing the server does reads them, they are what the theorems speak about.
- **Plugin worker pool** (`Pool*`): checkouts, a first-in-line queue, leases, poisoning, a circuit, a supervisor and a drain, as steps that interleave in any order. Each critical section under the pool's lock is one step.
- **Plugin runtime manager** (`Runtime*`), **generation cleanup** (`Runner*`), **worker dialogue** (`Transport`): the sections of Start, Stop and Close; the order in which a generation is taken down, with the pool inside; the frame loop that decides what becomes of a worker.
- **Firewall compiler and analyses** (`Net*`): authored rules compiled to a first-match chain, the lockout lint, the audience check, and the conversion of the legacy baseline.
- **Audit log** (`Audit*`): a hash chain with an anchor, and what a crash between durable steps leaves. The chain hash is a value built from what it hashes, so it is injective.
- **Log store** (`LogStore`) and **rate limiter** (`Rate*`).

Where the code and what is promised of it differ, the code is modelled, a lemma gives an input that shows the difference, and the condition under which the promise holds is proved:

- A last rolled bucket of 0 also means that nothing was rolled, so the bucket of the epoch itself can be rebuilt from a partly trimmed tier; `EpochBucketIsWholeExactly` says for which settings. Exactness is proved of every later bucket, and of that one too where every tier keeps two buckets of the next, as the default tiers do.
- A query may span two result buckets more than the points asked for, where its documentation says at most that many (`MorePointsThanAsked`, `PointsFitExactly`, `PointsBound`).
- Generation 0 gets a pool numbered 1, so its cleanup removes the directory while the pool runs on (`GenerationZeroIsNotDrained`).
- A plain audit append that repeats an id returns, and the next open refuses the file (`RepeatedIdIsRefused`); `AppendIdempotent` never does this.
- Decoding a row with a filter skips payloads it does not want, so it reads past a broken one where a full decode stops (`FilterPastBadPayload`, `FilterAgrees`).
- A legacy list with more than 1024 distinct ports is refused after conversion, and an invalid port is dropped by it (`WiderIsRefused`, `InvalidPortIsDropped`, `LegacyParityExactly`).
- An allow of ports from the public or wireguard zone means the zone's first interface or first prefix, any other rule the whole zone (`SecondPrefixIsLeftOut`, `BroadReadsZoneExactly`); `CompilePreservesMeaning` reads authored rules so.
- A candidate the supervisor started may lose its place between the check that accepts it and the one that appends it; it is then neither pooled nor entered in the drain's ledger (`CandidateServes`), while a transport that is turned away at once is (`TurnedAwayIsEntered`).
- The audience check looks at drops one by one, so it may admit an audience all of whose packets the prefixes of its drops take together (`DropsTogether`); `AdmittedPacket` says what a yes does mean.
- Sweeping the rate limiter is invisible exactly when rate times TTL is at least the burst (`PromisesNeedMemory`), and the rate bound holds exactly for as many keys as the cap (`EvictionForgives`, `BoundNeedsRoom`).

## Model

| member | source | states |
|---|---|---|
| `MetricsTheorems.SecondTierIsExact` | internal/metricsdb/metricsdb.go:541-690 | In every run of writes and restarts, clock faults included, every retained minute of the finest tier is the merge of the accepted samples of that minute, and every rolled and retained bucket of the second tier is the merge of all accepted samples whose minute lies in it; bucket 0 too, once a later one is rolled, where every tier keeps two buckets of the next. |
| `MetricsTheorems.RollupsAreExact` | internal/metricsdb/metricsdb.go:835-887 | When write instants never go backwards, with outages of any length, no later write is refused as late, what is rolled has closed, and every closed and retained bucket of every coarser tier is the merge of all accepted samples in it; bucket 0 too where every tier keeps two buckets of the next. |
| `MetricsValues.StoredByName` | internal/metricsdb/metricsdb.go:598-642 | In every run, clock faults included, a retained minute of the finest tier holds a point for a named series exactly when a sample of that owner and name was kept in it, and the point's minimum is the least and its maximum the greatest of theirs, its count, sum, failures and every bin their totals. |
| `MetricsValues.QueryByName` | internal/metricsdb/query.go:89-154 | Over every run whose instants never go backwards, a query has a point for a named series in a result bucket exactly when a sample of that name was kept that the range holds, the serving tier retains and the bucket takes, with the least minimum, the greatest maximum and the totals of those. |
| `MetricsValues.SecondTierValues` | internal/metricsdb/metricsdb.go:541-690 | The same values, by series id, of every retained minute and every rolled and retained bucket of the second tier, in every run. |
| `MetricsValues.RollupValues` | internal/metricsdb/metricsdb.go:835-887 | The same of every closed and retained bucket of every tier, when instants never go backwards. |
| `MetricsValues.QueryValues` | internal/metricsdb/query.go:89-154 | The same of every result bucket of a query, by series id. |
| `MetricsValues.FoldSummary` | internal/metricsdb/point.go:65-162 | Folding points of one kind gives the least minimum, the greatest maximum, and the totals of counts, sums, failures and every bin. |
| `MetricsValues.SumSummary` | internal/metricsdb/point.go:211-230 | A merge over samples has a value for a series exactly when one of its samples is selected, and that value summarises the selected ones. |
| `MetricsFates.AcceptedIsKept` | internal/metricsdb/metricsdb.go:598-625 | After any run of writes and restarts, what the store has accepted is the kept samples of the writes that were not late, one for one and in order, each with its own value under the ids its names have now. |
| `MetricsFates.WriteFates` | internal/metricsdb/metricsdb.go:598-625 | A write stores its kept samples, each once and in order, under ids its catalog gives their names; it counts the refused ones; kept, skipped and refused add up to all. |
| `MetricsFates.AdmitFate` | internal/metricsdb/metricsdb.go:598-625 | A sample is refused exactly for an unknown kind, an owner or name that is empty, over 200 bytes or holds a NUL, a known series of the other kind, or a new one past a cap; an empty one is skipped before its series is looked up; only a stored one adds to the catalog, its own owner and series and nothing else. |
| `MetricsFates.LateExactly` | internal/metricsdb/metricsdb.go:734-744 | A write is late exactly when its minute, or some instant that shares a coarser bucket with it, is past what the tier that bucket is rebuilt from retains. |
| `MetricsFates.HorizonAfter` | internal/metricsdb/metricsdb.go:556-571 | A late write leaves the horizon where it was, the first one puts it at the end of its minute, any other moves it there but never back and never more than 3600 s. |
| `MetricsTheorems.DefaultsAreRoomy` | internal/metricsdb/metricsdb.go:91-96 | The default tiers keep two buckets of the next, and the finest two of every other. |
| `MetricsTheorems.RebuildsAreWhole` | internal/metricsdb/metricsdb.go:995-1013 | In every run, clock jumps both ways included, whenever a coarser bucket is rolled or rolled again, no row of it was ever trimmed from the tier below; only bucket 0, while its tier has rolled no later one, needs the tier below to keep two coarse buckets. |
| `MetricsEpoch.EpochBucketIsWholeExactly` | internal/metricsdb/metricsdb.go:841-886 | For a finest resolution that divides the hour, rebuilds of the second tier's bucket 0 are whole in every run if and only if the finest tier keeps at least two second-tier buckets less one of its own. |
| `MetricsEpoch.EnoughIsKept` | internal/metricsdb/metricsdb.go:841-886 | With that much kept, no rebuild of bucket 0 follows a trimmed row of it. |
| `MetricsEpoch.EpochBucketIsNotWhole` | internal/metricsdb/metricsdb.go:841-886 | With less kept, for every such configuration, a run of four writes after which bucket 0 is rebuilt without its first row. |
| `MetricsTheorems.HorizonIsBounded` | internal/metricsdb/metricsdb.go:556-571 | The horizon and every last rolled bucket never decrease, one write moves an existing horizon at most 3600 s, and a last rolled bucket that moves has ended by the new horizon. |
| `MetricsTheorems.StepInv` | internal/metricsdb/metricsdb.go:541-690 | Every write and every restart keeps the store's invariant: rows aligned, of known owners and series, exact where retained, rolled buckets closed, trimmed rows rolled first. |
| `MetricsTheorems.ExecInv` | internal/metricsdb/metricsdb.go:541-690 | That invariant holds after every run from a new store. |
| `MetricsMonotone.MonoKeeps` | internal/metricsdb/metricsdb.go:835-887 | Every write at or after the last one keeps every closed bucket of every tier exact and every sample not yet rolled retained below. |
| `MetricsMonotone.ZeroAfterWrite` | internal/metricsdb/metricsdb.go:841-886 | With that much kept, a tier that holds a sample in bucket 0 and has rolled no later bucket has not reached the end of the next, and only closed buckets have a coarser row. |
| `MetricsMonotone.NeverLate` | internal/metricsdb/metricsdb.go:734-744 | A clock that never goes back never has a write refused as late. |
| `MetricsRoll.RollRangeKey` | internal/metricsdb/metricsdb.go:858-879 | Catch-up rebuilds exactly the aligned buckets from its start that have ended by the horizon, and leaves every other row alone. |
| `MetricsRoll.Roll.Skipped` | internal/metricsdb/metricsdb.go:866-878 | A closed bucket that catch-up passes over has no finer row. |
| `MetricsRoll.Roll.ExactAfter` | internal/metricsdb/metricsdb.go:960-991 | A coarse bucket is exact after a roll when folding it is exact, or when it was exact and the batch put nothing into it. |
| `MetricsSums.FoldFromCut` | internal/metricsdb/metricsdb.go:960-991 | Folding the finer rows of a coarse bucket gives the exact merge when every finer bucket from the cut on is exact and neither a row nor a sample of the bucket is older. |
| `MetricsSums.PutBatchExact` | internal/metricsdb/metricsdb.go:626-642 | An exact minute stays exact when a batch is merged into it and the batch's samples are counted. |
| `MetricsCatalog.ResolveOK` | internal/metricsdb/metricsdb.go:758-809 | Resolving keeps the catalog sound, changes no existing id, and answers ids registered for exactly this owner, name and kind; it refuses exactly a series of the other kind and a new one past a cap. |
| `MetricsCatalog.AdmitAllOK` | internal/metricsdb/metricsdb.go:598-625 | Admitting a batch keeps the catalog sound, moves no id, and accepts only samples whose owner, series and kind are registered. |
| `Points.MergeRowAssoc` | internal/metricsdb/point.go:211-230 | Merging the points of rows of consistent kinds is associative, so the order of folding does not matter. |
| `Points.WrapAgreesExactlyBelowLimit` | internal/metricsdb/point.go:145-162 | Folding with 32-bit counters gives the exact fold if and only if the bucket's events number less than 2^32. |
| `Buckets.FloorUnixRoundsDown` | internal/metricsdb/metricsdb.go:500-507 | floorUnix rounds down to a multiple of the step for every instant, before the epoch included, and that is the only such multiple at or below it within a step. |
| `MetricsTx.FloorUnix` | internal/metricsdb/metricsdb.go:500-507 | The truncating remainder and its correction give the rounding down. |
| `MetricsTx.TooLateFor` | internal/metricsdb/metricsdb.go:734-744 | True exactly when the minute, or some coarser tier's bucket of it, reaches back past what the tier below retains. |
| `MetricsTx.ResolveSeries` | internal/metricsdb/metricsdb.go:758-809 | The staged lookup registers, answers or refuses as the catalog model does. |
| `MetricsTx.AdmitSamples` | internal/metricsdb/metricsdb.go:598-625 | The sample loop admits and merges per owner exactly the batch the model admits, and counts exactly the samples it refuses, which WriteFates tells from the samples themselves. |
| `MetricsTx.PutRows` | internal/metricsdb/metricsdb.go:626-642 | Every owner's points are merged with the row its minute already holds, and nothing else is stored. |
| `MetricsTx.FoldRows` | internal/metricsdb/metricsdb.go:965-976 | The cursor loop merges exactly the owner's rows in the range, oldest first. |
| `MetricsTx.RollOneBucket` | internal/metricsdb/metricsdb.go:960-991 | One coarse bucket of every owner becomes the fold of its finer rows, or is gone when there are none; every other row is untouched. |
| `MetricsTx.OldestRow` | internal/metricsdb/metricsdb.go:940-956 | The least start of any row of the owners, or none. |
| `MetricsTx.RollOneTier` | internal/metricsdb/metricsdb.go:841-886 | One tier rolled as the model rolls it: a late write's bucket again, then every bucket closed since. |
| `MetricsTx.RollAll` | internal/metricsdb/metricsdb.go:835-887 | All coarser tiers in order, each from the tier below as already rolled. |
| `MetricsTx.TrimTx` | internal/metricsdb/metricsdb.go:995-1013 | Exactly the rows that start before the horizon less their tier's keep are gone. |
| `MetricsDB.DB.constructor` | internal/metricsdb/metricsdb.go:257-427 | A store over a new file is the model's initial state and valid. |
| `MetricsDB.DB.Write` | internal/metricsdb/metricsdb.go:541-690 | One write is one transaction: too late changes nothing, any other moves the store exactly as the model's write does, and the count of refused samples is exactly those whose fate it is. |
| `MetricsDB.DB.Reopen` | internal/metricsdb/metricsdb.go:346-427 | Memory is rebuilt from the file and nothing the model knows changes. |
| `MetricsDB.LoadedIs` | internal/metricsdb/metricsdb.go:389-416 | A catalog rebuilt from the stored owners and series of a sound one is that one, counts and next ids included. |
| `MetricsQuery.PickTierIsFinest` | internal/metricsdb/query.go:61-74 | The tier picked is the first that reaches back to within one of its buckets of the start and needs at most eight of its buckets a point, or the coarsest when none does; no coarser tier reaches back less far. |
| `MetricsQuery.StepIsLeast` | internal/metricsdb/query.go:99-104 | The step is the least whole number of the tier's buckets of which the points asked for cover the range. |
| `MetricsQuery.ServedWithin` | internal/metricsdb/query.go:200-258 | A served sample is read from a bucket that holds its minute, is no wider than the chosen tier's, and starts inside the range rounded out to that tier. |
| `MetricsPoints.PointsBound` | internal/metricsdb/query.go:99-129 | In every store, no series of a query's result has more than two points above those asked for. |
| `MetricsPoints.PointsFitExactly` | internal/metricsdb/query.go:83-129 | Every reachable store gives every series at most the points asked for if and only if the range, measured from the start of its first result bucket, is no longer than that many steps. |
| `MetricsPoints.FullStoreIsFull` | internal/metricsdb/query.go:99-129 | For every such query, a run after which the series has a point in every result bucket the range touches. |
| `MetricsPoints.MorePointsThanAsked` | internal/metricsdb/query.go:83-129 | A reachable store and a query for two points over 179 s whose result gives a series four. |
| `MetricsQuery.SpliceIsExact` | internal/metricsdb/query.go:200-258 | When instants never go backwards and the finest tier keeps a bucket of the chosen one, the rolled part from the chosen tier and the rest from the finest count each accepted sample the range holds and the serving tier retains exactly once; ranges from the epoch on too, for the default tiers. |
| `MetricsQuery.NothingFallsBetween` | internal/metricsdb/query.go:200-258 | Every accepted sample of the range whose bucket the chosen tier would retain is served, past the split as well as before it. |
| `MetricsDB.QueriesAreExact` | internal/metricsdb/query.go:89-154 | Over every run whose instants never go backwards, what Query and Aggregate return is, per result bucket, the merge of exactly the wanted samples, each counted once. |
| `MetricsDB.DB.Collect` | internal/metricsdb/query.go:170-259 | The cursor loops fill exactly the model's spliced scan, restricted to the wanted series. |
| `MetricsDB.DB.Query` | internal/metricsdb/query.go:89-131 | The end is the earlier of the asked one and the clock, an empty range becomes the last finest bucket's width, the tier is the first that can serve it, each result bucket holds the collected rows of its step, and no series has more than two points above those asked for, or none above them when the range fits that many steps. |
| `MetricsDB.DB.Aggregate` | internal/metricsdb/query.go:137-154 | Each wanted series over the range, its end no later than the clock, as one point, from the first tier that still reaches its start. |
| `MetricsDB.SelectSeries` | internal/metricsdb/query.go:181-199 | The ids of exactly the owner's named series, or of all of them when none is named. |
| `MetricsDB.WantedByName` | internal/metricsdb/query.go:181-199 | The series a query reads are exactly the owner's with one of the names asked for, or all of them when none is. |
| `RowCodec.RowRoundTrip` | internal/metricsdb/point.go:276-326 | Decoding an encoded row yields exactly its non-empty points in order, with counts, all 88 bins and stored floats unchanged. |
| `RowLayout.GaugeRowBytes` | internal/metricsdb/point.go:271-326 | A gauge row byte by byte: the version, varints low group first, the kind, the payload's length, floats low byte first. |
| `RowLayout.EmptyRowBytes` | internal/metricsdb/point.go:311-326 | Empty points leave no bytes: the row is its version. |
| `RowLayout.EventRowBytes` | internal/metricsdb/point.go:271-326 | An event row byte by byte: count, failures, sum, least, greatest, how many bins are not empty, and each as its gap and count. |
| `RowCodec.PayloadRoundTrip` | internal/metricsdb/point.go:365-405 | Decoding the payload of a non-empty point of either kind gives the point back. |
| `RowCodec.UvarintRoundTrip` | internal/metricsdb/point.go:333-344 | A varint below 2^64 reads back as itself and consumes exactly its own bytes. |
| `RowCodec.FilterAgrees` | internal/metricsdb/point.go:409-445 | For any bytes, decoding with a series filter equals decoding everything and filtering, in the points and in how it ends, if and only if, going from frame to frame, no frame of a known kind has a payload that does not decode, or the first such frame is wanted, or after it the filter meets a fault before a point. |
| `RowCodec.FaultFirstIs` | internal/metricsdb/point.go:416-443 | A filtered decode hands out nothing and fails exactly when a fault the filter sees comes before any point it lets through. |
| `RowCodec.FilterPastBadPayload` | internal/metricsdb/point.go:409-445 | A row where they differ: the full decode stops at a broken payload the filtered one skips. |
| `RowReader.EncodeRow` | internal/metricsdb/point.go:311-326 | The loop writes the model's encoding of the points, empty ones left out. |
| `RowReader.AppendPayload` | internal/metricsdb/point.go:276-308 | The payload bytes are the model's, bin by bin. |
| `RowReader.ScanUvarint` | internal/metricsdb/point.go:333-344 | The byte loop agrees with the model's varint on every byte string, overlong and overflowing ones included, and never reads past the end. |
| `RowReader.ByteReader.TakeUvarint` | internal/metricsdb/point.go:333-344 | The reader's position moves by exactly the bytes of the value, or the reader is marked failed. |
| `RowReader.ByteReader.TakeU32` | internal/metricsdb/point.go:346-353 | A value above 2^32 - 1 marks the reader failed. |
| `RowReader.ByteReader.TakeF32` | internal/metricsdb/point.go:355-363 | Four bytes are consumed, or the reader is marked failed when fewer are left. |
| `RowReader.TakePayload` | internal/metricsdb/point.go:365-405 | Any bytes decode to the model's point or to its failure, trailing bytes included. |
| `RowReader.DecodeRow` | internal/metricsdb/point.go:409-445 | Any byte string is decoded to the end or to its first fault, without reading out of bounds, handing out exactly the model's points. |
| `PoolTheorems.Conservation` | internal/plugin/system_pool.go:448-655 | In every interleaving each worker that entered the idle list is in exactly one of idle, leased and dead; active is the number of leases; idle and leased stay within size plus overflow; no worker serves more than maxUses uses; idle workers and waiters never coexist. |
| `PoolTheorems.LeasesHaveOneHolder` | internal/plugin/system_pool.go:547-582 | Every lease is held by exactly one checkout that is not over, so a cancelled checkout keeps none. |
| `PoolTheorems.NoOvertaking` | internal/plugin/system_pool.go:870-898 | Whatever happens next, a checkout that is given a worker arrived before every checkout still waiting. |
| `PoolTheorems.DrainIsComplete` | internal/plugin/system_pool.go:355-380 | In every interleaving the drain's future is final exactly when it began, the supervisor has gone, no lease is left and every registered transport is joined; then every worker that ever entered is dead, reported retired exactly once, and its transport joined. |
| `PoolTheorems.DrainIsFinal` | internal/plugin/system_pool.go:187-260 | Once a drain began nobody becomes idle or leased again, and once it is complete neither its result nor its ledger changes, whatever happens next. |
| `PoolLedger.DrainTellsTheJoins` | internal/plugin/system_pool.go:355-380 | In every interleaving, a final drain's errors are those the first join of each registered transport reported, in ledger order, and its residual groups are exactly the process groups of the transports whose join found one. |
| `PoolLedger.LedgerIsTold` | internal/plugin/system_pool.go:286-334 | An entry is joined exactly when the run has a join of it, and holds what the first one said. |
| `PoolLedger.StepLedger` | internal/plugin/system_pool.go:187-334 | Only a join touches an entry, its own and while it is open; any other step at most adds open entries, and a forced drain stays forced. |
| `PoolService.LeaseEnds` | internal/plugin/system_pool.go:586-684 | In every reachable pool, a worker whose lease ends goes on serving exactly when the pool is open, its circuit closed, the holder does not condemn it and it is of this generation, not used up and not too old: it goes to the first in line, or is idle when nobody waits; otherwise it is dead for the first reason there is, and nobody is given anything. |
| `PoolService.PublishServes` | internal/plugin/system_pool.go:448-503 | A published worker is taken in exactly when the pool is open, the generation is its own, there is room beside the fit idle workers and the leases, and it is ready; it then goes to the first in line, or is idle when nobody waits. |
| `PoolService.CandidateServes` | internal/plugin/system_pool.go:814-825 | The supervisor's candidate is taken in exactly when the supervisor runs, the pool is open, its circuit closed and there is room; otherwise the pool keeps no trace of it, its transport included. |
| `PoolService.CheckoutServes` | internal/plugin/system_pool.go:505-546 | A checkout gets the first fit idle worker unless it was cancelled; with none it fails when the pool is closed or its circuit open, and otherwise waits at the end of the line. |
| `PoolService.CallersMove` | internal/plugin/system_pool.go:547-582 | A caller takes the worker it was assigned; one that gives up leaves the line to the others in their order, or owes back the worker it was already assigned. |
| `PoolService.PruneExactly` | internal/plugin/system_pool.go:900-934 | Pruning keeps exactly the fit idle workers, in their order; each other one dies for the first thing wrong with it; nobody else is touched. |
| `PoolService.SupervisorIsAsked` | internal/plugin/system_pool.go:726-738 | The supervisor is asked to run whenever, in an open pool with the circuit closed, a checkout has to wait, a lease on a worker of this generation ends with its death, or the pool is activated. |
| `PoolService.CircuitOpens` | internal/plugin/system_pool.go:686-724 | Opening the circuit fails everyone in line and nobody else, and kills every idle worker and no other. |
| `PoolService.DrainBegins` | internal/plugin/system_pool.go:187-260 | Beginning a drain closes the pool, fails everyone in line and nobody else, and kills the idle workers, and the leased ones when it is forced; a drain of another generation does nothing. |
| `PoolService.TurnedAwayIsEntered` | internal/plugin/system_pool.go:473-503 | A transport that is turned away is in the ledger until it is joined, unless the drain is already final. |
| `PoolService.SupervisorGoes` | internal/plugin/system_pool.go:250-258 | The supervisor of a closed pool can always go, and the drain then no longer waits for it. |
| `PoolTheorems.StepKeeps` | internal/plugin/system_pool.go:187-934 | Every step of every caller keeps the pool's invariant, from any state that has it. |
| `PoolTheorems.ExecInv` | internal/plugin/system_pool.go:403-437 | That invariant holds after every interleaving from a new pool. |
| `PoolTheorems.BeginDrainKeeps` | internal/plugin/system_pool.go:187-260 | Beginning or upgrading a drain, graceful or forced, keeps the invariant. |
| `PoolSteps.PublishKeeps` | internal/plugin/system_pool.go:448-503 | Publishing keeps the invariant whatever the pool is doing, and lets nobody in line be overtaken. |
| `PoolSteps.CheckoutKeeps` | internal/plugin/system_pool.go:505-584 | A checkout's first section keeps the invariant and lets nobody overtake. |
| `PoolEndings.CancelKeeps` | internal/plugin/system_pool.go:559-581 | A cancelled wait gives back what it was assigned and leaves the line, keeping the invariant and the order of service. |
| `PoolEndings.EndKeeps` | internal/plugin/system_pool.go:594-684 | Ending a lease in any of its ways keeps the invariant and the order of service. |
| `PoolEndings.CircuitKeeps` | internal/plugin/system_pool.go:686-724 | Opening or closing the circuit keeps the invariant. |
| `SystemPool.Pool.constructor` | internal/plugin/system_pool.go:403-437 | A new pool is the model's new pool. |
| `SystemPool.Pool.Register` | internal/plugin/system_pool.go:268-284 | A transport that is not joined yet is entered in the ledger once, and never once the drain is final. |
| `SystemPool.Pool.Finalize` | internal/plugin/system_pool.go:355-380 | The walk over the ledger finishes the future exactly when the model does, with the residual groups it found. |
| `SystemPool.Pool.PruneInvalid` | internal/plugin/system_pool.go:900-934 | The loop retires exactly the idle workers that no longer serve and keeps the rest in order. |
| `SystemPool.Pool.Wake` | internal/plugin/system_pool.go:870-898 | The first in line gets the first valid idle worker, as the model hands it out. |
| `SystemPool.Pool.Publish` | internal/plugin/system_pool.go:448-503 | The new state is the model's, and it succeeds exactly for an open pool's own generation with room for a ready worker. |
| `SystemPool.Pool.Checkout` | internal/plugin/system_pool.go:505-546 | An idle worker, an error, or a place in line, exactly as the model decides. |
| `SystemPool.Pool.FinishLease` | internal/plugin/system_pool.go:594-655 | A finished lease is reused, replaced or retired as the model says. |
| `SystemPool.Pool.PoisonWorker` | internal/plugin/system_pool.go:657-684 | A poisoned worker dies, is reported, and its lease ends. |
| `SystemPool.Pool.SetCircuitOpen` | internal/plugin/system_pool.go:686-724 | An opening circuit retires every idle worker and fails everyone in line; a closing one asks for replenishing. |
| `SystemPool.Pool.RequestReplenish` | internal/plugin/system_pool.go:726-738 | The supervisor is started exactly when none runs and the pool may have one. |
| `SystemPool.Pool.BeginDrain` | internal/plugin/system_pool.go:187-260 | A first drain closes the pool, a repeated one joins or upgrades it, a stale one is answered at once; the loop over the leases may take any order. |
| `SystemPool.Pool.TransportJoined` | internal/plugin/system_pool.go:286-334 | A join is entered in the ledger and may finish the drain. |
| `SystemPool.Pool.TakeResult` | internal/plugin/system_pool.go:547-558 | The caller takes what its channel holds, as the model does. |
| `SystemPool.Pool.GiveUp` | internal/plugin/system_pool.go:559-582 | The caller is cut out of the line, or owes back what it was given, as the model does. |
| `SystemPool.Pool.AppendCandidate` | internal/plugin/system_pool.go:814-825 | The candidate joins the idle list or not, and the first in line is woken, as the model does. |
| `SystemPool.Pool.RejectCandidate` | internal/plugin/system_pool.go:789-794 | A candidate without a place is entered in the ledger. |
| `SystemPool.Pool.SupervisorExits` | internal/plugin/system_pool.go:740-747 | The supervisor goes once the pool is closed. |
| `SystemPool.Pool.SupervisorJoined` | internal/plugin/system_pool.go:250-258 | The drain stops waiting for the supervisor, and is final if that was the last. |
| `RuntimeTheorems.StopIsFinal` | internal/plugin/runtime.go:498-588 | In every run, once Stop has drawn or joined a tombstone, no Start that drew its generation before is ever published as armed. |
| `RuntimeTheorems.CloseIsFinal` | internal/plugin/runtime.go:812-917 | In every run nothing is armed after Close began, ever. |
| `RuntimeTheorems.ArmedGenerationsIncrease` | internal/plugin/runtime.go:396-450 | In every run the generations one plugin was armed with strictly increase. |
| `RuntimeStatus.ReplacedOnlyTransactionally` | internal/plugin/runtime.go:324-331 | In every interleaving, a step that leaves an armed plugin armed with another generation is the end of a Start of that plugin, to a newer generation, and both the runner it had and the one it gets are transactional. |
| `RuntimeStatus.StartDraws` | internal/plugin/runtime.go:319-345 | A Start draws a generation exactly when the manager is not closing and the plugin is not armed, or both its runner and the armed one are transactional; it is then the plugin's latest. Refused, it changes nothing. |
| `RuntimeStatus.StartEnds` | internal/plugin/runtime.go:396-448 | In every run, a ready Start arms its plugin exactly when no later Start, Stop or Close has come; a failed one is then published, but not over an armed plugin; in every other case no status changes and its authority is revoked. |
| `RuntimeStatus.StopEnds` | internal/plugin/runtime.go:649-685 | A stop that ends leaves the status still at its tombstone degraded if it failed and stopped if not, and no other status changes; a failed one still holds what it could not clean up, any other holds nothing. |
| `RuntimeStatus.StopRunsOut` | internal/plugin/runtime.go:687-729 | A stop that only runs out of time shows degraded the status still at its tombstone and changes nothing else. |
| `RuntimeStatus.CloseEnds` | internal/plugin/runtime.go:955-1033 | In every interleaving, once Close is over every plugin's status is degraded if its cleanup failed and stopped if not; one that runs out of time first shows degraded exactly what is still stopping. |
| `RuntimeStops.StopSilences` | internal/plugin/runtime.go:498-588 | In every interleaving, once Stop has drawn or joined its tombstone no Start of the plugin is pending and every one still running has lost its authority; after Close that is so of every plugin. |
| `RuntimeStops.StopTwice` | internal/plugin/runtime.go:474-500 | A Stop that follows another of the same plugin joins it and changes nothing. |
| `RuntimeStops.StopRemembers` | internal/plugin/runtime.go:500-588 | A Stop that draws a tombstone has its future wait for exactly the Starts it cancelled and the authority it found; every other future stays, but for the plugin's own that were done without failing. |
| `RuntimeStops.EntryGoes` | internal/plugin/runtime.go:347-356 | A Start's entry goes once it has finished, and nothing else does. |
| `RuntimeStops.FailureStays` | internal/plugin/runtime.go:500-588 | The future of a Stop that failed stays, with what it could not clean up, whatever happens next. |
| `RuntimeTheorems.LeavingArmedRevokes` | internal/plugin/runtime.go:498-588 | In every run a plugin that stops being armed loses that generation's authority in the same step, through Stop or Close; one that stays armed keeps it or has a newer one. |
| `RuntimeTheorems.EndingsNeverOverwrite` | internal/plugin/runtime.go:649-685 | In every run a Stop or Close that finishes or times out changes only a status still at the tombstone it drew itself, and never an armed one. |
| `RuntimeTheorems.FenceHoldsAlways` | internal/plugin/runtime.go:318-345 | A fence raised at a generation stays up through every continuation of the run. |
| `RuntimeTheorems.StepInv` | internal/plugin/runtime.go:305-1033 | Every section of Start, Stop and Close keeps the manager's invariant. |
| `RuntimeTheorems.ExecInv` | internal/plugin/runtime.go:278-303 | That invariant holds after every interleaving of sections from a new manager. |
| `Runtime.RuntimeManager.StartBegin` | internal/plugin/runtime.go:318-345 | A generation is drawn exactly when the manager is not closing and an armed plugin and its Start are both transactional, and the state moves as the model's. |
| `Runtime.RuntimeManager.RemovePendingEntry` | internal/plugin/runtime.go:347-356 | The entry of a Start that has finished goes, as the model does. |
| `Runtime.RuntimeManager.StartFinish` | internal/plugin/runtime.go:396-450 | The second section arms, fails or gives up on exactly the generation still pending. |
| `Runtime.RuntimeManager.CancelPending` | internal/plugin/runtime.go:519-529 | The loop removes and revokes exactly the plugin's pending starts. |
| `Runtime.RuntimeManager.ForgetStops` | internal/plugin/runtime.go:504-515 | Exactly the plugin's stops that finished well are dropped. |
| `Runtime.RuntimeManager.StopBegin` | internal/plugin/runtime.go:474-588 | Stop joins the Stop already under way, or draws a fresh tombstone and revokes what the plugin held. |
| `Runtime.RuntimeManager.StopFinish` | internal/plugin/runtime.go:590-685 | The future gets its result and the status is relabelled only if still its own. |
| `Runtime.RuntimeManager.StopTimeout` | internal/plugin/runtime.go:687-729 | Giving up relabels only a status still at the future's own tombstone. |
| `Runtime.RuntimeManager.CloseBegin` | internal/plugin/runtime.go:772-917 | Close buries every plugin that had anything, in any order its loop takes, and revokes all they held. |
| `Runtime.RuntimeManager.CloseTimeout` | internal/plugin/runtime.go:928-951 | A Close that gives up relabels only statuses still at its own epochs. |
| `Runtime.RuntimeManager.CloseFinish` | internal/plugin/runtime.go:955-1033 | The last section of Close does the same with the final result. |
| `RunnerTheorems.RemovedOnlyWhenUnused` | internal/plugin/system_runner.go:551-624 | For every interleaving and every generation but 0, the working directory is removed at most once, and from then on the generation is not and never will be admitted, every invocation lease is released, the pool's drain is final without residual groups, and the authority is revoked with no host call holding it. |
| `RunnerPool.RemovedExactlyWhenClean` | internal/plugin/system_runner.go:579-593 | Once the cleanup of a generation but 0 is over, in every interleaving, every transport of its pool was joined, and the working directory was removed exactly when none of those joins found a process group left. |
| `RunnerPool.PoolRuns` | internal/plugin/system_runner.go:485-671 | In every run the generation's pool is a run of the pool's own steps, so every pool theorem holds of it. |
| `RunnerProgress.CleanupAdvances` | internal/plugin/system_runner.go:539-624 | In every interleaving, retiring, or marking and arming, has the cleanup under way, and each turn of its goroutine brings it closer to the end unless an invocation, the pool's drain or a host call is still there, in which case it changes nothing. |
| `RunnerProgress.AbortReachesThePool` | internal/plugin/system_runner.go:551-576 | A cleanup marked to force before the last invocation is seen gone makes the pool's drain a forced one by the time the goroutine waits for it, and it stays one. |
| `RunnerUse.AdmittedExactly` | internal/plugin/system_runner.go:940-957 | In every interleaving an invocation is admitted exactly when the generation was activated and not retired, marked for cleanup or shut down, and it gets a lease nobody has had. |
| `RunnerUse.LeasesMove` | internal/plugin/system_runner.go:940-993 | Leases come and go one at a time: only an admitted invocation adds one, only its release takes it away. |
| `RunnerUse.HostCallsMove` | internal/plugin/broker.go:260-304 | So do host calls while the authority stands; it is revoked by name, or by the cleanup once the invocations are gone. |
| `RunnerTheorems.RemovalIsLast` | internal/plugin/system_runner.go:579-593 | Removal is enabled only in a state where all of these hold. |
| `RunnerTheorems.GenerationZeroIsNotDrained` | internal/plugin/system_runner.go:551-624 | Generation 0 needs its exception: its pool is numbered 1, takes the drain for a stale one, and the directory goes while the pool runs. |
| `RunnerTheorems.StepKeeps` | internal/plugin/system_runner.go:485-671 | Every step of activation, retirement, cleanup, leases, host calls and the pool keeps the generation's invariant. |
| `RunnerTheorems.ExecKeeps` | internal/plugin/system_runner.go:485-671 | That invariant holds after every interleaving from a prepared generation. |
| `RunnerTheorems.AuthorityKeeps` | internal/plugin/broker.go:260-316 | Acquiring, releasing and revoking keep the authority's record of holders sound, a revoked authority admits nobody, and a release revokes nothing. |
| `Runner.GenerationAuthority.constructor` | internal/plugin/broker.go:253-258 | A new authority has no holder and is not revoked. |
| `Runner.GenerationAuthority.Acquire` | internal/plugin/broker.go:260-292 | Refused once revoked; the first holder opens a new drained channel. |
| `Runner.GenerationAuthority.Release` | internal/plugin/broker.go:282-291 | A holder's release counts once; the last one closes the channel. |
| `Runner.GenerationAuthority.RevokeIt` | internal/plugin/broker.go:294-304 | Revoking is final. |
| `Runner.GenerationState.AcquireInvocation` | internal/plugin/system_runner.go:940-957 | A lease is given exactly when the generation is admitted, not retiring, and the runner not closing; the first one opens a new channel. |
| `Runner.GenerationState.Release` | internal/plugin/system_runner.go:978-993 | The once-only release; the last one closes the channel cleanup waits on. |
| `Runner.GenerationState.MaybeStartCleanup` | internal/plugin/system_runner.go:539-549 | Cleanup starts at most once, and only requested and armed. |
| `Runner.GenerationState.ActivateGeneration` | internal/plugin/system_runner.go:485-501 | Admission is given exactly when the generation is not retiring and the runner not closing. |
| `Runner.GenerationState.RetireGeneration` | internal/plugin/system_runner.go:514-537 | Retiring ends admission and may start cleanup. |
| `Runner.GenerationState.MarkForCleanup` | internal/plugin/system_runner.go:626-644 | The first section of a broadcast ends admission and asks for cleanup, forced or not. |
| `Runner.GenerationState.Arm` | internal/plugin/system_runner.go:662-671 | Its last section arms cleanup and may start it. |
| `Transport.InvokeV2` | internal/plugin/system_transport.go:48-230 | For every sequence of reads: a result is reported exactly when the reads are proper body frames within the budgets followed by the result of this invocation; the worker is reusable exactly when stderr_complete and invoke_ready then follow; a decoded result survives any tail failure. |
| `Transport.JudgeHostCall` | internal/plugin/system_transport.go:123-153 | A host call goes on exactly when its id is new and the call and byte budgets hold. |
| `Transport.JudgeChunk` | internal/plugin/system_transport.go:154-176 | A stderr chunk goes on exactly when it decodes within the diagnostic budgets. |
| `Transport.Judge` | internal/plugin/system_transport.go:103-186 | One turn of the loop: go on, the result has come, or stop, as the dialogue so far is proper or not. |
| `Transport.Tail` | internal/plugin/system_transport.go:187-228 | After the result, exactly stderr_complete and invoke_ready of this generation and invocation make the worker reusable. |
| `Transport.InvokePooled` | internal/plugin/system_runner.go:1104-1155 | A checked-out worker is released, returned unused or poisoned exactly once, and the pool moves as that ending says. |
| `Transport.ReleasedOnlyWhenComplete` | internal/plugin/system_runner.go:1104-1155 | A worker is put back for reuse exactly when its dialogue was complete, and goes back unused only when nothing was sent to it. |
| `Transport.FrameShapes` | internal/plugin/system_protocol.go:401-464 | The frames of an invocation are exactly six shapes, each with its own members and no others, none of generation 0; the check of invoke_ready does not look at features and data. |
| `Transport.Session.OneResult` | internal/plugin/system_transport.go:103-186 | A dialogue has at most one result. |
| `Transport.Session.NoResult` | internal/plugin/system_transport.go:103-186 | Where a dialogue stops being proper, no later result counts. |
| `NetCompile.CompilePreservesMeaning` | internal/netguard/compile.go:79-159 | For every input that compiles and every packet, the rendered chain after the fixed scaffold gives the verdict of first match over the beacon, the trusted zones, the overrides and the groups in authored order, enabled rules only, default drop, whether or not the broad allows were moved to the end and their ports merged. |
| `NetVerdict.OverrideDecides` | internal/netguard/compile.go:79-159 | A packet that neither the beacon nor a trusted zone admits gets what the first override that matches it asks for: a deny drops it, an allow accepts it. |
| `NetVerdict.GroupDecides` | internal/netguard/compile.go:79-159 | When no override matches it, the first rule to match decides, groups taken in binding order. |
| `NetVerdict.RestDecides` | internal/netguard/compile.go:79-159 | What the beacon or a trusted zone admits is accepted whatever the rules say; what nothing matches is dropped. |
| `NetVerdict.CompilesExactly` | internal/netguard/compile.go:79-246 | Which inputs compile: managed, resolvable, a well named interface and an IPv4 range, a good beacon if any, trusted zones that can be, and every enabled rule an unlogged ingress allow or deny of tcp, udp or anything, with good ranges of at most 1024 ports and a remote that resolves. |
| `NetCompile.LowerAllInPlace` | internal/netguard/compile.go:170-241 | Lowering rules in place keeps first match: the plan so far decides a packet as the rules so far do. |
| `NetCompile.LowerAllLast` | internal/netguard/compile.go:248-272 | Lowering with broad allows moved to the end matches exactly the packets the rules match, when all of them accept. |
| `NetCompile.SourceSame` | internal/netguard/compile.go:290-358 | A source resolved for a rule matches exactly the remotes the rule names, and a group with nobody to match is left out. |
| `NetZones.BroadReadsZoneExactly` | internal/netguard/compile.go:248-358 | An allow of ports from the public or wireguard zone means the same packets as any other rule from that zone if and only if the public zone is one interface without prefixes, or the wireguard zone's first prefix covers the others. |
| `NetZones.SecondPrefixIsLeftOut` | internal/netguard/compile.go:248-358 | A second wireguard prefix outside the first: an allow of port 22 from the zone leaves its hosts out, a deny reaches them. |
| `NetCompile.TrustedSame` | internal/netguard/compile.go:394-416 | The rules of trusted zones accept exactly the packets of those zones. |
| `NetCompile.ExpandMembers` | internal/netguard/compile.go:420-450 | Expanding ranges gives exactly the ports in them, ascending and valid. |
| `NetZones.DefaultsAre` | internal/netguard/compile.go:452-465 | Without a public zone the interface is eth0; without a wireguard zone the range is 10.66.0.0/24. |
| `NetPrefix.WithinExactly` | internal/netguard/lint.go:369-384 | One prefix lies in another exactly when every address of it does. |
| `NetCompiler.ExpandPortRanges` | internal/netguard/compile.go:420-450 | The loops compute the model's expansion, errors included. |
| `NetCompiler.TrustZones` | internal/netguard/compile.go:394-416 | The rules appended zone by zone are the model's, or it fails as the model does. |
| `NetCompiler.CompilePlan` | internal/netguard/compile.go:79-159 | The plan built up rule by rule and normalised is the one the meaning theorem is about, or it fails as the model does. |
| `NetPlan.RenderSame` | internal/network/nft.go:121-138 | The rendered lines decide a packet as the rules and broad lists do, in order. |
| `NetPlan.RenderRuleSame` | internal/network/nft.go:317-366 | The one or two lines of a rule, one per address family, decide exactly what the rule decides. |
| `NetPlan.NormalSame` | internal/network/nft.go:159-203 | Normalising a plan never changes what it decides. |
| `NetPlan.NormalRuleSame` | internal/network/nft.go:217-268 | Normalising a rule's ports and sources never changes what it matches. |
| `NetPlan.NormalizePorts` | internal/network/nft.go:385-400 | Invalid ports are refused; the rest come out sorted and without repeats. |
| `NetLint.LintIsSound` | internal/netguard/lint.go:277-318 | For every plan that renders, when the lint reports no path for a set of ports, the chain accepts no tcp packet to any of them, from any source on any interface. |
| `NetLint.ManagementPathOpen` | internal/netguard/lint.go:277-318 | The walk per port, gathering drops, answers whether some accept is shadowed by none of them. |
| `NetLint.ShadowMatches` | internal/netguard/lint.go:341-384 | A shadowing drop matches every tcp packet its accept matches. |
| `NetLint.AdmitsImpliesAccepts` | internal/netguard/admits.go:32-144 | For every plan, port and audience, what Admits answers yes to over tcp AcceptsTCPPort answers yes to. |
| `NetLint.AdmitsAudience` | internal/netguard/admits.go:32-74 | The loop answers whether the first rule settled for the audience is an accept that covers it. |
| `NetLegacy.RangesRoundTrip` | internal/netguard/convert.go:27-50 | For valid ports, at most 1024 distinct, expanding the compressed ranges gives the sorted distinct ports; with more, expansion is refused. |
| `NetLegacy.CompressMembers` | internal/netguard/convert.go:27-50 | Compression of an ascending list loses no port and adds none. |
| `NetLegacy.CompressPorts` | internal/netguard/convert.go:27-50 | The loop that widens the last range in place computes the ranges of the sorted distinct valid ports. |
| `NetLegacy.LegacyParity` | internal/netguard/convert.go:67-141 | For valid ports, at most 1024 distinct per list, compiling the converted baseline gives the plan that normalising the legacy inputs gives, or fails as it does. |
| `NetLegacy.LegacyParityExactly` | internal/netguard/convert.go:27-141 | For all legacy inputs, the two paths agree if and only if the interface or range is bad, or all ports are valid and no list has more than 1024 distinct ones, or some port is invalid and some list has more than 1024 distinct valid ones. |
| `NetLegacy.ConvertedCompiles` | internal/netguard/compile.go:79-159 | The converted baseline compiles if and only if interface and range are good and no list has more than 1024 distinct valid ports. |
| `NetLegacy.LegacyNormalises` | internal/network/nft.go:159-203 | The legacy path takes its inputs if and only if interface and range are good and every port is valid. |
| `NetLegacy.WiderIsRefused` | internal/netguard/compile.go:420-450 | Too many ports in any of the four lists: the compiler refuses what the legacy path takes. |
| `NetLegacy.InvalidPortIsDropped` | internal/netguard/convert.go:27-34 | A port of 0: the compiler takes what the legacy path refuses. |
| `AuditModel.VerifyIsChain` | internal/audit/wal.go:78-113 | Verification accepts exactly the chains, empty lines aside, and reports their count and head. |
| `AuditModel.VerifyFile` | internal/audit/wal.go:78-113 | The loop over a running head computes that verdict. |
| `AuditModel.FingerprintsAre` | internal/audit/wal.go:185-215 | Fingerprints can be read exactly when the file is all records and no id repeats, and they are the ids with their events. |
| `AuditModel.OpenAccepts` | internal/audit/wal.go:150-172 | Opening succeeds if and only if the file is a chain whose ids are distinct and whose head the anchor knows. |
| `AuditModel.OpenIsSound` | internal/audit/wal.go:384-424 | With an injective chain hash, over an anchor written for a log, alone or with a pending record, opening accepts a file only if it is exactly that chain or that chain plus the pending record. |
| `AuditModel.CrashRecovers` | internal/audit/wal.go:247-287 | A crash between any two durable steps of an append: reopening succeeds if and only if the record was not yet written or the ids with it are distinct, and then with exactly the chain before or after the append and no pending anchor. |
| `AuditModel.RunsRecover` | internal/audit/wal.go:247-287 | Over whole runs with fresh ids, every reopen succeeds after any number of crashes, the disk is exactly the chain of what was written, no append that returned is lost and no pending anchor is left. |
| `AuditModel.NothingIsLost` | internal/audit/wal.go:247-287 | Whatever follows a run, crashes and reopens included, its file is still there at the front of the later one, and an append that returned has its record where it put it. |
| `AuditModel.RepeatedIdIsRefused` | internal/audit/wal.go:185-215 | The condition on ids is needed: after any such run a plain append that repeats an id returns, and the next open refuses the file. |
| `AuditModel.LaterAppendsDoNotMatter` | internal/audit/wal.go:348-370 | The file's length and the anchor captured together after any durable step of an append verify, with the chain before or after it, whatever is appended since. |
| `AuditModel.PrefixNeedsItsAnchor` | internal/audit/wal.go:348-370 | A prefix that is a chain verifies against exactly the anchors that know its head, as committed or pending. |
| `Audit.ReadFingerprints` | internal/audit/wal.go:185-215 | The loop builds exactly the model's map of ids, or fails as the model does. |
| `Audit.EnsureAnchor` | internal/audit/wal.go:384-417 | A missing anchor is bootstrapped, a matching one settled, any other refused. |
| `Audit.WAL.constructor` | internal/audit/wal.go:143-172 | A log over empty files is valid and holds nothing. |
| `Audit.WAL.Open` | internal/audit/wal.go:150-172 | Opening recovers the log from the disk alone, or refuses and leaves the file and memory as they were. |
| `Audit.WAL.Append` | internal/audit/wal.go:247-287 | Pending anchor, record, memory, committed anchor: the log is the old one plus the event. |
| `Audit.WAL.AppendIdempotent` | internal/audit/wal.go:224-245 | A repeat of the same event writes nothing, a different event under the same id is a conflict, anything else is appended. |
| `NetAudience.WayInExactly` | internal/netguard/lint.go:277-321 | An accept for a port is a way in exactly when no one drop before it, for that port, takes every interface and source it takes. |
| `NetAudience.ShadowsExactly` | internal/netguard/lint.go:341-367 | A drop shadows an accept exactly when it takes its interface and each of its prefixes lies in one of the drop's, address by address. |
| `NetAudience.CoversExactly` | internal/netguard/admits.go:122-144 | A rule covers an audience exactly when it sees its interface and takes every source: the mesh range inside one prefix, or a whole address family. |
| `NetAudience.AdmittedPacket` | internal/netguard/admits.go:32-76 | When a port is admitted it is by an accept that covers the audience, so a packet it matches is dropped exactly when a drop matches the packet first. |
| `NetAudience.CoveringMatches` | internal/netguard/admits.go:122-144 | A rule that covers an audience matches every packet of it on its interface, for the public of the family its whole prefix has. |
| `NetAudience.DropsTogether` | internal/netguard/admits.go:32-76 | That can happen to everyone: a plan that admits the public to a udp port although two drops before it, of two half ranges each, take every packet there is. |
| `NetAudience.MeshOnlyIsNotPublic` | internal/netguard/admits.go:32-76 | A port only the wireguard list of its protocol opens is not admitted to the public. |
| `LogStore.KeptIsLongestSuffix` | internal/logstore/logstore.go:190-228 | What eviction keeps is a suffix of the chunks, it fits the cap, and no longer suffix fits. |
| `LogStore.RunsHoldTheEnd` | internal/logstore/logstore.go:134-228 | In every run of appends, shrinks and cap changes a source holds the end of what was ever appended, and within the cap after every append or shrink. |
| `LogStore.RunsHoldTheLongestEnd` | internal/logstore/logstore.go:134-228 | While the cap stays as it was, a source holds the longest end of everything ever appended that fits. |
| `LogStore.WalkSplits` | internal/logstore/logstore.go:251-283 | A page and what it leaves make up every match; a page that leaves something has reached the limit, and had not before its oldest chunk. |
| `LogStore.Source.constructor` | internal/logstore/logstore.go:76-102 | A new source is empty, with the cap given or its default. |
| `LogStore.Source.SetCap` | internal/logstore/logstore.go:410-415 | The cap changes and nothing is evicted. |
| `LogStore.Source.Append` | internal/logstore/logstore.go:134-184 | Keys stay contiguous, both counters stay the true sums, and the chunks are the longest fitting suffix of the old ones and the new one; no lines are refused. |
| `LogStore.Source.EvictToCap` | internal/logstore/logstore.go:190-228 | The loop leaves exactly the longest suffix that fits, and the counters its sums. |
| `LogStore.Source.ShrinkToCap` | internal/logstore/logstore.go:457-477 | The same for a lowered cap, reporting whether anything was over it. |
| `LogStore.Source.Query` | internal/logstore/logstore.go:231-289 | A page of whole chunks below the cursor, newest first, and a cursor exactly when chunks are left. |
| `LogStore.Source.ReadAll` | internal/logstore/logstore.go:231-289 | On an unchanged source, following the cursor from 0 until it is 0 ends and returns every matching line exactly once, newest first. |
| `LogStore.WalkBack` | internal/logstore/logstore.go:249-283 | The cursor loop computes the model's page and how many chunks it left. |
| `LogStore.EveryLineOnce` | internal/logstore/logstore.go:231-289 | Paging holds a line exactly as often as it was logged if it is wanted, and not at all if it is not. |
| `LogStore.NewestFirst` | internal/logstore/logstore.go:231-289 | Of lines that are all wanted, the last comes first. |
| `LogStore.NewerChunksFirst` | internal/logstore/logstore.go:231-289 | The matches of newer chunks come before those of older ones. |
| `RateTheorems.PromisesNeedMemory` | internal/ratelimit/ratelimit.go:85-140 | For every configuration, sweeping never changes an answer if and only if rate times TTL is at least the burst, and tokens in every window stay within burst plus rate times its length under exactly the same condition. |
| `RateTheorems.SweepingChangesNothing` | internal/ratelimit/ratelimit.go:130-140 | For a clock that never goes back and a cap never reached, every answer is that of a limiter that forgets nothing. |
| `RateTheorems.RateBound` | internal/ratelimit/ratelimit.go:85-119 | Under the same conditions the tokens granted to any key in any window are at most the burst plus the rate times its length. |
| `RateTheorems.ShortMemoryForgives` | internal/ratelimit/ratelimit.go:130-140 | With a shorter memory a spent bucket is forgotten and handed out afresh, and the bound is passed. |
| `RateTheorems.StepTakes` | internal/ratelimit/ratelimit.go:103-119 | Tokens are conserved: what a request is granted leaves its own key's level and no other. |
| `RateKeys.FewKeysHaveRoom` | internal/ratelimit/ratelimit.go:96-102 | A run with no more keys than the cap never reaches it. |
| `RateKeys.EvictionForgives` | internal/ratelimit/ratelimit.go:144-158 | At every cap, one key more than it holds, the victims least recently seen, lets the first key have its burst twice at one instant. |
| `RateKeys.BoundNeedsRoom` | internal/ratelimit/ratelimit.go:85-158 | For every configuration and n, the rate bound holds in every run over at most n keys if and only if n is at most the cap and rate times TTL at least the burst. |
| `RateModel.ServeLevel` | internal/ratelimit/ratelimit.go:103-119 | A request is granted exactly when the level suffices. |
| `RateModel.SweepLevel` | internal/ratelimit/ratelimit.go:130-140 | A bucket that is swept was full. |
| `RateLimit.Limiter.constructor` | internal/ratelimit/ratelimit.go:50-75 | Settings that are not positive get their defaults. |
| `RateLimit.Limiter.SweepLocked` | internal/ratelimit/ratelimit.go:130-140 | At most once per TTL, exactly the buckets idle for longer than it are gone. |
| `RateLimit.Limiter.EvictOldestLocked` | internal/ratelimit/ratelimit.go:144-158 | Exactly one least recently seen bucket is gone. |
| `RateLimit.Limiter.AllowN` | internal/ratelimit/ratelimit.go:85-119 | The answer and the new state are the model's, a request for nothing is granted and changes nothing, and a bucket that makes room is a least recently seen one. |

## Left out

- MetricsTheorems.RebuildsAreWhole: for bucket 0 it asks for two coarse buckets kept below, which is enough in every tier; the exact amount is proved for the second tier and a finest resolution that divides the hour, as the default of 60 s does.
- MetricsTheorems.SecondTierIsExact: where some tier keeps less than two buckets of the next, leaves out bucket 0; a last rolled bucket of 0 does not say whether it was rolled.
- MetricsTheorems.RollupsAreExact: leaves out bucket 0 in the same stores.
- MetricsQuery.SpliceIsExact: leaves out ranges that start in bucket 0 of a coarser tier in the same stores, and where the finest tier keeps less than two buckets of the chosen one.
- MetricsDB.QueriesAreExact: leaves out the same ranges.
- MetricsValues.QueryByName: leaves out the same ranges.
- MetricsValues.QueryValues: leaves out the same ranges.
- MetricsValues.RollupValues: leaves out bucket 0 in the same stores.
- MetricsValues.SecondTierValues: leaves out bucket 0 in the same stores.
- MetricsPoints.PointsFitExactly: asks for a range that starts far enough from the epoch for the horizon to stay behind while it is filled, 84 days at most with the default tiers; PointsBound has no such condition.
- RowCodec.RowRoundTrip: floats are the 32-bit values as stored; rounding a float64 to them is not modelled.
- LogStore.Source.EvictToCap: the branch that steps over a missing key is not written, because contiguous keys never reach it.
- Rounding of the float fields of gauges and events, histogram logarithms and quantiles; counters are unbounded but for WrapAgreesExactlyBelowLimit.
- Instants before the epoch and fractions of a second in the metrics store (but for floorUnix), overflow of 32-bit owner and series ids, the reason recorded for a refused sample, and the statistics of late ones.
- Deleting owners and pruning idle series, statistics, and recovery from a damaged metrics file.
- The order in which Query lists its series.
- bbolt, files, fsync, pipes, processes, signals and timers; a database transaction is one step, and a process group going away is an event of its own.
- The replenish supervisor's candidate before it enters the idle list, and its backoff.
- InvokeConstrained, the message of a failed retirement in Start, and the text of statuses and errors.
- JSON and nft text; frames, events and chain lines are values.
- Parsing of addresses and prefixes, blank strings, the order of source prefixes within a rule, connection-tracking options of a plan, and the names the lint gives to shadowing rules.
- A failing write or sync while the audit log stays open, and torn lines.
- Ciphers, chunks of the log store that do not decode, rotation marks, purging a source and statistics; several sources share nothing but the cap, so one is modelled.
- Floating-point rounding in the rate limiter.
- Group resolution, policy expansion, georouting, the RPC registry, HTTP clients, authentication and the server's handlers.
