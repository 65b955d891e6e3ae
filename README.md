# ChainFuzz fuzzing engine, modelled in Dafny

ChainFuzz fuzzes Ethereum smart contracts. It deploys a Truffle project's
contracts on an in-process chain and sends them transactions one at a time.
The transactions are built from a corpus of argument values. It watches
each execution trace for four things:

- arithmetic overflows;
- failed assertions (the INVALID opcode);
- reverts;
- `fuzz_always_true*` properties that return false or revert.

The trace also feeds coverage, new timestamps and newly deployed contracts
back into the engine.

This project models the engine's core and proves properties of it. The
core has five parts.

- **The corpus** (`pool.dfy`, `typed_pools.dfy`, `timestamp_pool.dfy`,
  `arg_pool.dfy`, `roundrobin.dfy`).
  - Each pool is an imperative class with `idx`, `storage` and `storageMap`
    fields, walked round-robin.
  - The timestamp pool moves its cursor before reading and is re-sorted
    after every insert.
  - `ArgPool` bundles the pools.
    - Its guarded adds keep every pool free of duplicates.
    - Its `Valid()` predicate is kept by every method.
    - `Contents()` abstracts the stored sequences.
  - `Registry` models the package singleton together with the `GetPool`
    cache.
- **Statistics** (`statistics.dfy`): the per-method `(failed, total)` counters
  and the pacing counter `txCntAfterRevert`.
- **Trace analysis** (`processor.dfy`): `processLogs` as a `for` loop over
  a trace of `StructLog` steps.
  - The loop carries five independent concerns:
    - first overflow;
    - minimum depth of INVALID and of REVERT;
    - coverage through a call stack;
    - timestamp harvesting;
    - deployment detection.
  - Each concern is also defined as a fold over the trace. The loop is proved
    to compute the folds, and the folds' properties are proved as lemmas.
- **Argument building** (`abi.dfy`, `args.dfy`, `contracts.dfy`).
  - The recursive fill over an ABI type tree draws every leaf from its pool.
  - The recursive harvest of returned values adds them back.
  - `InitArgPool` seeds the corpus.
  - From `contracts.go`: the string and slice helpers (swarm hash, linker
    placeholders, swap-remove) and the ignore lists.
- **Transaction generation and the round driver** (`generator.dfy`,
  `heuristics.dfy`, `backend.dfy`).
  - `GenTransaction` resolves a hint into a transaction:
    - a hint field wins over a random choice;
    - the amount is drawn from the corpus within the sender's balance;
    - the choices are written back into the hint.
  - `GenTimestamp` paces block timestamps.
  - `Rec` runs one round, records findings, counts the transaction and may
    retry a reverted transaction.

What is taken as a parameter:

- **Randomness and the clock.** Every `rand.Int`, `rand.Intn` and
  `time.Now` is a parameter.
  - `Rec` receives a `world: nat -> World` that gives, per transaction
    count, the clock, the random draws and the outcome of executing the
    transaction.
  - `InitArgPool` receives its 320 random bytes as `draws`.
  - A slice length is any value in [1, 16].
- **Execution.** Executing a transaction is an `Execution` value: rejected
  by the chain, or applied with its trace, its return data, the ABI
  decoding of that data, the address a deployment would get and the
  balances afterwards. The commit
  runs the model's `processLogs` on these.
- **The chain state.** It is reduced to the account balances and the
  snapshot taken of them. An executed transaction leaves the balances its
  value transfer produced, which its `Execution` value carries; a rejected
  one is reverted and leaves them as they were. `GenTimestamp`'s revert
  restores the balances of the last snapshot.
- **Panics.** A Go run-time panic is a `Result.Panic` value wherever the
  modelled code can panic. Panics come from:
  - a type assertion on `nil`;
  - an index out of range;
  - `panic(...)` on an unknown type or method.

  Callers propagate the panic as Go would.

Integer widths are modelled explicitly:

- `Int8` … `Int64` and `Uint16` … `Uint64` are subset types;
- Go's conversions `int8(x)`, `uint64(x)` and so on are two's-complement
  truncations (`Common.Signed`, `Common.ToByte`, …);
- 256-bit EVM words are `int` values below 2^256.

## Model

| member | source | states |
|---|---|---|
| RoundRobin.Advance | argpool/pool.go:50 | the cursor after one move stays below the pool size (with `AdvanceIsModular` it is `(i + 1) % n`) |
| RoundRobin.AdvanceIsModular | argpool/pool.go:50 | the wrap-around move is exactly Go's `(idx + 1) % len` |
| RoundRobin.LapAt | argpool/pool.go:45-52 | the j-th of k read-then-move calls returns the item under the cursor after j moves |
| RoundRobin.PreLapAt | argpool/timestamppool.go:44-50 | the j-th of k move-then-read calls returns the item under the cursor after j + 1 moves |
| RoundRobin.ReachedWithinLap | argpool/pool.go:45-52 | every index k is reached from cursor i within fewer than n moves, after exactly (k - i) mod n of them |
| RoundRobin.LapFromStart | argpool/pool.go:45-52 | from cursor 0, k <= size reads return the first k stored items in insertion order |
| RoundRobin.FullLap | argpool/pool.go:45-52 | from cursor 0, Size() reads return the whole storage in insertion order, the cursor is back at 0 and the next read repeats the first item |
| RoundRobin.LastItemReached | argpool/timestamppool.go:44-64 | from cursor 0, after k moves the cursor stands on the last item exactly when k = n - 1 (or n = 1) |
| Pool.Pool.constructor | argpool/pool.go:65-69 | a new pool is empty with cursor 0 and no seen keys |
| Pool.Pool.Add | argpool/pool.go:40-43 | the item is appended at the end and its `%v` rendering recorded; duplicates are not rejected; the cursor stays |
| Pool.Pool.Next | argpool/pool.go:45-52 | nil on an empty pool with the cursor unchanged; otherwise the item under the cursor, after which the cursor moves to (idx + 1) mod len |
| Pool.Pool.Contains | argpool/pool.go:54-57 | true iff some stored item has the same `%v` rendering as the value |
| Pool.Pool.Size | argpool/pool.go:59-61 | the number of stored items |
| Pool.PoolCache.GetPool | argpool/pool.go:63-72 | the same instance for a known id with the cache unchanged; otherwise a fresh empty pool with cursor 0, remembered under that id |
| TypedPools.TypedPool.constructor | argpool/int8pool.go:57-63 | a new typed pool is empty with cursor 0 |
| TypedPools.TypedPool.Add | argpool/int8pool.go:34-37 | the item is appended and marked seen (the same for the int16, int32, int64, bytes32 and string pools) |
| TypedPools.TypedPool.Next | argpool/int8pool.go:39-46 | the zero value (0, the zero array or "") on an empty pool without moving the cursor; otherwise storage[idx], then the cursor advances modulo the length |
| TypedPools.TypedPool.Contains | argpool/int8pool.go:48-51 | true exactly for values that were added |
| TypedPools.TypedPool.Size | argpool/int8pool.go:53-55 | the storage length |
| TypedPools.GetInt8Pool | argpool/int8pool.go:57-63 | a fresh empty int8 pool with cursor 0 and zero value 0 |
| TypedPools.GetInt16Pool | argpool/argpool.go:176 | a fresh empty int16 pool, built like the other integer pools |
| TypedPools.GetInt32Pool | argpool/int32pool.go:57-63 | a fresh empty int32 pool with cursor 0 on every call |
| TypedPools.GetInt64Pool | argpool/int64pool.go:57-63 | a fresh empty int64 pool with cursor 0 |
| TypedPools.GetBytes32Pool | argpool/bytes32pool.go:57-63 | a fresh empty bytes32 pool whose zero value is the all-zero array |
| TypedPools.GetStringPool | argpool/stringpool.go:57-63 | a fresh empty string pool with cursor 0 and zero value "" |
| TimestampPool.Key | argpool/timestamppool.go:74 | `Uint64()` of a stored `int64` value is its magnitude |
| TimestampPool.InsertByKeyPermutes | argpool/timestamppool.go:72-76 | inserting by key adds exactly the new item to the multiset |
| TimestampPool.InsertByKeySorted | argpool/timestamppool.go:72-76 | inserting by key into a sorted sequence keeps it sorted |
| TimestampPool.SortByKeyCorrect | argpool/timestamppool.go:72-76 | the reference sort returns a permutation of its input in non-decreasing key order |
| TimestampPool.TimestampPool.constructor | argpool/timestamppool.go:82-88 | a new timestamp pool is empty with cursor 0 |
| TimestampPool.TimestampPool.Add | argpool/timestamppool.go:39-42 | `int64(item)` is appended and the uint64 key marked seen; the cursor stays |
| TimestampPool.TimestampPool.Next | argpool/timestamppool.go:44-50 | nil on an empty pool; otherwise the cursor first moves to (idx + 1) mod len and the item then under it is returned |
| TimestampPool.TimestampPool.GetCurrent | argpool/timestamppool.go:52-57 | nil iff the pool is empty, otherwise storage[idx]; the cursor never moves |
| TimestampPool.TimestampPool.AllPassed | argpool/timestamppool.go:59-64 | true iff the pool is non-empty and the cursor is on the last index |
| TimestampPool.TimestampPool.Contains | argpool/timestamppool.go:66-69 | true exactly for values that were added |
| TimestampPool.TimestampPool.Sort | argpool/timestamppool.go:72-76 | the storage becomes a permutation of itself in non-decreasing key order; the cursor and the seen keys are unchanged |
| TimestampPool.TimestampPool.Size | argpool/timestamppool.go:78-80 | the storage length |
| ArgPool.GuardedAddKeepsDistinct | argpool/argpool.go:48-102 | a guarded add keeps a duplicate-free pool duplicate-free, always leaves the item in it, only appends, and grows the size by one iff the item was absent |
| ArgPool.GuardedAddIdempotent | argpool/argpool.go:48-102 | adding the same item twice is the same as adding it once |
| ArgPool.GuardedAddRenderedKeepsDistinct | argpool/argpool.go:83-95 | for the address and BigInt pools, a guarded add keeps renderings distinct and leaves an item with the value's rendering |
| ArgPool.GuardedAddRenderedIdempotent | argpool/argpool.go:83-95 | a repeated address or BigInt add changes nothing |
| ArgPool.GuardedAddTimestampKeepsInvariant | argpool/argpool.go:104-110 | after AddTimestamp the timestamp storage is sorted and duplicate-free, holds the new value and every old one, and gains exactly the new value when it was absent |
| ArgPool.ArgPool.constructor | argpool/argpool.go:174-184 | the corpus literal: fresh empty typed pools and the two given untyped pools |
| ArgPool.ArgPool.AddInt64 | argpool/argpool.go:48-53 | the int64 pool becomes the guarded add of the item; every other pool is unchanged; the corpus stays valid |
| ArgPool.ArgPool.AddInt32 | argpool/argpool.go:55-60 | the same for the int32 pool |
| ArgPool.ArgPool.AddInt16 | argpool/argpool.go:62-67 | the same for the int16 pool |
| ArgPool.ArgPool.AddInt8 | argpool/argpool.go:69-74 | the same for the int8 pool |
| ArgPool.ArgPool.AddBytes32 | argpool/argpool.go:76-81 | the same for the bytes32 pool |
| ArgPool.ArgPool.AddAddress | argpool/argpool.go:83-88 | the address pool gains the address iff no stored item renders like it |
| ArgPool.ArgPool.AddBigInt | argpool/argpool.go:90-95 | the BigInt pool gains the value iff no stored item renders like it |
| ArgPool.ArgPool.AddString | argpool/argpool.go:97-102 | the same for the string pool |
| ArgPool.ArgPool.AddTimestamp | argpool/argpool.go:104-110 | a new timestamp is appended and the pool re-sorted; a known one changes nothing; the cursor stays; the pool stays sorted and duplicate-free |
| ArgPool.ArgPool.NextInt64 | argpool/argpool.go:112-114 | 0 on an empty int64 pool, otherwise the item under the cursor; contents unchanged |
| ArgPool.ArgPool.NextInt32 | argpool/argpool.go:116-118 | the same for the int32 pool |
| ArgPool.ArgPool.NextInt16 | argpool/argpool.go:120-122 | the same for the int16 pool |
| ArgPool.ArgPool.NextInt8 | argpool/argpool.go:124-126 | the same for the int8 pool |
| ArgPool.ArgPool.NextBytes32 | argpool/argpool.go:128-130 | the zero array on an empty bytes32 pool, otherwise the item under the cursor |
| ArgPool.ArgPool.NextString | argpool/argpool.go:140-142 | "" on an empty string pool, otherwise the item under the cursor |
| ArgPool.ArgPool.NextAddress | argpool/argpool.go:132-134 | panics iff the address pool is empty (type assertion on nil); otherwise the address under the cursor, which then advances |
| ArgPool.ArgPool.NextBigInt | argpool/argpool.go:136-138 | panics iff the BigInt pool is empty; otherwise the value under the cursor, which then advances |
| ArgPool.ArgPool.NextTimestamp | argpool/argpool.go:144-149 | on an empty pool the clock value and false with the pool untouched; otherwise the timestamp after the pre-move and whether the new cursor is the last index |
| ArgPool.ArgPool.CurrentTimestamp | argpool/argpool.go:151-156 | the clock value on an empty pool, otherwise the stored timestamp under the cursor |
| ArgPool.ArgPool.GetSizes | argpool/argpool.go:158-169 | the sizes of the int8, int16, int32, int64, string, address, bigInt and timestamp pools, and no bytes32 entry |
| ArgPool.Registry.constructor | argpool/argpool.go:33 | at start-up there is no corpus and the id cache is empty |
| ArgPool.Registry.GetArgPool | argpool/argpool.go:172-187 | the existing singleton if there is one; otherwise a fresh corpus whose seven typed pools (int8 to int64, bytes32, string, timestamp) all have empty storage and whose Address and BigInt pools are the cached instances, contents included |
| ArgPool.Registry.ResetArgPool | argpool/argpool.go:189-191 | the singleton is dropped; the cached untyped pools survive |
| Statistics.Lookup | utils/statistics.go:41-43 | the counts of an unseen pair are [0, 0] |
| Statistics.WithEntry | utils/statistics.go:34-44 | `setIfNil` creates the pair's entry and changes no existing count |
| Statistics.RecordedCounts | utils/statistics.go:46-64 | one transaction adds one to its pair's total, one to its failures iff it failed, and leaves every other pair unchanged |
| Statistics.RecordedKeepsWellCounted | utils/statistics.go:46-55 | failed <= total is preserved for every pair |
| Statistics.Stats.constructor | utils/statistics.go:29-32 | the zero value has no entries and a zero counter |
| Statistics.Stats.SetIfNil | utils/statistics.go:34-44 | makes sure the pair has an entry, [0, 0] when new |
| Statistics.Stats.AddFailedTx | utils/statistics.go:46-50 | failed and total of the pair both grow by one (entry created first) |
| Statistics.Stats.AddSuccessfulTx | utils/statistics.go:52-55 | only the pair's total grows by one |
| Statistics.Stats.AddTx | utils/statistics.go:57-64 | the counter grows by exactly one and exactly one of the two updates is made, as `failed` says |
| Statistics.Stats.IncTxCnt | utils/statistics.go:66-68 | the counter grows by one |
| Statistics.Stats.ResetCounter | utils/statistics.go:70-72 | the counter becomes 0 |
| Statistics.Stats.GetCount | utils/statistics.go:74-76 | reads the counter without changing anything |
| Statistics.Stats.GetTotalOf | utils/statistics.go:78-81 | the pair's total, 0 for an unseen pair, which gets a [0, 0] entry |
| Backend.Backend.GetBalance | utils/generator.go:45 | an account's balance, 0 for an unknown account |
| Backend.Backend.SnapshotBackend | utils/snapshots.go:33-36 | the snapshot becomes a copy of the current state |
| Backend.Backend.RevertBackend | utils/snapshots.go:38-41 | the state becomes the last snapshot |
| Processor.DetectsWrapAround | utils/processor.go:44-66 | for words below 2^256 the exact result of ADD, SUB, MUL or EXP differs from the EVM's iff it leaves [0, 2^256): a + b >= 2^256, a < b, a * b >= 2^256 |
| Processor.OverflowRunFirst | utils/processor.go:141-159 | the recorded overflow is empty iff no step overflowed; otherwise it is the message of the first overflowing step, which is never the last step, and it is not overwritten later |
| Processor.OverflowRunShortStack | utils/processor.go:143-152 | an arithmetic step with fewer than two stack items, or followed by an empty stack, panics while no overflow is known |
| Processor.MinDepthRunCorrect | utils/processor.go:114-118 | AssertionAtDepth and RevertAtDepth are -1 when no INVALID (0xfe) or REVERT step occurs, else the minimum depth among such steps |
| Processor.GuardedAddTimestampMembers | argpool/argpool.go:104-110 | a timestamp add leaves exactly the old items and the new one |
| Processor.TimestampsAddedMembers | utils/processor.go:128-137 | one stack's harvest adds exactly its uint64 values strictly between 1420070400 and 1735689600 |
| Processor.TimestampRunMembers | utils/processor.go:127-138 | over a trace the pool gains exactly the stack values strictly inside the window |
| Processor.CoverageStep | utils/processor.go:179-197 | a deeper step pushes one address; a shallower one pops one; otherwise the stack is unchanged; the step's pc is added under the new top |
| Processor.CoverageStepGrows | utils/processor.go:193-197 | a coverage step removes no program counter |
| Processor.CoverageRunGrows | utils/processor.go:177-198 | the coverage map only grows over a trace |
| Processor.CoverageRunRecords | utils/processor.go:177-198 | every step's pc is recorded under the contract on top of the call stack when that step ran |
| Processor.CoverageStepSound | utils/processor.go:193-197 | a coverage step records nothing but that step's pc |
| Processor.CoverageRunSound | utils/processor.go:177-198 | every recorded pc was recorded before the pass or is the pc of some step |
| Processor.DeployStepAppends | utils/processor.go:200-222 | a step changes the deployed contracts only at a RETURN, and then appends exactly the deployed address to one contract's list |
| Processor.DeployRunAppends | utils/processor.go:200-222 | over a trace, contracts' address lists only gain the deployed address |
| Processor.ConfigOf | utils/processor.go:101-105 | deployment checks run with nil options or when asked; coverage only with a recipient; timestamps only when asked |
| Processor.ProcessOutcome | utils/processor.go:127 | with nil options a non-empty trace panics (the field read on a nil `*Options`) |
| Processor.HarvestTimestamps | utils/processor.go:128-137 | the timestamp pool gains the stack's values inside the window and nothing else changes |
| Processor.CheckOverflow | utils/processor.go:141-161 | one overflow check computes the fold's step, or panics when it does |
| Processor.UpdateCoverageAt | utils/processor.go:177-198 | one coverage update computes the fold's step on the call stack and the coverage table |
| Processor.DetectDeployment | utils/processor.go:200-222 | one deployment check computes the fold's step |
| Processor.StepEarly | utils/processor.go:127-175 | the timestamp, overflow and depth folds each advance by one step |
| Processor.StepLate | utils/processor.go:177-222 | the coverage and deployment folds each advance by one step |
| Processor.ProcessStep | utils/processor.go:125-223 | one loop iteration advances all five folds, or panics exactly when one of them does |
| Processor.ProcessTrace | utils/processor.go:114-224 | the loop, from reset result fields, ends with the folds' values in the backend and pool, or panics exactly when a fold does; only the timestamp pool changes |
| Processor.ProcessLogs | utils/processor.go:98-224 | `processLogs`: stores the return data, feeds it to the pool when asked, then the result fields, coverage, deployments and timestamps equal the analysis of the trace |
| Processor.OutcomeEnriches | utils/processor.go:98-224 | a successful `processLogs` only extends the pools (the int8 pool is never fed) and keeps every old timestamp, and the coverage only grows |
| Processor.AnalyseTrace | utils/processor.go:114-224 | the analysis after the prologue equals the outcome function |
| Processor.StoreReturnData | utils/processor.go:107-116 | the return data is stored, harvested into the pool when asked and non-empty, and the result fields are reset to -1, -1 and "" |
| Args.FillSmallInt | utils/args.go:43-50 | an 8- or 16-bit leaf is drawn from its pool (unsigned types take the signed value converted), or the zero value from an empty pool |
| Args.FillWideInt | utils/args.go:51-58 | the same for 32- and 64-bit leaves |
| Args.FillPlain | utils/args.go:59-64 | a bytes32 or string leaf comes from its pool |
| Args.FillUntyped | utils/args.go:61-72 | an address or BigInt leaf comes from its pool, and panics exactly when that pool is empty |
| Args.FillInt | utils/args.go:43-58 | every integer leaf is drawn from the matching pool |
| Args.FillOther | utils/args.go:59-72 | the other leaves are drawn from their pools, a bool is always false, and a panic happens exactly for an empty address or BigInt pool |
| Args.Fill | utils/args.go:38-91 | `fillRecursively` returns a value of the requested type whose every leaf was drawn from its pool; it panics exactly on an unknown type or an empty address or BigInt pool it reaches; pool contents are unchanged |
| Args.FillComposite | utils/args.go:75-89 | an array of length N has all N elements filled; a slice gets a length in [1, 16] |
| Args.FillElems | utils/args.go:76-87 | n elements are filled in order, each conforming and drawn |
| Args.ConstructArgs | utils/args.go:141-148 | exactly one value per ABI argument, in order, each of its argument's type and drawn from the pools |
| Args.HarvestExtends | utils/args.go:93-138 | a harvest only appends to pools, and leaves the int8 and timestamp pools alone |
| Args.HarvestAllExtends | utils/args.go:132-136 | the same for a sequence of values |
| Args.HarvestKeepsDistinct | utils/args.go:93-138 | a harvest keeps every pool duplicate-free |
| Args.HarvestAllKeepsDistinct | utils/args.go:132-136 | the same for a sequence of values |
| Args.HarvestCollects | utils/args.go:93-138 | after a harvest every 16-bit-or-wider scalar leaf of the value is in its pool |
| Args.HarvestAllCollects | utils/args.go:157-159 | after `UpdatePool` every returned value is harvested |
| Args.HarvestOfHarvested | utils/args.go:93-138 | harvesting a value whose leaves are all present changes nothing |
| Args.HarvestAllOfHarvested | utils/args.go:132-136 | the same for a sequence of values |
| Args.HarvestIdempotent | utils/args.go:93-138 | feeding the same return value back twice is the same as once |
| Args.Update | utils/args.go:93-138 | `updateRecursively` leaves the corpus as the harvest function says: int8, uint8 and bool skipped, other scalars added, arrays and slices element-wise |
| Args.UpdateInt | utils/args.go:100-117 | the integer cases add the converted value to the int16, int32 or int64 pool |
| Args.UpdateLeaf | utils/args.go:96-130 | the other leaf cases, unknown types ignored |
| Args.UpdateAll | utils/args.go:132-136 | a sequence of values is harvested in order |
| Args.UpdatePool | utils/args.go:152-160 | a failed unpack leaves the corpus unchanged; otherwise every returned value is harvested |
| Args.SeededGrows | utils/args.go:162-200 | seeding only appends to pools |
| Args.PowerRange | utils/args.go:166 | the doubling loop runs for 2^0 … 2^59 and stops at 2^60 > 10^18 |
| Args.SmallIntsSeededHolds | utils/args.go:187-192 | the byte loop leaves int8(x) and x in the int8, int16, int32 and int64 pools |
| Args.BytesSeededHolds | utils/args.go:177-183 | every random array is added |
| Args.AccountsSeededHolds | utils/args.go:196-199 | every account's address and balance are added |
| Args.ToInt8Onto | utils/args.go:188 | `int8(i)` for i in 0..255 reaches every int8 value |
| Args.SeededHoldsConstants | utils/args.go:164-165 | after seeding the BigInt pool holds 0, the int64 pool holds -1 and the string pool holds "ChainSecurity" |
| Args.SeededHoldsPowers | utils/args.go:166-175 | after seeding every 2^k < 10^18 is in the int64 and BigInt pools, and in the int32 and int16 pools when it fits |
| Args.SeededHoldsSmallInts | utils/args.go:187-192 | after seeding the int8 pool holds all 256 values and the int16, int32 and int64 pools hold 0 … 255 |
| Args.SeededHoldsInputs | utils/args.go:177-199 | after seeding every random array, account address and account balance is in its pool |
| Args.SeedPowerOfTwo | utils/args.go:167-174 | one round of the doubling loop |
| Args.SeedPowersOfTwo | utils/args.go:166-175 | the doubling loop adds the powers of two as the seeding function says |
| Args.RandomWord | utils/args.go:178-181 | byte k of a random array is draw k modulo 256 |
| Args.RandomWords | utils/args.go:177-183 | ten arrays, 32 draws each |
| Args.DrawWord | utils/args.go:178-181 | the inner loop fills the array byte by byte as `RandomWord` says |
| Args.SeedRandomWords | utils/args.go:177-183 | the ten arrays are added to the bytes32 pool |
| Args.SeedSmallInt | utils/args.go:188-191 | one round of the byte loop |
| Args.SeedSmallInts | utils/args.go:187-192 | the byte loop for i from 0 to 255 |
| Args.SeedAccounts | utils/args.go:196-199 | each account's address, then its balance |
| Args.InitArgPool | utils/args.go:162-200 | the corpus after seeding is exactly the seeding function of the old corpus, the random arrays and the accounts |
| Args.SeedNumbers | utils/args.go:163-175 | 0, -1 and the powers of two |
| Args.SeedRest | utils/args.go:184-199 | the string, the byte loop and the accounts |
| Contracts.IsPayable | utils/contracts.go:68-70 | true iff the payable table has true for the method; an unknown contract or method reads as false |
| Contracts.LastIndexUpToCorrect | utils/contracts.go:74 | the search finds an occurrence and no later one up to the bound |
| Contracts.LastIndexCorrect | utils/contracts.go:74 | `strings.LastIndex`: -1 iff the marker never occurs, otherwise the last occurrence |
| Contracts.GetSwarmHashCorrect | utils/contracts.go:73-80 | no hash iff "a165" + hex("bzzr0") is absent; the slice panics iff fewer than 64 characters follow the last marker; otherwise the 64 characters after the last marker |
| Contracts.FirstIndex | utils/contracts.go:273-274 | the position of the first occurrence of a present value |
| Contracts.SwapRemove | utils/contracts.go:275-276 | moving the last element into slot i and truncating removes exactly a[i] from the multiset |
| Contracts.DeletedRemovesOne | utils/contracts.go:272-280 | a present value loses one occurrence and the length drops by one, the other elements are kept as a multiset; an absent value leaves the slice unchanged |
| Contracts.DeleteFromSlice | utils/contracts.go:272-280 | the loop computes the swap-remove of the first occurrence |
| Contracts.IgnoreContract | utils/contracts.go:282-287 | a known contract is removed from the deployed map and one occurrence from the contracts list; an unknown one changes nothing |
| Contracts.IgnoreContractMethod | utils/contracts.go:289-295 | one occurrence of the method is removed from that contract's method list only |
| Contracts.ReplacedLength | utils/contracts.go:297-308 | the output is never shorter, and has the same length iff every '_' starts a complete 40-character placeholder |
| Contracts.ReplacedHasNoPlaceholder | utils/contracts.go:297-308 | no '_' survives the replacement |
| Contracts.ReplacedIdentity | utils/contracts.go:297-308 | text without '_' is copied unchanged |
| Contracts.ReplacePlaceHolders | utils/contracts.go:297-308 | the index loop with its skip of 39 computes the replacement function |
| Contracts.DeletedAllShrinks | utils/contracts.go:323-326 | removing ignored methods only removes, and a listed method present at most once is gone |
| Contracts.DeletedAllKeepsAbsent | utils/contracts.go:323-326 | an absent method stays absent |
| Contracts.AddedTimestampsKeepInvariant | utils/contracts.go:316-318 | adding config timestamps keeps the pool sorted and duplicate-free, keeps every old value, adds every new one and nothing else |
| Contracts.AddTimestamps | utils/contracts.go:316-318 | the timestamp loop of one contract |
| Contracts.IgnoreMethods | utils/contracts.go:323-326 | the ignore loop of one contract changes only that contract's methods |
| Contracts.ListedSoFarStep | utils/contracts.go:319-322 | configuring one more contract keeps the multiset count of the contracts list in step with the configured contracts so far |
| Contracts.ConfigureContract | utils/contracts.go:319-326 | IgnoreAll removes the contract from the deployed map and, when it was deployed, one occurrence from the contracts list, skipping the method list; otherwise only that contract's ignored methods are removed and the list is unchanged |
| Contracts.AddConfigTimestamps | utils/contracts.go:314-318 | every contract's config timestamps, IgnoreAll ones included, end in the pool; no timestamp is lost and none but a config timestamp is added |
| Contracts.ApplyConfig | utils/contracts.go:314-327 | exactly the IgnoreAll contracts are removed and every other configured contract loses its ignored methods; as a multiset the contracts list loses exactly one occurrence of each deployed IgnoreAll contract and nothing else |
| Contracts.ProcessConfig | utils/contracts.go:312-328 | both halves together: config timestamps added for every contract and nothing else added, IgnoreAll contracts removed from the map and once from the list, other contracts' ignored methods removed |
| Contracts.RemoveLibraries | utils/contracts.go:330-337 | exactly the library contracts are removed from the deployed map |
| Contracts.GetContractMethod | utils/contracts.go:222-231 | "" selects the constructor, a known method its ABI, and an unknown method panics |
| Contracts.GetRandomContract | utils/contracts.go:233-236 | a member of the contract list; panics on an empty list |
| Contracts.GetRandomMethod | utils/contracts.go:238-241 | a method of the contract; panics when it has none |
| Generator.Hint.constructor | utils/generator.go:34-42 | a hint holds exactly the given fields |
| Generator.ResolveContract | utils/generator.go:61-65 | a non-empty hinted contract is used as is; otherwise one is picked from the list |
| Generator.ResolveMethod | utils/generator.go:67-74 | a non-empty hinted method is used as is, otherwise one is picked; Fallback forces "" regardless |
| Generator.FirstAddress | utils/generator.go:76 | the target is the contract's first address; panics when there is none |
| Generator.Resolve | utils/generator.go:61-77 | the contract, method, address and method ABI are resolved in that order, and it panics exactly when one step does |
| Generator.GetRandAccount | utils/accounts.go:121-124 | a member of the account list; panics on an empty list |
| Generator.ResolveSender | utils/generator.go:86-93 | a hinted sender is used exactly when some account has that address and panics otherwise (`GetKeyFromAddress`, utils/accounts.go:68-73); without a hint a random account's address, panicking only when there are no accounts; the result is always a known account |
| Generator.WalkAvoidsAffordable | utils/generator.go:47-49 | a walk of rejected draws never passes an affordable pool value, so it stays shorter than one lap |
| Generator.WalkDrawsStored | utils/generator.go:46-48 | every draw is a stored pool value |
| Generator.WalkWithinLap | utils/generator.go:44-51 | with an affordable value in the pool the resampling ends within one pool lap |
| Generator.Resample | utils/generator.go:47-49 | the resampling loop ends on a value <= balance after rejecting only values > balance |
| Generator.GetRandomAmountFromAddress | utils/generator.go:44-51 | the result is a pool value <= the sender's balance, reached within one lap after rejecting only larger values; panics on an empty pool |
| Generator.DrawParts | utils/generator.go:78-103 | hinted arguments are used verbatim, else built; the sender is resolved, and a hinted sender with no known key panics; a hinted amount wins, else a payable method samples one and any other gets 0 |
| Generator.DrawAndSave | utils/generator.go:78-128 | everything after target resolution: the transaction goes from the resolved sender to the target, and the hint and LastTxIn record the choices |
| Generator.GenTransaction | utils/generator.go:53-128 | the whole generation: hint fields win over random choices, Fallback forces "", a hinted sender with no known key panics, the amount is bounded by the balance, hint.Contract, Method and Amount are overwritten, and LastTxIn records exactly the resolved contract, method, amount, arguments and sender |
| Generator.SaveTransaction | utils/generator.go:105-126 | hint.Contract, Method and Amount get the resolved values (Sender and Args are not written) and LastTxIn records the transaction |
| Heuristics.FlagBits | utils/heuristics.go:55-68 | the four flag bits are the binary digits of optFlag mod 16 |
| Heuristics.OptMode.constructor | utils/heuristics.go:44-53 | the zero value has every heuristic off |
| Heuristics.OptMode.SetFlag | utils/heuristics.go:55-68 | bits 0 to 3 switch on RetryHalfEther, RetryDiffSender, SnapshotsEnabled and GenStatistics; a flag already set stays set |
| Heuristics.GenTimestamp | utils/heuristics.go:70-81 | below 2048 counted transactions the current timestamp, with nothing changed; otherwise the next timestamp, the counter reset to 0, and the state reverted iff the new cursor is the last index |
| Heuristics.CommitTransaction | utils/backend.go:87-137 | TxCount grows by one at every commit; a transaction the chain rejects keeps the balances, leaves no return data and every other field and the corpus as they were; an applied one leaves the balances its execution produced and runs `processLogs`: the return data is stored, the result fields, coverage and deployments are the trace analysis's outcome and it panics exactly when that does; on success the corpus stays valid and only grows (each pool's old items stay in place) and the coverage only grows |
| Heuristics.ExecuteTransaction | utils/backend.go:126-137 | an executed transaction: TxCount + 1, the balances the execution left, and the outcome of `processLogs` as stated for the commit |
| Heuristics.ProcessApplied | utils/backend.go:135 | the logs of an executed transaction are processed: the return data is stored and the fields equal the trace analysis's outcome, which panics exactly when the analysis does; on success the corpus and the coverage only grow |
| Heuristics.Commit | utils/backend.go:87-137 | the commit as the round uses it: the corpus stays ready, TxCount + 1, the balances the execution left (unchanged for a rejected transaction), a panic needs an applied transaction, and on success the corpus and the coverage only grow |
| Heuristics.Results.Put | utils/heuristics.go:112 | `result[contract][key] = value` |
| Heuristics.Findings | utils/heuristics.go:97-142 | the contract always gets a findings map |
| Heuristics.WithContract | utils/heuristics.go:97-99 | the contract's map is created empty if missing; nothing else changes |
| Heuristics.FindingKeysDistinct | utils/heuristics.go:111-136 | the four finding keys of a method are pairwise different |
| Heuristics.FindingsOverflow | utils/heuristics.go:105-113 | "<method>: Overflow" is recorded, with the message, exactly when there is an overflow and the round did not revert at depth 1 |
| Heuristics.FindingsAssertion | utils/heuristics.go:115-120 | "<method>: AssertionFailure" is recorded exactly when AssertionAtDepth != -1 |
| Heuristics.FindingsProperty | utils/heuristics.go:122-142 | for a fuzz_always_true method, "Property violation" is recorded when it did not revert and returned a 32-byte word whose last byte is not 1, and "Revert in fuzz function" when it reverted; these are exactly the stopping cases |
| Heuristics.FindingsFrame | utils/heuristics.go:97-142 | no other key and no other contract changes |
| Heuristics.FindingsGrow | utils/heuristics.go:97-142 | findings are only added, never removed |
| Heuristics.Record | utils/heuristics.go:105-142 | the table becomes the findings function's, and the round stops exactly in the two fuzz-property cases |
| Heuristics.Judge | utils/heuristics.go:101-156 | once the commit is done the findings are recorded; a stopping round leaves the statistics alone; any other round makes exactly one counter increment, through AddTx(failed = reverted) with GenStatistics or IncTxCnt without; the round counts as reverted iff RevertAtDepth == 1 |
| Heuristics.SeededZero | utils/args.go:164 | the seeded BigInt 0 is in the pool, so the amount draw always has an affordable value |
| Heuristics.Prepare | utils/heuristics.go:93-96 | the timestamp and the transaction; LastTxIn is set and hint.Amount holds the amount sent |
| Heuristics.Settle | utils/heuristics.go:97-150 | the commit and the judgement: TxCount + 1, a panic only from an applied transaction's analysis, findings only added, the stop verdict, and on success the corpus and coverage only grow |
| Heuristics.Round | utils/heuristics.go:90-150 | one round keeps the corpus valid (the seeded 0 included) and on success lets it and the coverage only grow; it commits exactly once unless generation panics; a panic after the commit needs an applied transaction; it stops exactly in the fuzz-property cases |
| Heuristics.HalveAmount | utils/heuristics.go:160-162 | a positive amount is replaced by its half, which is smaller |
| Heuristics.Rec | utils/heuristics.go:90-176 | the corpus stays valid and keeps the seeded 0; on success every pool keeps its old items in place and the coverage only grows; findings only grow; true only when the round stopped with no retry (one commit); a run with more than one commit needs a retry heuristic; the retries terminate |
| Heuristics.Retry | utils/heuristics.go:158-174 | when at least one retry heuristic applies to a reverted round: the half-ether retry, then the other-sender retry, commit at least once more, findings only grow, and on success the corpus (the seeded 0 included) and the coverage only grow |
| Heuristics.RetryHalfEther | utils/heuristics.go:158-166 | halves the amount, pins the sender to the last one and runs one level deeper, committing at least once more, with the corpus and coverage only growing |
| Heuristics.RetryDiffSender | utils/heuristics.go:168-174 | below depth 4 clears the sender and runs one level deeper, committing at least once more, with the corpus and coverage only growing |
| Heuristics.HalvedInPlace | utils/heuristics.go:160-162 | the pool after Rsh works on the pool's own `*big.Int`: that one item is halved in place |
| Heuristics.InPlaceHalvingBreaksPool | utils/heuristics.go:160-162 | halving in place can make two pool items render alike, breaking the corpus's duplicate-freedom |

## Left out

- I/O: reading the Truffle build directory, ABIs, accounts and config files
  (`ReadDeployedBytecodes`, `GetABIMap`, `ReadContractsHashes`,
  `ReadAccounts`, `GetConfig`), `SaveJson` and every `log` call. These are
  file and console operations. Their results (metadata, accounts, config)
  are parameters.
- go-ethereum: `ApplyTransaction`, the state DB, gas, nonces, signing
  (`types.SignTx`), `GetCallBytecode`'s ABI packing, `GetOpcodeIndices`'
  disassembler, `GetDefaultHeader` and `getDeployedContractAddress`'s
  address derivation. These are library calls. Their results are
  parameters: the `Execution` of a transaction, the deployed address, the
  header time.
- Generator.DrawParts: `GetCallBytecode` panics when `Pack` rejects the
  arguments (utils/contracts.go:248-252). The model never panics there,
  because packing is not modelled. Generated arguments conform to the
  method's types; a hinted `Args` that did not conform would panic in Go.
- Generator.GenTransaction: the same `Pack` panic is not modelled.
- The block timestamp chosen by `GenTimestamp` is not passed on to the
  execution, whose outcome is an independent parameter of the round.
- The `StructLogger` itself. A trace is a sequence of `StructLog` steps
  `(op, depth, pc, stack, memory)`, and the return data is a byte sequence.
- `UnpackValues`: ABI decoding of return data. It is a parameter that
  gives a value tree or an unpack error.
- `GetStats`: float formatting of failure rates.
- `processLogs` with a nil `argPool`. Every caller of the engine passes the
  corpus.
- Snapshots are a copy of the balance map, not of the whole state.
- Balances are natural numbers, as `uint256` balances are.
- `ProcessConfig`'s map iteration order: Go visits the contracts in an
  unspecified order. The model proves the order-independent result (sets
  of contracts and timestamps) instead of a fixed order.
- `Contracts.DeleteFromSlice`: the Go function writes into the caller's
  backing array. The model returns a new sequence, so the aliasing of the
  old slice is not captured.
- Strings are sequences of characters. Go indexes bytes, which agrees for
  the ASCII hex and identifier text these functions see.
- The bool case of `fillRecursively` draws a random number and discards
  `true` (utils/args.go:66-69). The draw has no effect and is not modelled;
  a bool is always false.
- Panic messages. Only the fact of a panic is modelled, and nothing is
  claimed about the state it leaves.
- A nil `hint`. Every caller passes a hint, and `GenTransaction` would
  panic on nil at utils/generator.go:72.
- Generator.GetRandomAmountFromAddress: its loop terminates only when the
  BigInt pool holds a value <= the balance, so this is a precondition. The
  Go loop would spin forever otherwise.
- Heuristics.Rec: requires the seeded BigInt 0 in the pool (utils/args.go:164,
  `Heuristics.SeededZero`), which makes every amount draw terminate.
- Heuristics.Round: states when a round panics only as "no commit" or "a
  commit of an applied transaction"; the exact conditions are stated by
  `Generator.GenTransaction` and `Processor.ProcessLogs`.
- Heuristics.Rec: the full sequence of commits across retries is not
  characterised. The contract states the one-commit case exactly and
  bounds the others.
- Heuristics.CommitTransaction: a rejected transaction keeps the previous
  round's depths and overflow, because the Go code does not reset them
  when the analysis does not run.
- TimestampPool.TimestampPool.Sort: Go's `sort.Slice` is not stable, and
  the key (the magnitude) ties for x and -x. The model fixes one order, an
  insertion sort, so which of two tied items `Next` returns first is a
  choice of the model.
- A `Result.Panic` value keeps no message the caller could inspect beyond
  a string; recovery from a panic is not modelled.

## Findings

| source | as written | input that shows it | evidently intended | confidence | as-written member | corrected member |
|---|---|---|---|---|---|---|
| utils/heuristics.go:160-162 | `hint.Amount.Rsh(hint.Amount, 1)` halves the `*big.Int` in place. When the amount was drawn from the corpus (utils/generator.go:44-51, 101, 108), that `*big.Int` is the BigInt pool's own element. | BigInt pool [0, 1]. A payable method receives 1. The transaction reverts and RetryHalfEther is set. The pool then holds two 0 items, so a duplicate the guard would have refused. | halve a copy, leaving the pool untouched; the corrected `Rec` halves the hint's own value and proves every BigInt item stays as it was (the old pool is a prefix of the new one) | not executed | Heuristics.InPlaceHalvingBreaksPool | Heuristics.Rec |
