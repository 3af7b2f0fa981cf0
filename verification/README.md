# ZavaX block-mirroring core, modelled in Dafny

ZavaX is an Avalanche subnet VM that mirrors Zcash blocks. Each mirrored
block carries a JSON snapshot of one Zcash block as its data. This project
models:

- the block store: an LRU cache with negative caching in front of a
  key-value database, plus the last-accepted pointer held in memory and
  persisted under a one-byte key;
- the two backward walks along parent links: the lookup by Zcash height,
  and the reconciliation against the Zcash node;
- the confirmation gate on the node's head height;
- the request tracker;
- the VM state around blocks: the FIFO mempool, the verified-blocks-first
  lookup, block construction, genesis and parsing;
- the JSON-RPC service handlers that orchestrate all of these.

Modules, one per concern:

- `Types`: machine integers, IDs, the block, the snapshot, the errors and
  the JSON boundary.
- `Codec`: the block and envelope byte layouts. This is a linear codec with
  a 2-byte version, big-endian integers and 4-byte length prefixes.
- `Store`: the `BlockState` class. Both the zavax and the zcash store run
  the same cache, database and pointer code, so one class models both.
- `SourceChain`: the Zcash node as a value of replies, the confirmation
  gate, `QueryZcashBlock` and the zcash `QueryData`.
- `Chain`: the walks as functions over a `ChainView`, with reference
  definitions over the list of blocks down to genesis.
- `Vm`: the `VM` class and the loops of the zavax walks.
- `Tracker`: the `RequestTracker` class.
- `Service`: the reply objects and the handlers.
- `Zcash`: the zcash store's snapshot-returning height walk.

Each state-changing Go method is a Dafny method on a class with `modifies`
frames. Each loop is a `while` loop proved against a walk function of
`Chain`. The properties of those functions are proved as lemmas.

## Model

| member | source | states |
|---|---|---|
| Types.ToU64 | subnet/zavax/block_state.go:498 | `uint64(x)` on an `int`: identity on non-negative values, plus 2^64 on negative ones |
| Types.ToI64Injective | subnet/zavax/block_state.go:265 | distinct unsigned heights stay distinct as signed ones |
| Types.Json.Unmarshal | subnet/zavax/block_state.go:454-456 | empty input never decodes |
| Types.ToI64 | subnet/zavax/block_state.go:265 | `int(x)` on a `uint64`: a value whose `uint64` conversion is `x` again |
| Types.I64RoundTrip | subnet/zavax/service.go:156 | converting a signed height to `uint64` and back gives the height |
| Types.Json.Marshal | subnet/zavax/service.go:107-109 | marshalling a nil snapshot gives the four bytes of `null`, which are non-empty |
| Codec.EncodeUint | subnet/zavax/vm.go:334 | a fixed-width big-endian integer takes exactly its width in bytes |
| Codec.DecodeUint | subnet/zavax/vm.go:302 | a decoded integer fits the width it was read from |
| Codec.EncodeDecodeUint | subnet/zavax/vm.go:302 | bytes read as an integer re-encode to the same bytes |
| Codec.DecodeEncodeUint | subnet/zavax/vm.go:334 | a fixed-width big-endian integer decodes to the value encoded |
| Codec.EncodeBody | subnet/zavax/vm.go:334-337 | encoding fails when the data is too long for a 4-byte length; otherwise the output is header plus data |
| Codec.DecodeBody | subnet/zavax/vm.go:302-305 | accepted bytes are exactly header plus the data they declare |
| Codec.BodyRoundTrip | subnet/zavax/vm.go:324-343 | decoding an encoded block body gives back its parent, height, timestamp and data |
| Codec.EncodeWrapper | subnet/zavax/block_state.go:192-201 | wrapping fails when the block bytes are too long for a 4-byte length, and `PutBlock` then returns the codec error; otherwise it succeeds |
| Codec.DecodeWrapper | subnet/zavax/block_state.go:168-173 | accepted bytes are exactly the encoding of the envelope they decode to |
| Codec.WrapperRoundTrip | subnet/zavax/block_state.go:192-198 | the status envelope decodes to the block bytes and status it was built from |
| Codec.Initialize | subnet/zavax/block_state.go:180-181 | `Initialize` attaches the bytes and the status, and derives the ID as the hash of the bytes |
| Codec.DecodeStored | subnet/zavax/block_state.go:168-181 | a block read back carries the envelope's block bytes and status, and the ID hashed from those bytes |
| Codec.DecodedIsInitialized | subnet/zavax/block_state.go:168-181 | every block read back from the database carries its own encoding and the ID hashed from it |
| Codec.EncodedDecodedBody | subnet/zavax/block_state.go:174-178 | bytes that decode re-encode to the same bytes |
| Codec.StoredRoundTrip | subnet/zavax/block_state.go:190-208 | what `PutBlock` persists for an initialised block decodes back to that block |
| Store.ReadDb | subnet/zavax/block_state.go:156-166 | the database read succeeds exactly for a present, non-faulty key; a missing key is `ErrNotFound` |
| Store.DbLookup | subnet/zavax/block_state.go:156-181 | a read that bypasses the cache: a faulty key is a database error, a missing key `ErrNotFound`, and a decoded block carries the ID hashed from its bytes |
| Store.Lookup | subnet/zavax/block_state.go:144-187 | a cached entry answers by itself: a block for a block entry, `ErrNotFound` for a `nil` one; without an entry the database answers |
| Store.EvictionIsTransparent | subnet/zavax/block_state.go:137 | evicting an entry from a coherent cache changes no answer and keeps the cache coherent |
| Store.PutSurvivesEviction | subnet/zavax/block_state.go:190-208 | a block put without a database fault is read back even after it left the cache |
| Store.PutKeepsCoherent | subnet/zavax/block_state.go:204-208 | writing a block to both the cache and the database keeps the cache in agreement with the database |
| Store.CachedAnswer | subnet/zavax/block_state.go:146-152 | when the cache holds a block for the ID, the lookup answers that block, whatever the database holds |
| Store.StoredLastAccepted | subnet/zavax/block_state.go:225-233 | a faulty key propagates the database error, a missing key `ErrNotFound`, a stored value of 32 bytes is the pointer, and any other length is an ID-length error |
| Store.LastAcceptedKeyIsNoID | subnet/zavax/block_state.go:30 | the one-byte pointer key is never a 32-byte block ID |
| Store.BlockWritesKeepPointer | subnet/zavax/block_state.go:208 | writing or deleting a block leaves the persisted pointer as it was |
| Store.BlockState.constructor | subnet/zavax/block_state.go:135-141 | a new store has an empty cache, no pointer in memory, and a coherent cache |
| Store.BlockState.LastAcceptedView | subnet/zavax/block_state.go:218-237 | what `GetLastAccepted` answers: the pointer in memory unless it is `ids.Empty`, otherwise the persisted pointer |
| Store.BlockState.DbGet | subnet/zavax/block_state.go:156 | one database read, answering what `ReadDb` says |
| Store.BlockState.DbPut | subnet/zavax/block_state.go:208 | a faulty key fails and writes nothing; otherwise the value is stored under the key |
| Store.BlockState.DbDelete | subnet/zavax/block_state.go:214 | a faulty key fails and deletes nothing; otherwise the key is removed |
| Store.BlockState.GetBlock | subnet/zavax/block_state.go:144-187 | the answer is the read through the cache. A `nil` entry answers `ErrNotFound`, and any hit answers with no database read. A miss reads the database once; `ErrNotFound` caches `nil`, a decoded block is cached, other errors cache nothing. No later answer changes |
| Store.BlockState.PutBlock | subnet/zavax/block_state.go:190-209 | an encoding failure changes nothing. Otherwise the block goes into the cache and its envelope into the database, and is then read back. The pointer is untouched and a coherent cache stays coherent |
| Store.BlockState.DeleteBlock | subnet/zavax/block_state.go:212-215 | the cache marks the ID absent and the database drops the key, so a read answers `ErrNotFound`; the pointer is untouched |
| Store.BlockState.Evict | subnet/zavax/block_state.go:137 | LRU eviction forgets one cache entry and never touches the database |
| Store.BlockState.GetLastAccepted | subnet/zavax/block_state.go:218-237 | the database is read only while memory holds `ids.Empty`. The value read is kept; an error or a wrong-length value propagates |
| Store.BlockState.SetLastAccepted | subnet/zavax/block_state.go:240-249 | the same value is a no-op with no write; otherwise memory is updated and the value persisted. No block read changes |
| Store.SetLastAcceptedTwice | subnet/zavax/block_state.go:242-244 | a second call with the same value succeeds; the database holds the value only if the first call wrote it, and is otherwise as before |
| Store.BlockState.GetBlockIDAtHeight | subnet/zavax/block_state.go:108-126 | answers the last-accepted ID, whatever the height |
| SourceChain.GateWrapAdmitsUnconfirmedHeight | subnet/zavax/block_state.go:459 | as written, height 2^64-1 passes the gate on a node whose head is 100 |
| SourceChain.ConfirmGateAsWritten | subnet/zavax/block_state.go:459 | the threshold test as written: the `uint64` head against the `uint64` sum, which loses 2^64 when it overflows |
| SourceChain.GatesAgreeWithoutWrap | subnet/zavax/block_state.go:459 | with no overflow, the written gate and the intended gate agree |
| SourceChain.ValidateZcashBlockHeight | subnet/zavax/block_state.go:418-464 | fetching is allowed iff the head is at least `confirmHeight + ID`. A transport error propagates, an undecodable reply is errBlockHeightNotAllowed, a height too close is errBlockHeightNotFetch |
| SourceChain.GetZcashHash | subnet/zavax/block_state.go:367-415 | every failure, and the empty hash, is errBlockHeightNotFound |
| SourceChain.QueryZcashBlock | subnet/zavax/block_state.go:304-365 | a gated success implies the corrected gate held (see Findings); a returned snapshot is the node's block for the fetched hash |
| SourceChain.QueryZcashBlockOutcomes | subnet/zavax/block_state.go:308-325 | a closed gate returns its error; past the gate, a failed hash is errBlockHeightNotFound, and the fetch gives the node's block (`nil` included) or its failure |
| SourceChain.UngatedQueryIgnoresHead | subnet/zavax/block_state.go:310-312 | without `validateConfirm` the head height is never consulted |
| SourceChain.QueryData | subnet/zcash/block_state.go:271-322 | an empty or failed hash gives the zero snapshot and no error. A transport or malformed reply gives the zero snapshot and that error. A `null` result gives the zero snapshot; any other result is the node's block for the hash, with no error |
| Chain.Over | subnet/zavax/vm.go:274-281 | the chain a walk sees: the verified blocks, then the store's answers |
| Chain.Resolve | subnet/zavax/vm.go:274-281 | a verified block answers by itself; otherwise the store answers |
| Chain.ChainFrom | subnet/zavax/block_state.go:265-291 | the path of a walk: it starts at the resolved block, links each block to its parent, ends at height 0, and has at most height+1 blocks; a lookup error is propagated |
| Chain.ChainFromDependsOnAnswers | subnet/zavax/block_state.go:268 | the path depends only on what each ID resolves to |
| Chain.PathFrom | subnet/zavax/block_state.go:265-291 | the blocks a walk can reach: it starts at the resolved block and links each block to its parent. It ends at height 0, or where the next lookup fails |
| Chain.ChainFromIsPath | subnet/zavax/block_state.go:268-271 | an intact chain is the whole reachable path; the chain is broken exactly when that path stops short of a height-0 block |
| Chain.HeightWalk | subnet/zavax/block_state.go:265-291 | the loop of `GetBlockByHeight`; an error it returns is the lookup error of the path it follows |
| Chain.HeightLookup | subnet/zavax/block_state.go:251-301 | a pointer error is returned; any other error is a lookup error on the path from the last accepted block |
| Chain.FirstMatchAt | subnet/zavax/block_state.go:265-291 | the position of the first block whose payload has the target height: none before it matches, it matches |
| Chain.FirstMatchStep | subnet/zavax/block_state.go:282-285 | the first match is the head when it matches, otherwise the first match of the rest |
| Chain.HeightWalkIsFirstMatch | subnet/zavax/block_state.go:265-291 | the walk returns the newest reachable block whose payload has the target height. With none, it returns the lookup error that cut the path short, or "none" after genesis |
| Chain.HeightWalkFindsOnlyMatches | subnet/zavax/block_state.go:282-285 | a returned block's payload decodes to the target height |
| Chain.HeightLookupMeaning | subnet/zavax/block_state.go:251-301 | a pointer error propagates, and a target of 0 answers `(nil, nil)`. Only matching blocks are returned; an intact chain gives the first match. On a broken chain, a lookup error met before any match is returned, never "none" |
| Chain.Examine | subnet/zavax/block_state.go:489-521 | an undecodable payload, or one with an empty hash or zero height, aborts. At or below the confirmation height nothing is reported. Above it, a fetch error aborts with that error; otherwise the height is reported iff the node returned a block with a different hash |
| Chain.Visit | subnet/zavax/block_state.go:487-522 | an empty payload is skipped; a block is reported, with its payload height, exactly when it is mismatched |
| Chain.Visiting | subnet/zavax/block_state.go:487-522 | the per-block step of the reconciliation loop, as a value: it does what `Visit` does |
| Chain.ReconcileWalk | subnet/zavax/block_state.go:478-532 | the loop of `ReconcileBlocks`: a successful run reports at most one height per block reached and never lowers the duplicate count |
| Chain.Reconcile | subnet/zavax/block_state.go:466-535 | a pointer error is returned; a success reports at most one height per block on the chain |
| Chain.ReconcileWalkStep | subnet/zavax/block_state.go:478-532 | one loop iteration: a lookup error or a step error ends the walk with that error; height 0 ends it; otherwise it continues from the parent |
| Chain.Mismatches | subnet/zavax/block_state.go:514-517 | a run succeeds exactly when every block's visit succeeds, and then it reports at most one height per block |
| Chain.MismatchesInVisitOrder | subnet/zavax/block_state.go:516 | mismatches come out in visit order: those of an earlier stretch precede those of a later one |
| Chain.MismatchesAboveConfirmation | subnet/zavax/block_state.go:508-517 | every reported height is non-zero and above the confirmation height, and the node answered for it |
| Chain.ReportedIffMismatched | subnet/zavax/block_state.go:508-517 | a successful run reports height `h` iff some block carries a valid payload of height `h` above the confirmation height, and the node's block at `h` has a different hash |
| Chain.RecentBlocksNeverCompared | subnet/zavax/block_state.go:508 | when every payload is at or below the confirmation height, nothing is reported |
| Chain.DupCountStep | subnet/zavax/block_state.go:501-506 | one visited payload moves one step of the duplicate count |
| Chain.ExpectedStep | subnet/zavax/block_state.go:487-531 | the reference result over a list is its first block's step followed by the rest |
| Chain.ReconcileWalkIsReference | subnet/zavax/block_state.go:466-535 | on an intact chain, the walk reports the reference mismatch list, and its duplicate count is the number of repeated payloads |
| Chain.ReconcileAbortsOnBrokenChain | subnet/zavax/block_state.go:479-482 | a lookup error anywhere on the path aborts the whole run |
| Chain.ReconcileMeaning | subnet/zavax/block_state.go:466-535 | a pointer error propagates and a broken chain aborts. An intact chain gives the reference mismatches and the duplicate count, so duplicates never change the list. A successful run reports exactly the mismatched heights of the chain |
| Chain.ZcashWalk | subnet/zcash/block_state.go:237-258 | the zcash walk yields either the zero snapshot or one with the target height |
| Chain.ZcashLookup | subnet/zcash/block_state.go:223-268 | a non-zero answer means the pointer read succeeded, the target is non-zero and the snapshot has the target height |
| Chain.ZcashStopAt | subnet/zcash/block_state.go:237-257 | where the zcash walk stops: every earlier payload decodes to another height, and the block there fails to decode or matches |
| Chain.ZcashAnswer | subnet/zcash/block_state.go:237-267 | the reference answer over a path: the zero snapshot or a snapshot of the target height |
| Chain.ZcashAnswerStep | subnet/zcash/block_state.go:245-256 | the reference answer over a path is decided by its first block: an undecodable payload gives zero, a match gives its snapshot, otherwise the rest decides |
| Chain.ZcashWalkIsReference | subnet/zcash/block_state.go:237-267 | the zcash walk computes the reference answer on the blocks reachable from its start |
| Chain.ZcashLookupMeaning | subnet/zcash/block_state.go:223-268 | a pointer error or target 0 gives the zero snapshot; otherwise the reference answer, so a lookup or decoding failure before the first match gives the zero snapshot |
| Chain.StopAtFirstMatch | subnet/zcash/block_state.go:245-251 | when every payload before the first match decodes, the zcash walk stops at the first match |
| Chain.VariantsAgree | subnet/zcash/block_state.go:237-267 | on an intact chain whose payloads decode up to the first match, the zcash walk finds the same block as the zavax one, or the zero snapshot where that finds none |
| Vm.VM.constructor | subnet/zavax/vm.go:52-77 | a VM over a store, with no preference, an empty mempool, no verified blocks, and not bootstrapped |
| Store.BlockState.SetInitialized | subnet/zavax/vm.go:194 | marks the state initialised |
| Vm.NewBlock | subnet/zavax/vm.go:324-343 | fields come from the arguments, status is Processing, and the block carries its own encoding. It fails when the data is too long for a 4-byte length |
| Vm.NewBlockParses | subnet/zavax/vm.go:296-308 | parsing the bytes of a new block rebuilds exactly that block |
| Vm.Genesis | subnet/zavax/vm.go:164-175 | the genesis block has parent `ids.Empty`, height 0, timestamp 0 and the given data |
| Vm.Built | subnet/zavax/vm.go:239-250 | a new block is a child of the preferred block, one higher (`uint64`), with the popped value as data; a missing preferred block is an error |
| Vm.SameLookupsSameChain | subnet/zavax/vm.go:274-281 | a cache change that answers every read alike leaves the chain as the walks see it |
| Vm.SameChainKeepsHeightsDecrease | subnet/zavax/vm.go:274-281 | decreasing heights survive any change that keeps every answer |
| Vm.VM.GetBlock | subnet/zavax/vm.go:274-281 | a verified block answers without touching the store; otherwise the store answers. Every later answer is kept |
| Vm.VM.BuildBlock | subnet/zavax/vm.go:223-257 | an empty mempool gives errNoPendingBlocks and changes nothing; otherwise exactly the front element is removed and built on the preferred block |
| Vm.VM.AddZcashBlock | subnet/zavax/vm.go:286-290 | the payload joins the back of the mempool, and the result is true |
| Vm.MempoolIsFifo | subnet/zavax/vm.go:225-231 | after two additions to an empty mempool, the build consumes the older one |
| Vm.VM.InitGenesis | subnet/zavax/vm.go:153-200 | it is a no-op once initialised, and over-long data is errBadGenesisBytes. Otherwise genesis is stored and read back, becomes the last accepted block, and the state is marked initialised; faults stop it part-way |
| Vm.VM.ParseBlock | subnet/zavax/vm.go:296-318 | bytes that do not decode are refused. A block known under the hash of the bytes is returned; otherwise a new Processing block |
| Vm.VM.SetPreference | subnet/zavax/vm.go:355-358 | sets the preferred ID |
| Vm.VM.OnBootstrapStarted | subnet/zavax/vm.go:375-378 | clears the bootstrapped flag |
| Vm.VM.OnNormalOperationsStarted | subnet/zavax/vm.go:381-388 | sets the flag; a repeated call changes nothing |
| Vm.VM.GetBlockByHeight | subnet/zavax/block_state.go:251-301 | the loop computes `HeightLookup` on the chain and pointer it started from; the chain and pointer are unchanged |
| Vm.VM.ReconcileStep | subnet/zavax/block_state.go:487-522 | the step for one block equals `Visiting`; a non-empty payload is recorded as seen, or counted as a duplicate |
| Vm.VM.ReconcilePass | subnet/zavax/block_state.go:479-531 | one loop iteration advances the walk exactly as `ReconcileWalkStep` says, to a parent of lower rank |
| Vm.VM.ReconcileBlocks | subnet/zavax/block_state.go:466-535 | the loop returns `Reconcile` on the chain and pointer it started from: an error, or the mismatch list and the duplicate count |
| Tracker.RequestTracker.constructor | subnet/zavax/tracker.go:18-25 | nothing in flight, and the last reset is now |
| Tracker.RequestTracker.ShouldReset | subnet/zavax/tracker.go:27-32 | true iff at least 24 hours have passed since the last reset |
| Tracker.RequestTracker.ResetProcessingRequests | subnet/zavax/tracker.go:34-42 | empties the map and restarts the day |
| Tracker.RequestTracker.MarkProcessing | subnet/zavax/tracker.go:45-54 | the height maps to a newly made channel, distinct from every earlier one; other heights keep theirs |
| Tracker.RequestTracker.IsProcessing | subnet/zavax/tracker.go:57-63 | the height's channel, or nil when none; nothing changes |
| Tracker.RequestTracker.CompleteProcessing | subnet/zavax/tracker.go:66-74 | once a day has passed it empties the map and restarts the day; otherwise nothing changes, not even the completed height |
| Tracker.MarkThenProbe | subnet/zavax/tracker.go:45-63 | after marking, the probe sees the new channel, and other heights are unchanged |
| Service.ShownData | subnet/zavax/service.go:170-173 | a payload shows as its decoded snapshot, or the zero snapshot when it does not decode |
| Service.Assigned | subnet/zavax/service.go:165-178 | timestamp, height, ID and parent come from the block; data is replaced only for a non-empty payload |
| Service.AssignIsIdempotent | subnet/zavax/service.go:165-178 | assigning the same block twice shows what assigning it once shows |
| Service.GetBlockReply.constructor | subnet/zavax/service.go:35-41 | a fresh reply holds zero values |
| Service.AssignValues | subnet/zavax/service.go:165-178 | the reply's fields become `Assigned` of their old values |
| Service.ConvertHeights | subnet/zavax/service.go:152-157 | same length and order, each height converted to `uint64`, and each converts back to the engine's height |
| Service.GetReconcileReply.constructor | subnet/zavax/service.go:140-142 | a fresh reply holds the nil slice |
| Service.Service.constructor | subnet/zavax/service.go:22-25 | a service over one VM and one tracker |
| Service.Service.GetBlock | subnet/zavax/service.go:45-72 | with no ID, the last-accepted block is used, and a pointer error is errCannotGetLastAccepted. A failed lookup is errNoSuchBlock and leaves the reply as it was |
| Service.Service.GetBlockByHeight | subnet/zavax/service.go:82-138 | height 0 is errNoSuchBlock with no change; a hit fills the reply. On a miss, a gate or query error (under the corrected gate, see Findings) is returned with nothing queued; an in-flight height or an empty payload queues nothing; otherwise the snapshot is queued and the tracker marked and completed |
| Service.Service.Backfill | subnet/zavax/service.go:118-125 | the backfill: mark the height, queue the payload, complete the height |
| Service.Service.ReconcileBlocks | subnet/zavax/service.go:144-161 | an error is returned with the reply unchanged; an empty list leaves the reply nil; otherwise the reply holds the heights in order as `uint64` |
| Zcash.GetBlockByHeight | subnet/zcash/block_state.go:223-268 | the loop computes `ZcashLookup` on the chain and pointer it started from; the chain and pointer are unchanged |

## Left out

- The HTTP and JSON-RPC exchange with the Zcash node, including the
  hard-coded credentials, is left out. The node is a value of replies
  (`SourceChain.SourceNode`) fixed for the duration of one request.
- JSON (de)serialisation of `ZcashBlock` is an injected pair of functions
  (`Types.Json`). Empty input never decodes.
- Go's `json.Unmarshal` into a reused struct is modelled as
  replace-on-success, keep-on-failure. Partial filling of the struct by a
  failing decode is not modelled. In `ReconcileBlocks` each payload is
  decoded afresh, so a field missing from a later payload is not inherited
  from an earlier one.
- The snapshot keeps only the fields the core reads or that identify a
  block. Floating-point fields, the value pools and the other string fields
  are dropped.
- The LRU replacement policy is left out. Eviction is a separate operation
  (`Store.BlockState.Evict`) that forgets any one entry; capacity 8192 is
  not enforced.
- The avalanchego linear codec's source is not part of this model. Its
  layout is written out in `Codec`, and the block ID is an injected hash of
  the bytes.
- `Block.Verify`, `Block.Accept`, `Block.Timestamp` and the `State` type
  (`IsInitialized`, `SetInitialized`, `Commit`) are not part of this model.
  In `InitGenesis`, `Accept` is modelled as `SetLastAccepted`. An
  `IsInitialized` error and `Commit` are not modelled.
- Vm.VM.BuildBlock: assumes `Verify` of the new block succeeds. Its
  rejection path is not modelled.
- Mutexes, channels and the backfill goroutine are left out. Each tracker
  method is one atomic step, and the goroutine runs to completion within
  the request (`Service.Service.Backfill`). A channel is its serial number,
  and closing channels is left out because the source never closes one.
- Time is the parameter `now`: nanoseconds for the tracker, Unix seconds
  for block timestamps.
- `NotifyBlockReady` is a no-op. `Initialize`, `SetState`, `Shutdown`,
  `CreateHandlers`, `HealthCheck`, `Version`, the app-messaging and
  cross-chain no-ops, and logging are left out.
- `blockToString` is not part of this model. Duplicates are keyed by the
  payload bytes, and the duplicate count, which the source only logs, is
  returned by `Vm.VM.ReconcileBlocks`.
- The `zavaxblock == nil` branch of `ReconcileBlocks` cannot happen in the
  model, since a successful lookup always yields a block.
- subnet/zcash/vm.go is not part of this model. The zcash store's walk
  reaches blocks through the same verified-blocks-first lookup as the
  zavax VM.
- The walks terminate only on chains whose heights decrease along parent
  links. `HeightsDecrease` is a precondition of the loops. The Go loops
  would not end on a parent cycle.
- Codec.EncodeBody: the codec manager's configuration is not part of this
  model. Any size cap it enforces below the 4-byte length limit is not
  modelled, so the encoding may fail in more cases than stated.
- Codec.EncodeWrapper: the same codec-manager size cap is not modelled.
- Vm.NewBlock: the same codec-manager size cap is not modelled.
- SourceChain.ValidateZcashBlockHeight: this is the corrected gate of the
  Findings row, compared as unbounded integers. `QueryZcashBlock` and
  `Service.Service.GetBlockByHeight` use it, not the wrapping gate as
  written. It also differs from the written code when the head or the
  confirmation height is negative, since Go's `uint64(...)` conversion
  turns those into very large values; `GatesAgreeWithoutWrap` assumes both
  are non-negative.
- The mempool size limit is a declared constant that the source never
  enforces, so it is not modelled.

## Findings

| source | as written | input that shows it | evidently intended | confidence | as-written member | corrected member |
|---|---|---|---|---|---|---|
| subnet/zavax/block_state.go:459 | `uint64(blockHeight) >= uint64(excludeNoOfHeight)+ID` adds in wrapping `uint64` arithmetic | head 100, confirmation height 24, ID 2^64-1: the sum wraps to 23, so the gate admits a height far above the head | allow the fetch only when the head is at least `confirmHeight + ID` | not executed | SourceChain.GateWrapAdmitsUnconfirmedHeight | SourceChain.ValidateZcashBlockHeight |
