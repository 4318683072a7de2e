# A verified model of the vLLM serving core (XPU fork)

This project models, in Dafny, the bookkeeping core of a vLLM fork that runs on Intel
XPUs. The model covers:

- **KV-cache block management.**
  - The reference counter, the naive block allocator, copy-on-write and the LRU evictor (`vllm/core/block/`).
  - The older allocator of `vllm/block2.py`.
  - The v1 block space manager, with GPU and CPU allocators, sliding-window reuse, swap, fork, free and computed-prefix queries.
  - The v2 block manager.
- **The scheduler** (`vllm/core/scheduler.py`). This includes its three queues, abort,
  prompt admission under the token, sequence and padding budgets, decode with preemption
  by recompute or swap, and swap-in.
- **The rotary position-embedding kernel** (`csrc/pos_encoding_kernels.dp.cpp`). The model
  works over arrays: the NeoX and GPT-J pairings, the strided lane loop and the host launch.
- **The AWQ Triton GEMM** (`vllm/model_executor/layers/quantization/ops/awq.py`). This
  covers the configuration pruning, the shape checks, the shifter table and the kernel's
  index, mask and unpacking arithmetic.
- **The speculative-decoding worker** (`vllm/worker/spec_decode/spec_decode_worker.py`):
  the cache-block split, the `execute_model` branch, the re-ordering in `_verify_tokens`
  and the sampler output list.
- **The paged-attention layer's checks** (`vllm/model_executor/layers/attention.py`): the
  head configuration, the V1/V2 dispatch rule, the ALiBi bias shapes and the single-query
  flash path.
- **The weight-loading logic** (`vllm/model_executor/weight_utils.py`): shared tensor
  names, load-format patterns, file selection and blacklist, KV-cache scale validation and
  the default loader.

Code that changes state in place is modelled as Dafny classes with `modifies` clauses:
the allocators, the evictor, the block managers and the scheduler queues. The rotary
kernel works in place on `array<real>`. Pure logic is modelled as functions with lemmas.
Python's raised exceptions and failed asserts become the error branch of a `Result`
(`Wrappers`). On the error path the state is what the source leaves behind, with one
exception: `Scheduler.Scheduler.Schedule` leaves the queues unchanged on an error, where the
source raises with them partly updated. What the source leaves behind is not always a valid
state. The naive allocator's `Fork` keeps the count increments made before the failing
block, and the allocator invariant may then fail. The v1 manager's `Fork` raises no error
for a table that holds a freed block, and its allocators are then no longer valid. The
first case is listed under Findings. The second arises after the allocate finding listed
there.

The modules are:

| file | module | source |
|---|---|---|
| `wrappers.dfy` | `Wrappers` | Option and Result |
| `arith.dfy` | `Arith` | integer division helpers |
| `sequences.dfy` | `Sequences` | the view of sequences and groups that the managers use |
| `common.dfy` | `BlockCommon` | `RefCounter` / `ReadOnlyRefCounter` (`vllm/core/block/common.py`, `vllm/block2.py`) |
| `naive_block.dfy` | `NaiveBlockAllocation` | `vllm/core/block/naive_block.py`, CoW tracker and chain walk of `common.py` |
| `block2.dfy` | `Block2` | `vllm/block2.py` |
| `evictor.dfy` | `Evictor` | `vllm/core/block/evictor.py` |
| `block_pools.dfy` | `BlockPools` | per-device allocators that the v1 manager calls |
| `block_space_manager.dfy` | `BlockSpaceManagerV1` | `vllm/core/block/block_space_manager.py` |
| `block_manager_v2.dfy` | `BlockManagerV2` | `vllm/core/block_manager_v2.py` |
| `scheduler.dfy` | `Scheduler` | `vllm/core/scheduler.py` |
| `rotary.dfy` | `RotaryEmbedding` | `csrc/pos_encoding_kernels.dp.cpp` |
| `awq.dfy` | `Awq` | `vllm/model_executor/layers/quantization/ops/awq.py` |
| `spec_decode.dfy` | `SpecDecode` | `vllm/worker/spec_decode/spec_decode_worker.py` |
| `attention.dfy` | `Attention` | `vllm/model_executor/layers/attention.py` |
| `weight_utils.dfy` | `WeightUtils` | `vllm/model_executor/weight_utils.py` |

## Model

| member | source | states |
|---|---|---|
| BlockCommon.RefCounter.constructor | vllm/core/block/common.py:22-26 | every index given is tracked, each at count 0 |
| BlockCommon.RefCounter.Incr | vllm/core/block/common.py:28-36 | succeeds iff the index is known and its count is >= 0. It then returns the old count + 1 and stores it. Otherwise it is an AssertionError with the table unchanged. It keeps counts non-negative |
| BlockCommon.RefCounter.Decr | vllm/core/block/common.py:38-47 | succeeds iff the index is known and its count is > 0. It then returns the count - 1 and stores it. At zero or for an unknown index it is an AssertionError with the table unchanged |
| BlockCommon.RefCounter.Get | vllm/core/block/common.py:49-51 | the stored count for a known index, an error for an unknown one |
| BlockCommon.RefCounter.AsReadonly | vllm/core/block/common.py:53-54 | the view wraps this very counter |
| BlockCommon.ReadOnlyRefCounter.Incr | vllm/core/block/common.py:72-73 | always ValueError; no count changes |
| BlockCommon.ReadOnlyRefCounter.Decr | vllm/core/block/common.py:75-76 | always ValueError; no count changes |
| BlockCommon.ReadOnlyRefCounter.Get | vllm/core/block/common.py:78-79 | equals the underlying counter's `get` |
| BlockCommon.DecrUndoesIncr | vllm/core/block/common.py:28-47 | a `decr` after a successful `incr` returns the original count and restores the original table |
| BlockCommon.IncrRunCounts | vllm/block2.py:114-122 | n successive `incr`s on a known index with count c >= 0 return c+1, ..., c+n and leave c+n |
| BlockCommon.DecrRunCounts | vllm/block2.py:124-133 | n successive `decr`s on an index with count c >= n return c-1, ..., c-n and leave c-n |
| BlockCommon.IncrThenDecrRun | tests/test_block2.py:19-50 | on a fresh counter, n `incr`s return 1..n, then n `decr`s return n-1..0, and a further `decr` is an AssertionError |
| BlockCommon.IncrAllCount | vllm/core/block/naive_block.py:60-62 | incrementing once per occurrence in a list raises each count by that id's multiplicity in the list |
| NaiveBlockAllocation.FreePlusUsed | vllm/core/block/naive_block.py:76-91 | under the invariant (free iff count 0, counts never negative), the number of free ids plus the number of ids with a positive count is the total |
| NaiveBlockAllocation.AllocatePreservesInv | vllm/core/block/naive_block.py:79-86 | `_allocate_new_block` keeps the invariant. On success the id had count 0, now has 1, and exactly one id left the free set |
| NaiveBlockAllocation.FreeIndexPreservesInv | vllm/core/block/naive_block.py:88-91 | `_free_block_index` keeps the invariant and succeeds iff the id is managed with a positive count |
| NaiveBlockAllocation.CowPreservesInv | vllm/core/block/naive_block.py:101-114 | copy-on-write keeps the invariant. When it moves to a new id, the old count was > 1 and drops by one, and the new id has count 1 |
| NaiveBlockAllocation.IncrAllKeepsInv | vllm/core/block/naive_block.py:55-74 | incrementing the counts of in-use ids (fork) keeps the invariant |
| NaiveBlockAllocation.ForkStep | vllm/core/block/naive_block.py:59-61 | a fork step never adds or removes a managed id |
| NaiveBlockAllocation.ForkSteps | vllm/core/block/naive_block.py:58-61 | the fork loop on the count table never adds or removes a managed id |
| NaiveBlockAllocation.ForkStepsOk | vllm/core/block/naive_block.py:55-74 | the fork loop completes iff every block holds a managed id with a positive count and tokens that fit. It then raises each id by its multiplicity |
| NaiveBlockAllocation.ForkStepsPrefix | vllm/core/block/naive_block.py:58-72 | after k blocks that can be forked, the loop goes on from the counts with their ids incremented |
| NaiveBlockAllocation.ForkStepsFailAt | vllm/core/block/naive_block.py:58-62 | when block k is the first that cannot be forked, the loop ends with that step's counts, the first k ids already incremented |
| NaiveBlockAllocation.ForkFreedBlock | vllm/core/block/naive_block.py:58-62 | as written, forking a chain whose block k holds a freed id fails after incrementing the ids of blocks 0 to k. The freed id is left at count 1 while still in the free set, which breaks the allocator invariant |
| NaiveBlockAllocation.FreeThenAllocateSameId | tests/test_block2.py:91-102 | with no free id and a block at count 1, free then allocate hands back the same id and restores the allocator state |
| NaiveBlockAllocation.CowAppend | vllm/core/block/common.py:142 | records dst at the end of src's list and leaves other sources' lists unchanged |
| NaiveBlockAllocation.NaiveBlock.constructor | vllm/core/block/naive_block.py:119-131 | the block keeps its predecessor, tokens, size, allocator and id, and its chain depth is one more than its predecessor's |
| NaiveBlockAllocation.NaiveBlock.IsFull | vllm/core/block/naive_block.py:151-157 | full iff the tokens fill all block_size slots, so no empty slot is left |
| NaiveBlockAllocation.NaiveBlock.AppendTokenIdsNoCow | vllm/core/block/naive_block.py:139-141 | appends exactly the tokens when they fit in the empty slots; otherwise an AssertionError with the tokens unchanged |
| NaiveBlockAllocation.NaiveBlock.AppendTokenIds | vllm/core/block/naive_block.py:133-137 | appends the tokens (or fails as above). Then, for a mapped block, it runs the allocator's copy-on-write step and takes the id it returns |
| NaiveBlockAllocation.AllBlocks | vllm/core/block/common.py:164-186 | the chain oldest-first: one entry per link, ending with the last block |
| NaiveBlockAllocation.AllBlocksLinked | vllm/core/block/common.py:179-186 | the first block of the chain has no predecessor and each block's predecessor is the entry before it |
| NaiveBlockAllocation.LinkedIsAllBlocks | vllm/core/block/common.py:179-186 | a linked list of blocks is exactly the chain walked back from its last block (the walk is unique) |
| NaiveBlockAllocation.Range | vllm/core/block/naive_block.py:21-22 | the ids of `range(num_blocks)` |
| NaiveBlockAllocation.InitialIds | vllm/core/block/naive_block.py:21-25 | the given `block_ids`, or `range(num_blocks)` when none are given |
| NaiveBlockAllocation.NaiveBlockAllocator.constructor | vllm/core/block/naive_block.py:14-32 | every id is free with count 0, and no copy-on-write is recorded |
| NaiveBlockAllocation.NaiveBlockAllocator.GetNumFreeBlocks | vllm/core/block/naive_block.py:76-77 | free count plus in-use count equals the number of managed ids |
| NaiveBlockAllocation.NaiveBlockAllocator.AllocateNewBlock | vllm/core/block/naive_block.py:79-86 | NoFreeBlocksError iff nothing is free. Otherwise one free id leaves the free set and its count goes from 0 to 1 |
| NaiveBlockAllocation.NaiveBlockAllocator.FreeBlockIndex | vllm/core/block/naive_block.py:88-91 | decrements the count and returns the id to the free set exactly when the count reaches 0; an AssertionError at count 0 |
| NaiveBlockAllocation.NaiveBlockAllocator.AllocateMutable | vllm/core/block/naive_block.py:40-48 | a fresh empty block on a newly allocated id, chained to `prev_block`; NoFreeBlocksError when nothing is free |
| NaiveBlockAllocation.NaiveBlockAllocator.AllocateImmutable | vllm/core/block/naive_block.py:34-38 | consumes exactly one free id. The new block holds exactly the given tokens (at count 1, no copy-on-write happens), or an AssertionError when they do not fit |
| NaiveBlockAllocation.NaiveBlockAllocator.Free | vllm/core/block/naive_block.py:50-53 | clears the block's id and performs the free step on the old id; freeing an unmapped block is an error |
| NaiveBlockAllocation.NaiveBlockAllocator.Fork | vllm/core/block/naive_block.py:55-74 | accepts any chain. The counts end as ForkSteps gives them and the free set is unchanged. Fork succeeds iff every block holds a managed id with a positive count and tokens that fit. Then the invariant holds and each id rises by its multiplicity, and the result is a fresh chain with the same ids and token lists in the same order, linked oldest-first. Any other chain gives an AssertionError, and the increments made before the failing block stay |
| NaiveBlockAllocation.NaiveBlockAllocator.ForkOne | vllm/core/block/naive_block.py:60-72 | one loop step: `incr` of the block's id (an error for an unmapped or unknown id), the `refcount != 1` assertion and the copy's token check. The counts end as ForkStep gives them, and the step succeeds iff ForkStep does, with a fresh copy chained after the previous one |
| NaiveBlockAllocation.NaiveBlockAllocator.ForkBlocks | vllm/core/block/naive_block.py:58-74 | the loop stops at the first failing step. The counts end as ForkSteps gives them, and the loop succeeds iff ForkSteps does, with one fresh copy per source block |
| NaiveBlockAllocation.NaiveBlockAllocator.ForkChecked | vllm/core/block/naive_block.py:55-74 | fork as its assertion intends: a chain that cannot be forked gets an AssertionError before any count changes, so the invariant holds on every path. Success iff the chain can be forked, with the counts and copies of Fork |
| NaiveBlockAllocation.NaiveBlockAllocator.CopyOnWrite | vllm/core/block/naive_block.py:110-114 | frees the source, allocates a destination and records src to dst |
| NaiveBlockAllocation.NaiveBlockAllocator.CowIfNotAppendable | vllm/core/block/naive_block.py:101-107 | keeps the id at count 1. At count > 1 it copies-on-write to a fresh id and records it. At count 0 (or for an unknown id) it is an AssertionError |
| NaiveBlockAllocation.CopyOnWriteTracker.constructor | vllm/core/block/common.py:97-104 | starts with no recorded copies |
| NaiveBlockAllocation.CopyOnWriteTracker.CowBlockIfNotAppendable | vllm/core/block/common.py:125-144 | handles each case: None for an unmapped block, an AssertionError at count 0, the same id at count 1. At count > 1 it frees the block, allocates a new id and records src to [.., dst] |
| NaiveBlockAllocation.CopyOnWriteTracker.ClearCows | vllm/core/block/common.py:159-161 | returns every recorded entry and leaves the tracker empty, so a second call returns {} |
| Block2.AllocateUntilOom | tests/test_block2.py:70-76 | from a valid state, as many allocations as there are free ids all succeed with pairwise distinct ids, and the next one is NoFreeBlocksError |
| Block2.NaiveBlock.constructor | vllm/block2.py:81-84 | the block keeps its predecessor, tokens and optional id |
| Block2.NaiveBlock.AppendTokenIds | vllm/block2.py:86-87 | does nothing |
| Block2.NaiveBlock.SetPhysicalBlockIndex | vllm/block2.py:93-96 | replaces the id and keeps the tokens |
| Block2.NaiveBlockAllocator.constructor | vllm/block2.py:141-145 | all of range(num_blocks) free, each at count 0 |
| Block2.NaiveBlockAllocator.AllocateNewBlock | vllm/block2.py:165-172 | NoFreeBlocksError when nothing is free. Otherwise one id leaves the free set and its count goes from 0 to 1 |
| Block2.NaiveBlockAllocator.AllocateMutable | vllm/block2.py:152-154 | a fresh empty block on a newly allocated id |
| Block2.NaiveBlockAllocator.AllocateImmutable | vllm/block2.py:147-150 | the same as allocate_mutable: the append is a no-op, so the block's token list stays empty |
| Block2.NaiveBlockAllocator.Free | vllm/block2.py:156-162 | the block's id becomes None, its count drops, and the id is free again exactly when the count reaches 0 |
| Block2.RangeSize | vllm/block2.py:142 | range(n) has max(n, 0) ids |
| Evictor.Put | vllm/core/block/evictor.py:90-93 | re-adding a present hash replaces its entry in place; a new hash goes to the end |
| Evictor.Pop | vllm/core/block/evictor.py:86-99 | removes exactly the entry with that hash and keeps the order of the rest |
| Evictor.PutKeepsDistinct | vllm/core/block/evictor.py:90-93 | the table stays keyed by hash after an add |
| Evictor.PopKeepsDistinct | vllm/core/block/evictor.py:95-99 | after a pop, exactly the other hashes remain and the size drops by one iff the hash was present |
| Evictor.ScanFrom | vllm/core/block/evictor.py:80-84 | the scan's choice is the starting block or a later entry |
| Evictor.Victim | vllm/core/block/evictor.py:76-84 | the evicted block is an entry of the table |
| Evictor.VictimOfSorted | vllm/core/block/evictor.py:59-84 | on a table ordered by last access, the victim has the earliest timestamp. Among those it is the first with the largest number of hashed tokens |
| Evictor.ScanFromSorted | vllm/core/block/evictor.py:76-84 | the induction behind VictimOfSorted: when the scan starts from the best block of a prefix that shares the earliest timestamp, it still ends on the least-recently-used block with the most hashed tokens |
| Evictor.ScanNotLater | vllm/core/block/evictor.py:80-82 | the scan never picks a block accessed later than its current choice |
| Evictor.LRUEvictor.constructor | vllm/core/block/evictor.py:66-67 | an empty table |
| Evictor.LRUEvictor.NumBlocks | vllm/core/block/evictor.py:101-103 | the number of entries |
| Evictor.LRUEvictor.Evict | vllm/core/block/evictor.py:72-88 | ValueError iff the table is empty. Otherwise it removes exactly the victim's entry and returns its hash, which is then no longer contained, and `num_blocks` drops by one |
| Evictor.LRUEvictor.Add | vllm/core/block/evictor.py:90-93 | the hash is contained afterwards. Re-adding replaces its data without changing `num_blocks`; a new hash adds one |
| Evictor.LRUEvictor.Remove | vllm/core/block/evictor.py:95-99 | ValueError iff the hash is absent. Otherwise only that hash leaves the table |
| Evictor.MakeEvictor | vllm/core/block/evictor.py:106-108 | LRU gives a new, empty LRU evictor |
| BlockPools.InitialPool | vllm/core/block/block_space_manager.py:212-218 | a new device allocator is valid and has all n of its blocks free |
| BlockPools.AllocateKeepsDeviceValid | vllm/core/block/block_space_manager.py:268-270 | `allocate` fails iff the free list is empty. Otherwise it hands out a free block at count 0, raises its count to 1, removes it from the free list and keeps the allocator valid |
| BlockPools.FreeKeepsDeviceValid | vllm/core/block/block_space_manager.py:475-480 | `free` fails iff the block is unknown or already at count 0. Otherwise it drops the count by one and keeps the allocator valid |
| BlockPools.AllocateOnKeepsValid | vllm/core/block/block_space_manager.py:268-341 | allocating on one device fails (ValueError) iff that device has nothing free. Otherwise the new block is on that device and goes from count 0 to 1, and the other device is untouched |
| BlockPools.FreeBlockKeepsValid | vllm/core/block/block_space_manager.py:475-480 | freeing fails (ValueError) iff the block is unknown or unreferenced; otherwise only its count on its own device drops by one |
| BlockPools.IncrKeepsValid | vllm/core/block/block_space_manager.py:392-459 | `ref_count += 1` on a referenced block keeps both allocators valid and raises that count by one |
| BlockPools.AllocateThenFree | vllm/core/block/block_space_manager.py:475-480 | freeing the block just allocated restores the allocator exactly |
| BlockPools.Dedup | vllm/core/block/block_space_manager.py:476 | `set(block_table)`: the same blocks, each once |
| BlockPools.FreeAllDistinct | vllm/core/block/block_space_manager.py:475-480 | freeing distinct held blocks succeeds and lowers exactly their counts by one |
| BlockPools.IncrPrefixBlocksCount | vllm/core/block/block_space_manager.py:386-392 | incrementing each entry of a table raises each block's count by its multiplicity in the table |
| BlockSpaceManagerV1.AllocDecisionMeaning | vllm/core/block/block_space_manager.py:231-249 | OK iff the free blocks would stay at or above the watermark. NEVER does not depend on how many blocks are free, LATER becomes OK on an empty GPU, and OK implies the blocks fit |
| BlockSpaceManagerV1.AllocDecision | vllm/core/block/block_space_manager.py:231-249 | any answer but NEVER means the request plus the watermark fits in the GPU. OK with a non-negative watermark means the blocks fit in the free ones |
| BlockSpaceManagerV1.WatermarkBlocks | vllm/core/block/block_space_manager.py:212 | `int(watermark * num_gpu_blocks)` is the floor of that product |
| BlockSpaceManagerV1.NumFresh | vllm/core/block/block_space_manager.py:237-270 | the number of fresh blocks a prompt needs: n, capped at the sliding window |
| BlockSpaceManagerV1.PromptTableShape | vllm/core/block/block_space_manager.py:259-272 | past the sliding window, entry i reuses entry i mod window, and the fresh entries are pairwise distinct |
| BlockSpaceManagerV1.BuildTable | vllm/core/block/block_space_manager.py:259-272 | the prompt loop fails with ZeroDivisionError on a window of 0 and with ValueError when the fresh blocks do not fit. Otherwise it returns the prompt table and has allocated exactly the fresh blocks from the GPU |
| BlockSpaceManagerV1.AppendSlotKeepsValid | vllm/core/block/block_space_manager.py:344-384 | append_slot keeps the allocators valid and every table entry known |
| BlockSpaceManagerV1.LastBlockKeepsValid | vllm/core/block/block_space_manager.py:369-384 | the last-block step (append in place or copy-on-write) keeps the allocators valid and every entry known |
| BlockSpaceManagerV1.LastBlockCopyOnWrite | vllm/core/block/block_space_manager.py:376-384 | a returned (src, dst) pair means the last block was shared (count >= 2). dst was free at count 0 and replaces it at the end of the table at count 1, and src drops by one |
| BlockSpaceManagerV1.AppendSlotCopyOnWrite | vllm/core/block/block_space_manager.py:344-384 | the same copy-on-write facts for the whole append_slot, after any new logical block is added |
| BlockSpaceManagerV1.AppendSlotNoCopy | vllm/core/block/block_space_manager.py:352-375 | a None result means one of two cases. Either the last block was unshared and nothing changed, or a new block was taken from the end of the GPU free list and appended at count 1 |
| BlockSpaceManagerV1.OneFreeBlockSuffices | vllm/core/block/block_space_manager.py:344-384 | with at least one free GPU block, append_slot never runs out of blocks; this is the can_append_slot heuristic |
| BlockSpaceManagerV1.FreeBlocks | vllm/core/block/block_space_manager.py:475-480 | the free loop returns the result of freeing the blocks one by one, and the allocators stay valid |
| BlockSpaceManagerV1.FreeTable | vllm/core/block/block_space_manager.py:475-480 | freeing the set of a held table succeeds and lowers each block in it by exactly one, however many times it occurs |
| BlockPools.FreeAllOkCount | vllm/core/block/block_space_manager.py:474-480 | a successful free of distinct blocks lowers each of them by one and leaves every other count |
| BlockSpaceManagerV1.IncrBlocks | vllm/core/block/block_space_manager.py:391-392 | the fork loop raises each entry's count by one per occurrence |
| BlockSpaceManagerV1.ForkOfFreedBlock | vllm/core/block/block_space_manager.py:390-392 | a block of the parent's table at count 0 ends at count 1 or more with its number still on the free list, so the allocators are no longer valid |
| BlockSpaceManagerV1.AllocatedPromptCounts | vllm/core/block/block_space_manager.py:259-276 | after allocate the allocators are valid and every entry of the prompt table is at count 1, however many waiting sequences share it |
| BlockSpaceManagerV1.SiblingFreeFreesSharedTable | vllm/core/block/block_space_manager.py:273-276 | as written, freeing the table of one waiting sequence succeeds and leaves every entry of the shared prompt table at count 0 (free), while the other sequences' tables still list them |
| BlockSpaceManagerV1.SetCounts | vllm/core/block/block_space_manager.py:273-276 | the intended `block.ref_count = seq_group.num_seqs()`: the counts of the table's blocks become m, and every other count and both free lists are unchanged |
| BlockSpaceManagerV1.SetCountsValid | vllm/core/block/block_space_manager.py:273-276 | setting a held table's blocks to a positive count keeps the allocators valid |
| BlockSpaceManagerV1.AllocatedCounted | vllm/core/block/block_space_manager.py:251-276 | after allocate, the prompt table's blocks set to m references each keep the allocators valid, and each entry is at count m |
| BlockSpaceManagerV1.SharedTableFreesLast | vllm/core/block/block_space_manager.py:474-488 | with the table's blocks at m references, j <= m frees of it succeed and keep the allocators valid. Each block is left at m - j, and stays held while j < m |
| BlockSpaceManagerV1.BlockNumbers | vllm/core/block/block_space_manager.py:497 | the block numbers of a table, entry by entry |
| BlockSpaceManagerV1.LastComputedIndex | vllm/core/block/block_space_manager.py:528-530 | the largest index whose block is computed, or None when none is |
| BlockSpaceManagerV1.Lcp | vllm/core/block/block_space_manager.py:546 | a common prefix of both lists that cannot be extended |
| BlockSpaceManagerV1.LcpLongest | vllm/core/block/block_space_manager.py:546 | every common prefix of two lists is a prefix of Lcp |
| BlockSpaceManagerV1.CommonPrefix | vllm/core/block/block_space_manager.py:546 | `os.path.commonprefix`: a prefix of every list |
| BlockSpaceManagerV1.CommonPrefixLongest | vllm/core/block/block_space_manager.py:546 | every common prefix of a non-empty list of lists is a prefix of CommonPrefix |
| BlockSpaceManagerV1.NonEmpty | vllm/core/block/block_space_manager.py:546 | keeps exactly the non-empty lists |
| BlockSpaceManagerV1.LastFullBlock | vllm/core/block/block_space_manager.py:514-521 | the block at `len // block_size - 1`. None when the sequence has no table or not one full block, and IndexError iff that index is past the table |
| BlockSpaceManagerV1.BlockSet | vllm/core/block/block_space_manager.py:402 | the blocks of a table as a set |
| BlockSpaceManagerV1.NumberMapInjective | vllm/core/block/block_space_manager.py:438-471 | the returned block-number mapping is one-to-one: distinct source blocks went to distinct destination blocks |
| BlockSpaceManagerV1.MapThrough | vllm/core/block/block_space_manager.py:418-434 | the new table is the old one mapped entry by entry |
| BlockSpaceManagerV1.NumberMap | vllm/core/block/block_space_manager.py:438-441 | the block-number view of the block mapping |
| BlockSpaceManagerV1.MapBlock | vllm/core/block/block_space_manager.py:423-432 | a mapped block reuses its destination. An unmapped one gets a fresh block on the destination device, or fails iff that device has nothing free |
| BlockSpaceManagerV1.MoveTable | vllm/core/block/block_space_manager.py:421-435 | moving one table keeps the allocators valid and extends the mapping. The destination's free count falls by exactly the number of new mappings, and success rewrites the table through the mapping. Failure is a ValueError, raised when the distinct blocks outnumber the free ones |
| BlockSpaceManagerV1.MoveTables | vllm/core/block/block_space_manager.py:415-473 | the swap loop over sequences. On success every moved table is the old table mapped through a one-to-one mapping of exactly their blocks, the other tables are untouched, and the number mapping is returned. It is a KeyError for a sequence without a table, and a ValueError only when the blocks outnumber the free ones |
| BlockSpaceManagerV1.UnfinishedBlocks | vllm/core/block/block_space_manager.py:394-403 | the blocks of the tables of the unfinished sequences; KeyError iff one of them has no table |
| BlockSpaceManagerV1.MovedWithinPhysical | vllm/core/block/block_space_manager.py:394-413 | the blocks a swap moves are among those can_swap_in and can_swap_out count |
| BlockSpaceManagerV1.FitsNoShortage | vllm/core/block/block_space_manager.py:405-447 | when the can_swap check passes, the swap never runs out of blocks and leaves enough free for the reserve |
| BlockSpaceManagerV1.BlockSpaceManager.constructor | vllm/core/block/block_space_manager.py:188-229 | records the sizes, the window in blocks (sliding_window / block_size) and the floor watermark. Both allocators start full and there are no tables |
| BlockSpaceManagerV1.BlockSpaceManager.Create | vllm/core/block/block_space_manager.py:201-208 | an AssertionError iff the window is not a multiple of the block size or the watermark is negative; otherwise a new, valid, empty manager |
| BlockSpaceManagerV1.BlockSpaceManager.GetNumFreeGpuBlocks | vllm/core/block/block_space_manager.py:499-500 | the length of the GPU free list |
| BlockSpaceManagerV1.BlockSpaceManager.GetNumFreeCpuBlocks | vllm/core/block/block_space_manager.py:502-503 | the length of the CPU free list |
| BlockSpaceManagerV1.BlockSpaceManager.CanAllocate | vllm/core/block/block_space_manager.py:231-249 | an IndexError iff no sequence is waiting. Otherwise it is the watermark decision on the first waiting sequence's blocks, capped at the window |
| BlockSpaceManagerV1.BlockSpaceManager.Allocate | vllm/core/block/block_space_manager.py:251-276 | handles the error cases: IndexError with no waiting sequence, ZeroDivisionError on a window of 0, ValueError when the blocks do not fit. On success every waiting sequence gets the prompt table and exactly the fresh blocks are allocated. It always succeeds after can_allocate said OK |
| BlockSpaceManagerV1.BlockSpaceManager.AllocateCounted | vllm/core/block/block_space_manager.py:251-276 | allocate as intended: the error cases and tables of Allocate, with every block of the prompt table at one reference per waiting sequence, and the manager valid |
| BlockSpaceManagerV1.BlockSpaceManager.BuildPromptTable | vllm/core/block/block_space_manager.py:259-272 | BuildTable on the manager's GPU allocator, leaving the tables alone |
| BlockSpaceManagerV1.BlockSpaceManager.AssignTables | vllm/core/block/block_space_manager.py:275-276 | each waiting sequence gets a copy of the table; nothing else changes |
| BlockSpaceManagerV1.BlockSpaceManager.CanAppendSlot | vllm/core/block/block_space_manager.py:278-283 | when it says yes, append_slot on any running sequence whose table is held cannot run out of GPU blocks |
| BlockSpaceManagerV1.BlockSpaceManager.AppendSlot | vllm/core/block/block_space_manager.py:344-384 | a KeyError without a table. Otherwise it performs the append_slot step (new block, in-place append or copy-on-write) on the sequence's table and the allocators |
| BlockSpaceManagerV1.BlockSpaceManager.Fork | vllm/core/block/block_space_manager.py:386-392 | a KeyError with nothing changed when the parent has no table. Otherwise the child gets the parent's table, and each block's count rises by its multiplicity in it, whatever the count was. The free lists are unchanged and no block is allocated. The manager stays valid when every block of the table is held |
| BlockSpaceManagerV1.BlockSpaceManager.GetPhysicalBlocks | vllm/core/block/block_space_manager.py:394-403 | the blocks of the unfinished sequences' tables |
| BlockSpaceManagerV1.BlockSpaceManager.SwapInFits | vllm/core/block/block_space_manager.py:405-413 | when it holds, every unfinished sequence has a table. With a non-negative watermark, the group's blocks also fit in the free GPU blocks |
| BlockSpaceManagerV1.BlockSpaceManager.CanSwapIn | vllm/core/block/block_space_manager.py:405-413 | true iff the free GPU blocks minus (the group's blocks + one per swapped sequence) stay at or above the watermark |
| BlockSpaceManagerV1.BlockSpaceManager.SwapOutFits | vllm/core/block/block_space_manager.py:445-447 | when it holds, every unfinished sequence of the group has a table |
| BlockSpaceManagerV1.BlockSpaceManager.SwapIn | vllm/core/block/block_space_manager.py:415-443 | moves the swapped sequences' tables from CPU to GPU. It frees each CPU entry and returns a one-to-one number mapping. After can_swap_in it cannot run out and leaves a free block per sequence above the watermark |
| BlockSpaceManagerV1.BlockSpaceManager.CanSwapOut | vllm/core/block/block_space_manager.py:445-447 | true iff the group's blocks fit in the free CPU blocks |
| BlockSpaceManagerV1.BlockSpaceManager.SwapOut | vllm/core/block/block_space_manager.py:449-473 | moves the running sequences' tables from GPU to CPU in the same way. After can_swap_out it cannot run out |
| BlockSpaceManagerV1.BlockSpaceManager.Free | vllm/core/block/block_space_manager.py:482-488 | does nothing for an unknown sequence. Otherwise it frees each distinct block of its table once and deletes the table, so every block in the table drops by exactly one |
| BlockSpaceManagerV1.BlockSpaceManager.Reset | vllm/core/block/block_space_manager.py:490-493 | frees each table's distinct blocks, then clears the tables. On success every block's count drops by the number of tables holding it, and the tables are gone. It succeeds whenever no block is held by more tables than its count. An error leaves the tables, and with no tables nothing changes |
| BlockSpaceManagerV1.BlockSpaceManager.GetBlockTable | vllm/core/block/block_space_manager.py:495-497 | a KeyError iff the sequence has no table; otherwise its block numbers |
| BlockSpaceManagerV1.BlockSpaceManager.AccessAllBlocksInSeq | vllm/core/block/block_space_manager.py:505-512 | a KeyError iff there is no table. Otherwise exactly the table's blocks get the access time and the others keep theirs |
| BlockSpaceManagerV1.BlockSpaceManager.ComputeLastFullBlockInSeq | vllm/core/block/block_space_manager.py:514-521 | marks the last full block computed, if any. Without a table or a full block it does nothing; an IndexError happens when the index is past the table |
| BlockSpaceManagerV1.BlockSpaceManager.GetAllBlockIdsTillComputed | vllm/core/block/block_space_manager.py:523-530 | [] without a table. Otherwise it gives the block numbers up to and including the last computed block, and [] when none is computed |
| BlockSpaceManagerV1.BlockSpaceManager.GetCommonComputedBlockIds | vllm/core/block/block_space_manager.py:532-546 | [] without caching; otherwise the longest common prefix of the non-empty computed-id lists |
| BlockSpaceManagerV1.BlockSpaceManager.MarkBlocksAsComputed | vllm/core/block/block_space_manager.py:548-553 | does nothing without caching. With caching it succeeds iff every sequence's last-full-block lookup does, and every such block is then computed |
| RotaryEmbedding.PairOffsets | csrc/pos_encoding_kernels.dp.cpp:41-53 | the two lanes a rotation offset touches are distinct and inside the head: (r, embed_dim + r) for NeoX, (2r, 2r + 1) for GPT-J |
| RotaryEmbedding.CosSinIndex | csrc/pos_encoding_kernels.dp.cpp:41-53 | both styles read the cos and sin values at the rotation offset itself |
| RotaryEmbedding.PairRotOffset | csrc/pos_encoding_kernels.dp.cpp:41-53 | every lane of the rotated part belongs to the pair of some rotation offset |
| RotaryEmbedding.PairOwner | csrc/pos_encoding_kernels.dp.cpp:41-53 | both lanes of a pair map back to the offset that owns them |
| RotaryEmbedding.PairsDisjoint | csrc/pos_encoding_kernels.dp.cpp:41-101 | distinct offsets touch disjoint lanes, so the work-items of one head never write the same element |
| RotaryEmbedding.NormPreserved | csrc/pos_encoding_kernels.dp.cpp:55-58 | when cos² + sin² = 1, the rotation of (x, y) keeps x² + y² |
| RotaryEmbedding.RotatedHead | csrc/pos_encoding_kernels.dp.cpp:32-59 | the rotated head has the same length and leaves the lanes past 2 * embed_dim untouched |
| RotaryEmbedding.Interleave | csrc/pos_encoding_kernels.dp.cpp:41-53 | lays the first and second halves out as alternating pairs and leaves the rest untouched |
| RotaryEmbedding.GptjIsInterleavedNeox | csrc/pos_encoding_kernels.dp.cpp:41-53 | the GPT-J rotation of an interleaved head is the interleaving of the NeoX rotation |
| RotaryEmbedding.NeoxPairRotated | csrc/pos_encoding_kernels.dp.cpp:41-58 | under NeoX, lanes r and embed_dim + r hold the rotation of their inputs by the r-th angle |
| RotaryEmbedding.GptjPairRotated | csrc/pos_encoding_kernels.dp.cpp:47-58 | under GPT-J, lanes 2r and 2r + 1 hold the rotation of their inputs by the r-th angle |
| RotaryEmbedding.NeoxAndGptjDiffer | csrc/pos_encoding_kernels.dp.cpp:130-155 | on a concrete head the NeoX and GPT-J rotations give different results, so launching the NeoX kernel for a GPT-J model changes the output |
| RotaryEmbedding.ApplyRotaryEmbedding | csrc/pos_encoding_kernels.dp.cpp:32-59 | rotates exactly the pair of one offset in place and changes no other element |
| RotaryEmbedding.HeadOffsetBijection | csrc/pos_encoding_kernels.dp.cpp:85-96 | (i / embed_dim, i % embed_dim) is a bijection between the work indices and the (head, offset) pairs |
| RotaryEmbedding.HeadStart | csrc/pos_encoding_kernels.dp.cpp:85-86 | each head's base lies inside the token's region |
| RotaryEmbedding.Slot | csrc/pos_encoding_kernels.dp.cpp:85-88 | every (head, offset) slot is inside the token's region |
| RotaryEmbedding.SlotInjective | csrc/pos_encoding_kernels.dp.cpp:85-88 | distinct (head, offset) slots are distinct elements |
| RotaryEmbedding.RotateLane | csrc/pos_encoding_kernels.dp.cpp:83-91 | one work-item's strided loop rotates exactly the pairs whose index is congruent to its lane, leaving the other lanes' pairs as they were |
| RotaryEmbedding.AllLanesDone | csrc/pos_encoding_kernels.dp.cpp:83-101 | once every lane of the work-group has run, every pair of every head is rotated |
| RotaryEmbedding.RotaryEmbeddingKernel | csrc/pos_encoding_kernels.dp.cpp:62-102 | one work-item of one token rotates its share of the query heads and of the key heads by that token's cos and sin rows |
| RotaryEmbedding.RunWorkGroup | csrc/pos_encoding_kernels.dp.cpp:62-147 | running all work-items of a token's work-group rotates every query and key head of that token fully |
| RotaryEmbedding.CosRow | csrc/pos_encoding_kernels.dp.cpp:75-81 | the first rot_dim / 2 entries of the position's cache row |
| RotaryEmbedding.SinRow | csrc/pos_encoding_kernels.dp.cpp:75-81 | the second rot_dim / 2 entries of the position's cache row |
| RotaryEmbedding.LaunchRotaryKernel | csrc/pos_encoding_kernels.dp.cpp:124-147 | the launch over all tokens leaves every token's query and key heads rotated by its own position, in the style of the instantiated kernel |
| RotaryEmbedding.LaunchGeometry | csrc/pos_encoding_kernels.dp.cpp:106-121 | num_tokens, num_heads and num_kv_heads are floor divisions of the tensor sizes. The work-group size is min(num_heads * rot_dim / 2, 512) |
| RotaryEmbedding.RotaryEmbeddingAsWritten | csrc/pos_encoding_kernels.dp.cpp:106-173 | the host entry point as written: both branches launch the NeoX kernel, so the result is the NeoX rotation whatever is_neox says |
| RotaryEmbedding.RotaryEmbedding | csrc/pos_encoding_kernels.dp.cpp:106-193 | the corrected entry point: each token's query and key heads are rotated in the style is_neox selects, and nothing changes when the work-group is empty |
| Sequences.SequenceGroup.GetSeqs | vllm/core/block/block_space_manager.py:234 | the group's sequences with that status, in order: each one has the status and every such sequence is listed |
| Sequences.SequenceGroup.NumSeqs | vllm/core/block/block_space_manager.py:282 | the number of sequences get_seqs returns for that status |
| Sequences.WithStatus | vllm/core/block/block_space_manager.py:417-452 | the sequences of a list with that status, each of them and only them |
| Sequences.WithStatusDistinct | vllm/core/block/block_space_manager.py:417-452 | filtering by status keeps sequence ids distinct |
| Sequences.SeqIds | vllm/core/block/block_space_manager.py:275-276 | exactly the ids of the listed sequences |
| Sequences.Assigned | vllm/core/block/block_space_manager.py:275-276 | every listed sequence maps to the given table and every other id keeps its own |
| Sequences.SequenceGroup.MapStatus | vllm/core/scheduler.py:148-151 | rewrites every sequence's status by the given rule and keeps the group's other fields and its length |
| Scheduler.ReqIds | vllm/core/scheduler.py:118-158 | the request ids of a queue, position by position |
| Scheduler.ReqIdsAppend | vllm/core/scheduler.py:268-357 | the ids of a concatenation are the concatenated ids |
| Scheduler.SetStatus | vllm/core/scheduler.py:214-215 | moves exactly the sequences in one status to another and keeps everything else |
| Scheduler.Reverse | vllm/core/scheduler.py:272-359 | the list in reverse order |
| Scheduler.ExtendLeftReverses | vllm/core/scheduler.py:272-359 | `deque.extendleft(items)` puts the items in front in reverse order |
| Scheduler.Max | vllm/core/scheduler.py:247 | `max(new_seq_lens)` bounds every length and is one of them |
| Scheduler.SumAtMostWidth | vllm/core/scheduler.py:247-259 | the sum of the lengths is at most len * max, so the padding count is never negative |
| Scheduler.LorasOf | vllm/core/scheduler.py:193-195 | with LoRA enabled, every running group's LoRA id is in the set |
| Scheduler.AddLora | vllm/core/scheduler.py:237-265 | admitting a group that the LoRA check lets through keeps at most max_loras LoRA ids |
| Scheduler.AddCopy | vllm/core/scheduler.py:441-446 | appends dst to src's copy list (starting one if needed) and keeps the other sources' lists |
| Scheduler.AppendSlots | vllm/core/scheduler.py:434-446 | appending slots for a group only ever grows blocks_to_copy: the old entries stay as prefixes |
| Scheduler.AppendSlotsLoop | vllm/core/scheduler.py:439-446 | the loop over running sequences computes the AppendSlots result |
| Scheduler.InterleavesCount | vllm/core/scheduler.py:202-272 | a queue split into three interleaved lists loses and gains nothing: the multisets add up |
| Scheduler.PromptLimit | vllm/core/scheduler.py:88-89 | the smaller of max_model_len and max_num_batched_tokens |
| Scheduler.PromptStep | vllm/core/scheduler.py:202-270 | a prompt iteration that continues always consumes exactly the front waiting group |
| Scheduler.PromptStepMeaning | vllm/core/scheduler.py:202-270 | each iteration is one of these. An AssertionError unless exactly one sequence waits. Ignored (too long, or NEVER). Deferred for lack of a LoRA slot. Stop (LATER, or over the token, padding or sequence budget). Or admitted as running and scheduled, within the budgets |
| Scheduler.RunPrompts | vllm/core/scheduler.py:202-272 | the while loop computes the PromptLoop result |
| Scheduler.PromptLoop | vllm/core/scheduler.py:202-272 | on success the loop has only consumed waiting groups, never added any |
| Scheduler.PromptLoopBudgets | vllm/core/scheduler.py:245-262 | the admitted prompt lengths keep len * max within max_num_batched_tokens and the padding within max_paddings. Once any group is admitted, the running sequence count is within max_num_seqs |
| Scheduler.PromptLoopGrows | vllm/core/scheduler.py:202-272 | the loop only appends to running, scheduled and ignored and only consumes waiting from the front |
| Scheduler.PromptLoopFifo | vllm/core/scheduler.py:202-272 | the consumed waiting groups are exactly the scheduled, ignored and deferred ones interleaved in order (first come, first served) |
| Scheduler.PromptLoopStops | vllm/core/scheduler.py:202-257 | when waiting groups remain, the loop stopped because its front group hit a stop condition |
| Scheduler.Preempt | vllm/core/scheduler.py:448-504 | preemption leaves the pending and kept groups and blocks_to_copy unchanged |
| Scheduler.ReserveFor | vllm/core/scheduler.py:297-313 | reserving a slot for one group preempts only from the back of the queue, never adding to it |
| Scheduler.ReserveAll | vllm/core/scheduler.py:296-314 | the reservation loop ends with no pending group |
| Scheduler.RunReserve | vllm/core/scheduler.py:296-314 | the nested while loops compute the ReserveAll result |
| Scheduler.Recomputed | vllm/core/scheduler.py:473-479 | the preempted groups that are recomputed are those with at most one running sequence |
| Scheduler.SwappedOut | vllm/core/scheduler.py:473-481 | the preempted groups that are swapped out are the others |
| Scheduler.ReserveAllGrown | vllm/core/scheduler.py:291-314 | over the whole loop, the pending groups are split in order into kept and preempted groups. The recomputed ones are pushed to the front of waiting in reverse order, and the swapped ones to the back of swapped in order. blocks_to_copy only grows |
| Scheduler.SwapInStep | vllm/core/scheduler.py:327-357 | a swap-in iteration never fails, and one that continues consumes exactly the front swapped group |
| Scheduler.RunSwapIn | vllm/core/scheduler.py:327-359 | the while loop computes the SwapInLoop result |
| Scheduler.SwapInLoop | vllm/core/scheduler.py:327-359 | the swapped groups left are a suffix of those the loop started with |
| Scheduler.SwapInStepMeaning | vllm/core/scheduler.py:327-357 | each iteration is one of these. Deferred for lack of a LoRA slot. Stop (cannot swap in, or over max_num_seqs). Or swapped in: the group joins running with its swapped sequences running, its mapping joins blocks_to_swap_in and the sequence count stays within max_num_seqs |
| Scheduler.SwapInLoopBudgets | vllm/core/scheduler.py:318-357 | the swap-in loop keeps the running sequence count within max_num_seqs and at most max_loras LoRA ids |
| Scheduler.SwapInLoopFifo | vllm/core/scheduler.py:327-359 | the consumed swapped groups are exactly the resumed and deferred ones, in order |
| Scheduler.StrLeTotal | vllm/core/scheduler.py:63-66 | the order on request ids is total |
| Scheduler.InsertByLora | vllm/core/scheduler.py:63-66 | insertion adds exactly one group |
| Scheduler.InsertByLoraSorted | vllm/core/scheduler.py:63-66 | inserting into a list sorted by (LoRA id, request id) keeps it sorted |
| Scheduler.SortByLora | vllm/core/scheduler.py:63-66 | a sorted permutation of the groups by (LoRA id, request id) |
| Scheduler.MakeOutputs | vllm/core/scheduler.py:33-55 | the outputs hold the scheduled groups sorted by (LoRA id, request id) as a permutation and the other fields as given. It requires that swap-in and swap-out are not both non-empty, as the constructor asserts |
| Scheduler.PromptConserves | vllm/core/scheduler.py:202-272 | after the prompt loop and the extendleft of the deferred groups, waiting, running and ignored together hold exactly the request ids of waiting and running before |
| Scheduler.SwapInConserves | vllm/core/scheduler.py:327-359 | after the swap-in loop and the extendleft, swapped and running hold exactly the request ids they held before |
| Scheduler.ReserveConserves | vllm/core/scheduler.py:291-314 | after the reservation loop, no request id is lost or duplicated across waiting, running and swapped |
| Scheduler.DecodeConserves | vllm/core/scheduler.py:291-377 | the decode path keeps the multiset of request ids across the three queues |
| Scheduler.Decode | vllm/core/scheduler.py:291-377 | the decode part never reports a prompt run or an ignored group |
| Scheduler.ScheduleConserves | vllm/core/scheduler.py:160-377 | `_schedule` keeps every request: the three queues plus the ignored groups hold exactly the request ids of the queues before |
| Scheduler.ScheduleSpec | vllm/core/scheduler.py:160-377 | a prompt run happens only with nothing swapped, and then it schedules or ignores some group |
| Scheduler.DecodeOutputs | vllm/core/scheduler.py:361-377 | a decode run has no ignored groups and does not both swap in and swap out. It schedules all running groups sorted by LoRA and counts one token per running sequence |
| Scheduler.ScheduleOutputs | vllm/core/scheduler.py:186-377 | a prompt run happens only with nothing swapped. It has something scheduled or ignored, no swap or copy, at most max_num_batched_tokens tokens, and its scheduled groups are running. Otherwise it is a decode run as above |
| Scheduler.IdSet | vllm/core/scheduler.py:133 | exactly the request ids of a queue |
| Scheduler.AbortScan | vllm/core/scheduler.py:135-144 | the aborted groups carry requested ids, each removed from the set as it is found. The kept groups' ids are not among those still sought |
| Scheduler.AbortScanMerge | vllm/core/scheduler.py:135-147 | the queue is exactly its kept and aborted groups interleaved in order |
| Scheduler.AbortQueue | vllm/core/scheduler.py:135-147 | the scan loop with its early break computes the AbortScan result |
| Scheduler.AbortStatuses | vllm/core/scheduler.py:148-151 | every sequence of an aborted group ends finished, and already-finished ones are untouched |
| Scheduler.FreeAborted | vllm/core/scheduler.py:145-152 | the free loop over the aborted groups' unfinished sequences computes the FreeGroups result |
| Scheduler.AbortSpec | vllm/core/scheduler.py:118-152 | every aborted group is finished and was requested |
| Scheduler.AbortScanIds | vllm/core/scheduler.py:135-144 | the requested ids are exactly the ones found plus the ones still sought |
| Scheduler.AbortConserves | vllm/core/scheduler.py:118-152 | abort moves groups out of the queues without losing or duplicating a request id |
| Scheduler.AbortExact | vllm/core/scheduler.py:118-152 | with unique request ids, no requested id remains in any queue and every other group stays |
| Scheduler.AbortAll | vllm/core/scheduler.py:118-152 | aborting every request id empties all three queues |
| Scheduler.Unfinished | vllm/core/scheduler.py:416-418 | exactly the unfinished groups of the queue |
| Scheduler.RunDecode | vllm/core/scheduler.py:291-377 | the decode path's loops compute the Decode result |
| Scheduler.Scheduler.constructor | vllm/core/scheduler.py:74-108 | a scheduler with empty queues over the given configuration, policy and block manager |
| Scheduler.Scheduler.AddSeqGroup | vllm/core/scheduler.py:114-116 | the group joins the back of waiting, and the unfinished count rises by one |
| Scheduler.Scheduler.GetNumUnfinishedSeqGroups | vllm/core/scheduler.py:157-158 | the number of groups across the three queues |
| Scheduler.Scheduler.HasUnfinishedSeqs | vllm/core/scheduler.py:154-155 | true iff some queue is non-empty |
| Scheduler.Scheduler.AbortSeqGroup | vllm/core/scheduler.py:118-152 | the queues and the aborted groups are those AbortSpec gives |
| Scheduler.Scheduler.FreeFinishedSeqGroups | vllm/core/scheduler.py:416-418 | running keeps exactly its unfinished groups in order; nothing else changes |
| Scheduler.Scheduler.Schedule | vllm/core/scheduler.py:160-377 | on success the queues and outputs are those ScheduleSpec gives; on an error the queues are unchanged |
| BlockManagerV2.NumRequiredBlocks | vllm/core/block_manager_v2.py:65-68 | the least number of blocks that holds the tokens (a ceiling division) |
| BlockManagerV2.OneMoreTokenOneMoreBlock | vllm/core/block_manager_v2.py:109-115 | one more token needs at most one more block, which is why one free block per sequence suffices |
| BlockManagerV2.NumRequiredMonotone | vllm/core/block_manager_v2.py:65-68 | more tokens never need fewer blocks |
| BlockManagerV2.Placed | vllm/core/block_manager_v2.py:102 | a freshly allocated table has every block placed, in allocation order |
| BlockManagerV2.AppendStep | vllm/core/block_manager_v2.py:122-129 | an AssertionError iff the sequence has no unseen tokens, and NoFreeBlocksError iff too few new blocks are offered. Otherwise the table is extended by exactly the unseen tokens, its old blocks are kept, and it still fits its blocks |
| BlockManagerV2.AppendCatchesUp | vllm/core/block_manager_v2.py:122-129 | when the table holds a prefix of the sequence and enough blocks are offered, appending succeeds and the table then holds exactly the sequence's tokens |
| BlockManagerV2.OneTokenAppendNeedsOneBlock | vllm/core/block_manager_v2.py:109-129 | appending a single token to a table that fits its blocks needs at most one new block |
| BlockManagerV2.PlacedIds | vllm/core/block_manager_v2.py:140-142 | the ids of a table when every entry is placed |
| BlockManagerV2.PlacedIdsMeaning | vllm/core/block_manager_v2.py:140-142 | there are ids iff every entry is placed, and then they are exactly the entries |
| BlockManagerV2.BlockSpaceManagerV2.constructor | vllm/core/block_manager_v2.py:27-58 | records the sizes and the floor watermark, with no tables |
| BlockManagerV2.BlockSpaceManagerV2.Create | vllm/core/block_manager_v2.py:40-46 | an AssertionError iff a sliding window is given, the watermark is negative or caching is enabled; otherwise a new, empty manager |
| BlockManagerV2.BlockSpaceManagerV2.CanAllocate | vllm/core/block_manager_v2.py:60-85 | an IndexError iff no sequence is waiting. Otherwise NEVER iff the blocks plus the watermark exceed the GPU, and OK iff they fit both the GPU and the free blocks |
| BlockManagerV2.BlockSpaceManagerV2.CanAppendSlot | vllm/core/block_manager_v2.py:109-115 | true iff the running sequences number at most the free GPU blocks |
| BlockManagerV2.BlockSpaceManagerV2.Allocate | vllm/core/block_manager_v2.py:87-107 | an AssertionError when a waiting sequence already has a table, and an IndexError when none waits. NoFreeBlocksError when too few blocks are offered. Otherwise every waiting sequence gets the first one's table of tokens and new blocks |
| BlockManagerV2.BlockSpaceManagerV2.ForkToRest | vllm/core/block_manager_v2.py:106-107 | the other waiting sequences get forks of the first one's table |
| BlockManagerV2.BlockSpaceManagerV2.AppendSlot | vllm/core/block_manager_v2.py:117-129 | a KeyError without a table, otherwise the append step's error or its table. It never returns a copy-on-write pair |
| BlockManagerV2.BlockSpaceManagerV2.Free | vllm/core/block_manager_v2.py:131-136 | the sequence has no table afterwards and every other table is unchanged |
| BlockManagerV2.BlockSpaceManagerV2.Fork | vllm/core/block_manager_v2.py:170-172 | a KeyError when the parent has no table; otherwise the child gets the parent's table |
| BlockManagerV2.BlockSpaceManagerV2.GetBlockTable | vllm/core/block_manager_v2.py:138-142 | the table's ids iff the sequence has a table with every block placed, otherwise an AssertionError. In a valid manager every table is placed |
| BlockManagerV2.BlockSpaceManagerV2.CanSwapIn | vllm/core/block_manager_v2.py:174-175 | always false |
| BlockManagerV2.BlockSpaceManagerV2.CanSwapOut | vllm/core/block_manager_v2.py:180-181 | always false |
| BlockManagerV2.BlockSpaceManagerV2.SwapIn | vllm/core/block_manager_v2.py:177-178 | always NotImplementedError |
| BlockManagerV2.BlockSpaceManagerV2.SwapOut | vllm/core/block_manager_v2.py:183-184 | always NotImplementedError |
| BlockManagerV2.SameRuleAsV1 | vllm/core/block_manager_v2.py:60-85 | without a sliding window, both managers make the same can_allocate decision |
| Attention.NewPagedAttention | vllm/model_executor/layers/attention.py:47-71 | num_kv_heads defaults to num_heads. The cases are a division by zero iff it is 0, an assertion failure iff it does not divide num_heads, and an unsupported head size (ValueError). Otherwise num_queries_per_kv * num_kv_heads == num_heads |
| Attention.DefaultIsMultiHead | vllm/model_executor/layers/attention.py:60-67 | without num_kv_heads the layer is plain multi-head attention: one query per key/value head |
| Attention.QueryHeadsGroupOntoKvHeads | vllm/model_executor/layers/attention.py:170-185 | query head h uses key/value head h / num_queries_per_kv. Each key/value head serves a contiguous block of num_queries_per_kv query heads |
| Attention.MaxNumPartitions | vllm/model_executor/layers/attention.py:395-397 | the least number of 512-token partitions that covers the longest context |
| Attention.PartitionOfPosition | vllm/model_executor/layers/attention.py:395-397 | every context position falls in one of those partitions |
| Attention.PagedAttentionKernel | vllm/model_executor/layers/attention.py:405-431 | V1 iff the context is at most 8192 and (one partition or more than 512 sequence-head pairs). Otherwise V2 when 512 is a multiple of the block size, an assertion failure when it is not, and a division by zero for block size 0 |
| Attention.OnePartitionRunsV1 | vllm/model_executor/layers/attention.py:405-406 | a context that fits one partition always runs V1 |
| Attention.LongContextNeverV1 | vllm/model_executor/layers/attention.py:404-406 | a context over 8192 tokens never runs V1 |
| Attention.V2TmpOutputShape | vllm/model_executor/layers/attention.py:427-431 | (num_seqs, num_heads, partitions, head_size), and the partitions cover the context |
| Attention.RelativePositions | vllm/model_executor/layers/attention.py:355-361 | a seq_len square whose entry (i, j) is j - i |
| Attention.RelativePositionsCausal | vllm/model_executor/layers/attention.py:355-361 | zero on the diagonal, antisymmetric, and never positive for keys at or before the query |
| Attention.PaddedLen | vllm/model_executor/layers/attention.py:365 | the least multiple of 8 at or above seq_len |
| Attention.PaddedLenLeast | vllm/model_executor/layers/attention.py:365 | no smaller multiple of 8 covers seq_len |
| Attention.CopyIntoPadded | vllm/model_executor/layers/attention.py:367-374 | the copy fills the first seq_len columns and leaves the padding columns as they were |
| Attention.SliceColumns | vllm/model_executor/layers/attention.py:374 | each row cut to its first seq_len columns |
| Attention.PaddedSliceIsRelativePositions | vllm/model_executor/layers/attention.py:361-374 | slicing the padded buffer after the copy gives exactly the relative-position matrix, whatever the padding holds |
| Attention.AlibiBiasShape | vllm/model_executor/layers/attention.py:367-377 | (batch, heads, seq, seq) when the head counts agree. Otherwise it is unflattened to (batch, kv_heads, heads / kv_heads, seq, seq), a division by zero for 0 kv heads, and needs kv_heads to divide heads |
| Attention.AlibiBias | vllm/model_executor/layers/attention.py:361-375 | zero on the diagonal, and never positive for keys at or before the query when the slope is non-negative |
| Attention.GroupedHeadIndex | vllm/model_executor/layers/attention.py:376-377 | the unflattened index (h / per, h % per) of head h is in range and recomposes h |
| Attention.FlashSingleQueryTokens | vllm/model_executor/layers/attention.py:537-544 | fails on block_size < 32, then on ALiBi slopes, then on more than one query per sequence; otherwise the token count is the batch size |
| Attention.CopyValidRows | vllm/model_executor/layers/attention.py:563-565 | copies the valid rows to the front of the padded output and keeps the padding rows; it fails iff the result has more rows than the output |
| Attention.CopyValidRowsPadding | vllm/model_executor/layers/attention.py:563-565 | a padding row of the output keeps its old value |
| Awq.ValidConfigs | vllm/model_executor/layers/quantization/ops/awq.py:26-40 | a configuration survives pruning iff BLOCK_N is a multiple of the pack factor and the group size a multiple of BLOCK_K; pruning never adds configurations |
| Awq.ConfigValid | vllm/model_executor/layers/quantization/ops/awq.py:32-39 | a configuration is kept iff BLOCK_N is a whole number of packed words and the group size a whole number of BLOCK_K slices |
| Awq.ValidConfigsAppend | vllm/model_executor/layers/quantization/ops/awq.py:32-39 | pruning a concatenation prunes each part and keeps their order |
| Awq.ValidConfigsIdempotent | vllm/model_executor/layers/quantization/ops/awq.py:26-40 | pruning an already pruned list changes nothing |
| Awq.PruneInvalidConfigs | vllm/model_executor/layers/quantization/ops/awq.py:26-40 | the loop returns exactly the valid configurations, in their original order |
| Awq.PackedBlockN | vllm/model_executor/layers/quantization/ops/awq.py:21 | PACKED_BLOCK_N packed words hold at most BLOCK_N columns, and exactly BLOCK_N when the pack factor divides it |
| Awq.EvenK | vllm/model_executor/layers/quantization/ops/awq.py:19-20 | EVEN_K iff the loop's cdiv(K, BLOCK_K * SPLIT_K) steps cover K exactly |
| Awq.AwqBitWidth | vllm/model_executor/layers/quantization/ops/awq.py:94-95 | the pack factor's fields fit in a 32-bit word, and a pack factor of 8 gives 4-bit fields |
| Awq.AwqMatmulChecks | vllm/model_executor/layers/quantization/ops/awq.py:172-202 | NotImplementedError iff the pack factor is not 8, then iff the group size is not 128; success iff also every contiguity, dtype and shape assert holds, and then the output is (M, 8 * PACKED_N) in a's dtype |
| Awq.DocumentedShapesAccepted | vllm/model_executor/layers/quantization/ops/awq.py:160-171 | the shapes and dtypes the docstring documents pass every check and give an (M, N) output |
| Awq.AwqShifter | vllm/model_executor/layers/quantization/ops/awq.py:242-245 | the shifter has one shift per packed field |
| Awq.ShifterValues | vllm/model_executor/layers/quantization/ops/awq.py:242-245 | the shifter is [0, 4, 1, 5, 2, 6, 3, 7] times 4 |
| Awq.ShiftsCoverWord | vllm/model_executor/layers/quantization/ops/awq.py:242-245 | the eight shifts are distinct multiples of 4 below 32, so they pick out the eight 4-bit fields of a word |
| Awq.Unpack | vllm/model_executor/layers/quantization/ops/awq.py:126 | the unpacked weight is the four bits of the word at the shift, shifted back into place |
| Awq.ShifterCache.constructor | vllm/model_executor/layers/quantization/ops/awq.py:234 | the cache starts empty |
| Awq.ShifterCache.GetShifter | vllm/model_executor/layers/quantization/ops/awq.py:237-247 | an AssertionError with the cache unchanged iff the pack factor is not 8; otherwise the shifter values, and afterwards the cache holds exactly that entry |
| Awq.UnpackWord | vllm/model_executor/layers/quantization/ops/awq.py:126 | unpacking a word yields eight weights |
| Awq.UnpackPack | vllm/model_executor/layers/quantization/ops/awq.py:126 | unpacking a word packed in the shifter's order gives back the eight weights |
| Awq.PackUnpack | vllm/model_executor/layers/quantization/ops/awq.py:126 | every 32-bit word is the packing of its unpacked weights, so unpacking loses nothing |
| Awq.KLoadedIffInRange | vllm/model_executor/layers/quantization/ops/awq.py:104-111 | a lane's load happens, under EVEN_K or under the k_remaining mask, iff its reduction row is inside K |
| Awq.KRowCovers | vllm/model_executor/layers/quantization/ops/awq.py:89-137 | every reduction row below K is read by some split program, iteration and lane |
| Awq.KRowUnique | vllm/model_executor/layers/quantization/ops/awq.py:89-137 | no reduction row is read by two (split program, iteration, lane) triples, so the split-K sum counts each row once |
| Awq.KRowAsBlocks | vllm/model_executor/layers/quantization/ops/awq.py:89-137 | the row is lane t of block k * SPLIT_K + pid_z |
| Awq.ReductionGroups | vllm/model_executor/layers/quantization/ops/awq.py:103-123 | the loop runs cdiv(K, BLOCK_K * SPLIT_K) iterations and at each one holds the group it last reloaded |
| Awq.KRow | vllm/model_executor/layers/quantization/ops/awq.py:89-92 | the row a lane reads at iteration k lies in that iteration's BLOCK_K * SPLIT_K step |
| Awq.HeldGroup | vllm/model_executor/layers/quantization/ops/awq.py:113-116 | the group held is group 0 or one whose first row lies inside K |
| Awq.HeldGroupSinceReload | vllm/model_executor/layers/quantization/ops/awq.py:113-123 | when the step divides the group size, the group held at an iteration is the one loaded at the last multiple of group size / step |
| Awq.ReloadIff | vllm/model_executor/layers/quantization/ops/awq.py:113 | the reload test fires iff the iteration is a multiple of group size / step |
| Awq.HeldGroupIsRowGroup | vllm/model_executor/layers/quantization/ops/awq.py:113-123 | when one of the step and the group size divides the other, every row a lane reads is dequantized with that row's own group of scales and zeros |
| Awq.HeldGroupWideStep | vllm/model_executor/layers/quantization/ops/awq.py:113-123 | the same, for a step that is a multiple of the group size |
| Awq.HeldGroupNarrowStep | vllm/model_executor/layers/quantization/ops/awq.py:113-123 | the same, for a group size that is a multiple of the step |
| Awq.TiledShift | vllm/model_executor/layers/quantization/ops/awq.py:97-98 | the tiled shift of a column stays inside the word |
| Awq.KernelZero | vllm/model_executor/layers/quantization/ops/awq.py:118-121 | the zero point of local column j is field j % 8 of the qzeros word of its global column |
| Awq.KernelZeroIsColumnZero | vllm/model_executor/layers/quantization/ops/awq.py:118-121 | with BLOCK_N a multiple of 8, the kernel reads a valid word of qzeros and unpacks exactly the output column's own zero point |
| Awq.ProgramTile | vllm/model_executor/layers/quantization/ops/awq.py:71-80 | the grouped re-ordering maps every program id inside the grid to a tile inside the grid |
| Awq.ProgramTileInjective | vllm/model_executor/layers/quantization/ops/awq.py:71-80 | no two program ids get the same tile |
| Awq.ProgramTileOnto | vllm/model_executor/layers/quantization/ops/awq.py:71-80 | every tile of the grid is taken by some program id |
| Awq.StoreTile | vllm/model_executor/layers/quantization/ops/awq.py:140-148 | the masked write-back stores the accumulator (SPLIT_K 1) or adds it (otherwise) on the tile's cells inside the output, and leaves every other cell unchanged |
| Awq.OutputCellCovered | vllm/model_executor/layers/quantization/ops/awq.py:206-207 | every output cell lies in the tile of some program of the launch grid |
| Awq.Grid | vllm/model_executor/layers/quantization/ops/awq.py:206-207 | the launch grid has the fewest tiles of BLOCK_M rows and BLOCK_N columns that cover the (M, N) output |
| SpecDecode.SplitNumCacheBlocksEvenly | vllm/worker/spec_decode/spec_decode_worker.py:315-335 | ZeroDivisionError iff both block sizes are 0; otherwise at most the target's block count, and the largest count whose two caches together take no more bytes than the target's cache alone |
| SpecDecode.SplitFitsBothModels | vllm/worker/spec_decode/spec_decode_worker.py:326-333 | both models' caches of the split size fit in the target's budget, and one more block each would not |
| SpecDecode.ProfileNumAvailableBlocks | vllm/worker/spec_decode/spec_decode_worker.py:66-83 | an error iff both block sizes are 0; otherwise the GPU count never grows and the CPU count passes through unchanged |
| SpecDecode.VocabSize | vllm/worker/spec_decode/spec_decode_worker.py:294-304 | succeeds iff the draft and target vocabularies agree, and then it is that shared size |
| SpecDecode.IndicesWhere | vllm/worker/spec_decode/spec_decode_worker.py:211-220 | every index listed is a group of the batch of the requested kind (proposal length non-zero or zero) |
| SpecDecode.IndicesWhereComplete | vllm/worker/spec_decode/spec_decode_worker.py:211-220 | every group of the requested kind is listed, and the list is strictly increasing |
| SpecDecode.SpecIndices | vllm/worker/spec_decode/spec_decode_worker.py:211-215 | every listed index is a group of the batch with a non-zero proposal length |
| SpecDecode.NonSpecIndices | vllm/worker/spec_decode/spec_decode_worker.py:216-220 | every listed index is a group of the batch with a zero proposal length |
| SpecDecode.OriginalIndices | vllm/worker/spec_decode/spec_decode_worker.py:221 | one index per group, each a position of the batch |
| SpecDecode.IndicesPartition | vllm/worker/spec_decode/spec_decode_worker.py:211-221 | each group is in exactly one of spec_indices and non_spec_indices, and together they have the batch's size |
| SpecDecode.OriginalIndicesPermutation | vllm/worker/spec_decode/spec_decode_worker.py:221 | original_indices is a permutation of the batch positions |
| SpecDecode.IndicesPrefix | vllm/worker/spec_decode/spec_decode_worker.py:211-220 | the indices found in a prefix of the batch are a prefix of those found in the whole batch |
| SpecDecode.RankIsPosition | vllm/worker/spec_decode/spec_decode_worker.py:221-244 | a group appears in its kind's index list exactly once, at its rank |
| SpecDecode.NonSpecRow | vllm/worker/spec_decode/spec_decode_worker.py:236-238 | a non-speculated group's row has width k + 1: its scored token followed by k padding tokens -1 |
| SpecDecode.VerifyTokens | vllm/worker/spec_decode/spec_decode_worker.py:203-246 | the result has one row per group, in batch order: the rejection sampler's row for a speculated group and the padded row for any other |
| SpecDecode.Scatter | vllm/worker/spec_decode/spec_decode_worker.py:244 | the indexed assignment puts old row j at position original_indices[j] |
| SpecDecode.PlacedRows | vllm/worker/spec_decode/spec_decode_worker.py:239-244 | scattering the concatenated rows by original_indices puts each group's own row at its position |
| SpecDecode.Transpose | vllm/worker/spec_decode/spec_decode_worker.py:262-263 | the steps view has k + 1 rows of batch size, and step s of group i is token s of row i |
| SpecDecode.StepOutput | vllm/worker/spec_decode/spec_decode_worker.py:269-284 | one output per pair of token and sequence id, as many as the shorter of the two lists, each carrying that sequence id, that token and the log-probability 0 for that token |
| SpecDecode.OutputList | vllm/worker/spec_decode/spec_decode_worker.py:264-284 | at most one output per step |
| SpecDecode.OutputListSteps | vllm/worker/spec_decode/spec_decode_worker.py:264-284 | every output is the step output of a step that is not all padding, and the list stops only at an all-padding step or at the end |
| SpecDecode.OutputListStopsAtPadding | vllm/worker/spec_decode/spec_decode_worker.py:266-267 | nothing after the first all-padding step produces output |
| SpecDecode.CreateOutputSamplerList | vllm/worker/spec_decode/spec_decode_worker.py:248-292 | the outputs are the step outputs of the transposed rows up to the first all-padding step, at most k + 1 of them |
| SpecDecode.OutputsOfSteps | vllm/worker/spec_decode/spec_decode_worker.py:265-284 | the outer loop computes the output list of its steps |
| SpecDecode.CreateStepOutput | vllm/worker/spec_decode/spec_decode_worker.py:269-284 | the inner loop computes the step output of its tokens |
| SpecDecode.ExpectedRows | vllm/worker/spec_decode/spec_decode_worker.py:203-246 | one row per group, each of width k + 1 when the sampler's rows have that width |
| SpecDecode.ExpectedRowWidths | vllm/worker/spec_decode/spec_decode_worker.py:236-244 | every group's row has width k + 1 when the sampler's rows do |
| SpecDecode.NonSpecTokenOnlyFirst | vllm/worker/spec_decode/spec_decode_worker.py:236-238 | a group without a proposal contributes only its scored token; every later step is padding |
| SpecDecode.ExecuteModel | vllm/worker/spec_decode/spec_decode_worker.py:98-200 | without speculative tokens or without groups, the single output of the no-spec run; otherwise the output list of the groups' rows in batch order |
| WeightUtils.ToMap | vllm/model_executor/weight_utils.py:52-54 | the loaded state dict has at most one entry per tensor |
| WeightUtils.ToMapKeys | vllm/model_executor/weight_utils.py:52-54 | a name is a key of the state dict iff some loaded tensor has it |
| WeightUtils.ToMapAt | vllm/model_executor/weight_utils.py:52-54 | with distinct names, each tensor's name maps to its own data pointer |
| WeightUtils.NamesAt | vllm/model_executor/weight_utils.py:38-40 | the names collected for a pointer are among the tensors' names |
| WeightUtils.NamesAtIff | vllm/model_executor/weight_utils.py:38-40 | a name is collected under a pointer iff its tensor has that data pointer |
| WeightUtils.NamesAtNoDup | vllm/model_executor/weight_utils.py:38-40 | no name is collected twice under a pointer |
| WeightUtils.Ptrs | vllm/model_executor/weight_utils.py:38-42 | the dictionary has at most one key per tensor |
| WeightUtils.PtrsFacts | vllm/model_executor/weight_utils.py:38-42 | each pointer is a key once, and a pointer is a key iff some name is collected under it |
| WeightUtils.GroupsOf | vllm/model_executor/weight_utils.py:41-45 | every failing group has at least two names |
| WeightUtils.GroupsOfIff | vllm/model_executor/weight_utils.py:41-45 | a group is reported iff it is the names of one pointer and has more than one name |
| WeightUtils.SharedPointers | vllm/model_executor/weight_utils.py:37-45 | the two loops return exactly the groups of names sharing one data pointer, in first-seen pointer order |
| WeightUtils.SharedGroups | vllm/model_executor/weight_utils.py:37-45 | at most one reported group per tensor, each with at least two names |
| WeightUtils.PointerLists | vllm/model_executor/weight_utils.py:38-40 | the defaultdict holds exactly the pointers seen, in insertion order, each with its tensor names in order |
| WeightUtils.SharedGroupsShare | vllm/model_executor/weight_utils.py:37-45 | a reported group has at least two distinct names, all with the same data pointer |
| WeightUtils.SharedTensorsReported | vllm/model_executor/weight_utils.py:37-45 | any two tensors with the same data pointer are reported in one group |
| WeightUtils.Pop | vllm/model_executor/weight_utils.py:58 | KeyError iff the name is missing; otherwise the dict without that name |
| WeightUtils.PopAll | vllm/model_executor/weight_utils.py:56-58 | the only error of a run of pops is KeyError |
| WeightUtils.PopAllErrSticks | vllm/model_executor/weight_utils.py:56-58 | once a pop fails, the whole run fails with KeyError |
| WeightUtils.TailsPrefix | vllm/model_executor/weight_utils.py:56-57 | the names popped for the first groups come first |
| WeightUtils.DropSharedNames | vllm/model_executor/weight_utils.py:56-58 | the nested loop pops every name after the first of each group, in order, and fails as the first failing pop |
| WeightUtils.PopAllDistinct | vllm/model_executor/weight_utils.py:56-58 | popping distinct present names succeeds and removes exactly those names |
| WeightUtils.TailsIff | vllm/model_executor/weight_utils.py:57 | a name is popped iff it is in some group after its first name |
| WeightUtils.SharedTailsDistinct | vllm/model_executor/weight_utils.py:41-58 | the popped names are distinct and are keys of the state dict |
| WeightUtils.ConvertKeepsFirstNames | vllm/model_executor/weight_utils.py:52-58 | the pops never raise, and what is left is exactly, for each data pointer, the first name that had it, with its tensor |
| WeightUtils.PoppedIffNotFirst | vllm/model_executor/weight_utils.py:52-58 | a name is popped iff it is not the first name of its data pointer |
| WeightUtils.PoppedNotFirst | vllm/model_executor/weight_utils.py:56-58 | a popped name is never the first of its pointer |
| WeightUtils.PoppedFromOwnGroup | vllm/model_executor/weight_utils.py:56-58 | a popped name is in the tail of its own pointer's group |
| WeightUtils.NotFirstPopped | vllm/model_executor/weight_utils.py:56-58 | a name that is not first for its pointer is popped |
| WeightUtils.ConvertedHasNoSharedPointers | vllm/model_executor/weight_utils.py:52-58 | after the pops, no two names share a data pointer, and every tensor's pointer is still present under its first name |
| WeightUtils.MatchingNames | vllm/model_executor/weight_utils.py:159-177 | filtering never adds names |
| WeightUtils.MatchingNamesIff | vllm/model_executor/weight_utils.py:159-177 | a name is kept iff it is listed, matches the pattern and, for the folder's glob, is not hidden |
| WeightUtils.AllowPatterns | vllm/model_executor/weight_utils.py:135-150 | ValueError iff the load format is not one of the four; otherwise a non-empty list of patterns that uses safetensors iff the format is safetensors, allows `*.pt` iff falling back or the format is pt, and allows `*.safetensors` iff the format is auto or safetensors |
| WeightUtils.FirstMatching | vllm/model_executor/weight_utils.py:158-181 | the pattern found is the first one with a matching file; when none is found, no pattern matches |
| WeightUtils.NarrowPatterns | vllm/model_executor/weight_utils.py:158-162 | the patterns become the first one with a remote file, or stay as they are when none has any |
| WeightUtils.FirstMatchingIs | vllm/model_executor/weight_utils.py:158-181 | the first pattern with matches is the one found |
| WeightUtils.CollectWeightFiles | vllm/model_executor/weight_utils.py:175-181 | the files are those of the first pattern with matches in the folder, and safetensors are picked iff that pattern is `*.safetensors`; when none matches, no files and no safetensors |
| WeightUtils.DropBlacklisted | vllm/model_executor/weight_utils.py:182-195 | a file is kept iff it was there and does not end with a training-only name |
| WeightUtils.PrepareHfModelWeights | vllm/model_executor/weight_utils.py:126-201 | returns the files and format that the pattern selection, the folder match and the blacklist settle on; the format error, or the RuntimeError when no files are left |
| WeightUtils.PreparedWeights | vllm/model_executor/weight_utils.py:126-201 | a successful selection is a non-empty list of no more files than the folder holds |
| WeightUtils.PreparedWeightsSound | vllm/model_executor/weight_utils.py:175-201 | the returned files are non-empty, are in the folder and match an allowed pattern, and are not training-only unless safetensors are used |
| WeightUtils.SafetensorsFormatLoadsSafetensors | vllm/model_executor/weight_utils.py:139-181 | the safetensors format reports safetensors, and its files end in `.safetensors`, or in `.pt` when falling back |
| WeightUtils.Range | vllm/model_executor/weight_utils.py:298-306 | the ranks or layers below n, n of them |
| WeightUtils.KvCacheScales | vllm/model_executor/weight_utils.py:265-322 | tp_rank's scales, covering exactly the layers below num_hidden_layers, when every check passes; no scales (so 1.0 is used) when any check fails |
| WeightUtils.ValidScalesCoverEveryRank | vllm/model_executor/weight_utils.py:290-309 | for a map that passes the checks for rank 0, any rank below tp_size passes iff its map has every layer, and then it gets num_hidden_layers scales, otherwise none |
| WeightUtils.DefaultWeightLoader | vllm/model_executor/weight_utils.py:340-344 | succeeds iff the sizes agree, and then the parameter holds the loaded weight; on the AssertionError the parameter is unchanged |
| Arith.CeilDiv | vllm/model_executor/layers/quantization/ops/awq.py:73-74 | the least count of whole blocks that covers the dividend, zero exactly for an empty dividend |

## Left out

- Floating point. Rotary embedding values, softmax scales, ALiBi slopes and dequantized weights are exact `real`s, or they are not modelled. Rounding, half precision and NaN are outside the model.
- Parallel execution. The SYCL work-items of the rotary kernel and the Triton programs of the AWQ kernel run one after another in the model. The proofs show that their writes do not overlap (`RotaryEmbedding.SlotInjective`, `Awq.ProgramTileInjective`, `Awq.KRowUnique`). The same holds for the split-K `tl.atomic_add`, which is an ordinary addition in `Awq.StoreTile`.
- Device, stream, tensor storage and I/O calls are inputs or are left out. This covers `torch.load`, `glob`, `HfFileSystem`, `snapshot_download`, file locks, JSON parsing, logging and timing.
- `vllm/sequence.py` is not part of this model. `Sequences` keeps only the fields the block managers and the scheduler read.
- Evictor.MakeEvictor: the unknown-policy ValueError cannot arise, because `EvictionPolicy` has only `LRU`.
- The per-device block allocator class that `vllm/core/block/block_space_manager.py` instantiates is not part of this model. `BlockPools` models it from its call sites as an uncached pool with reference counts.
- BlockSpaceManagerV1.BlockSpaceManager: the CPU allocator and the block tables are modelled as fields, as the manager's other methods use them. In the source their initialisation at lines 220-229 is commented out.
- BlockSpaceManagerV1.BlockSpaceManager: the prefix-caching hash, `promote`, `_maybe_promote_last_block`, `update_hash` and the prefix-pool calls are not modelled, and neither is the `new_block.ref_count == 1` assert at line 341. The model's allocator is uncached, so the assert always holds.
- BlockManagerV2.BlockSpaceManagerV2: `BlockTable` and `CpuGpuBlockAllocator` are not part of this model. Free-block counts and new block ids are inputs.
- BlockManagerV2.BlockSpaceManagerV2: `access_all_blocks_in_seq` is a no-op and is not modelled.
- BlockManagerV2.BlockSpaceManagerV2: `mark_blocks_as_computed`, `get_common_computed_block_ids` and `get_num_free_gpu_blocks`/`get_num_free_cpu_blocks` only delegate to the allocator, which is outside the model.
- Scheduler.Scheduler: the clock (`time.monotonic`) and the scheduling policy's ordering are parameters.
- Scheduler.Scheduler: logging, the prefix pool (`free_old_prefixes`) and the metadata list that `schedule()` builds at `vllm/core/scheduler.py:379-405` are not modelled.
- Scheduler.Scheduler: `fork_seq` and `free_seq` only delegate to the block manager and have no model of their own.
- NaiveBlockAllocation.NaiveBlockAllocator.Fork: the invariant is promised only when fork succeeds. After an AssertionError the counts are exactly those of the partial run, and a freed id can be left at count 1 in the free set (see Findings).
- BlockSpaceManagerV1.BlockSpaceManager.Fork: validity is promised only when every block of the parent's table is held. For a table holding a freed block the counts are stated exactly, and the allocators end invalid (see Findings).
- BlockSpaceManagerV1.BlockSpaceManager.SwapIn: requires every swapped sequence's table to lie on the CPU. The source does not check this, and a table with GPU blocks would be freed through the wrong allocator. That case is not modelled.
- BlockSpaceManagerV1.BlockSpaceManager.SwapOut: requires every running sequence's table to lie on the GPU, for the same reason. That case is not modelled.
- BlockSpaceManagerV1.BlockSpaceManager.Create: requires block_size > 0. The source builds a manager with block size 0 and raises ZeroDivisionError only when a sliding window is given. A manager with block size 0 is not modelled.
- BlockSpaceManagerV1.CommonPrefix: for no lists at all the model gives [], where `os.path.commonprefix([])` returns the empty string ''. Both are empty and the caller only takes their length or elements.
- Scheduler.Scheduler.Schedule: on an AssertionError or RuntimeError the model returns the error and leaves the queues as they were. The source raises partway through, with the queues partly updated.
- RotaryEmbedding.LaunchRotaryKernel: with no rotary pairs (`num_heads * rot_dim / 2` is 0) the work-group has no work-items, and the model changes nothing. SYCL refuses an ND-range with an empty work-group at run time, and that error is not modelled.
- RotaryEmbedding: `cos_sin_cache` is a flat sequence of reals and positions are unbounded integers. The kernel's `int64_t` and `scalar_t` widths are not modelled.
- Attention: the attention kernels, the softmax and the `xformers` path compute floating-point values and are not modelled. Only their shape and dispatch logic is.
- Attention: the scale is a real, the ALiBi slopes' values are not modelled (only the bias shapes are), and `is_hip`, `use_ref_attention` and prefix prefill (`context_attention_fwd`) are not modelled.
- Attention.CopyValidRows: a ShapeMismatch error whenever the source has more rows than the output. `copy_` would instead broadcast a one-row source into a zero-row slice; that case is not modelled.
- Attention.NewPagedAttention: `HeadSizeNotSupported` stands for the ValueError about an unsupported head size.
- Awq: `early_config_prune`, the performance model and `triton.next_power_of_2` (PADDED_M) are not part of this model. `tl.view`, `tl.dot` and the floating-point dequantization `s * (b - z)` are left out too.
- Awq: block sizes and split counts are positive integers (`Pos`), as every autotuner configuration has them.
- Awq.ShifterCache.GetShifter: the tensor's device (`"cuda"`) and dtype are not modelled.
- Awq.HeldGroupIsRowGroup: proved only when one of BLOCK_K * SPLIT_K and the group size divides the other. That always holds for power-of-two block sizes and split counts. For other sizes the source's reload test can hold a stale group, and the model does not claim otherwise.
- SpecDecode: the draft and target workers, the scorer and the rejection sampler are inputs: their outputs are parameters. `get_all_seq_ids` is an input too, and so are the metrics collection and the clearing of the probs tensors.
- SpecDecode.SplitNumCacheBlocksEvenly: the source divides in floating point and truncates. The model uses the exact floored quotient, which differs only where the float quotient rounds across an integer.
- SpecDecode.ExecuteModel: `num_spec_tokens` is a `nat`. `zip`'s truncation to the shorter of tokens and sequence ids is modelled in `SpecDecode.StepOutput`.
- WeightUtils: downloads, file locks, `torch.load` and the `state_dict` unwrap, file writing and the size and reload checks after conversion are not modelled. Neither are `hf_model_weights_iterator` and `initialize_dummy_weights`.
- WeightUtils.MatchingNames: `fnmatch` and `glob` are modelled only for the `*suffix` patterns the loader uses. Glob's file order is taken as the folder's listing order, and the folder path prefix is dropped.
- WeightUtils.KvCacheScales: the JSON is taken as already parsed into integer ranks and layers. The string-key fallback (`str(tp_rank)`) and non-numeric keys are not modelled, and every parse or check failure returns the empty result.

## Findings

| source | as written | input that shows it | evidently intended | confidence | as-written member | corrected member |
|---|---|---|---|---|---|---|
| csrc/pos_encoding_kernels.dp.cpp:130,155 | both branches of `if (is_neox)` launch `rotary_embedding_kernel<scalar_t, true>`, so GPT-J style rotation is never applied | `is_neox` false, one head `[1, 0, 0, 0]` with `rot_dim` 4, cos `[0, 0]`, sin `[1, 1]`: the NeoX pairing gives `[0, 0, 1, 0]` where GPT-J gives `[0, 1, 0, 0]` | the `else` branch launches the `<scalar_t, false>` kernel, as the commented-out launch at line 193 does | not executed | `RotaryEmbedding.RotaryEmbeddingAsWritten`, `RotaryEmbedding.NeoxAndGptjDiffer` | `RotaryEmbedding.RotaryEmbedding` |
| vllm/core/block/naive_block.py:58-62 | fork increments each block's count and only then asserts `refcount != 1`, so an AssertionError leaves the increments made so far | the allocator's only block is freed (count 0, free) and a chain still holds it: fork raises, and the id is left at count 1 while still on the free list, so the next allocation hands out a block that is in use | the chain is checked before any count changes, and a freed block is refused with the allocator untouched | not executed | `NaiveBlockAllocation.NaiveBlockAllocator.Fork`, `NaiveBlockAllocation.ForkFreedBlock` | `NaiveBlockAllocation.NaiveBlockAllocator.ForkChecked` |
| vllm/core/block/block_space_manager.py:273-276 | allocate gives every waiting sequence a copy of one prompt table, but each block keeps the count 1 it was allocated with | a group with two WAITING sequences and a one-block prompt: freeing the first sequence returns the block to the free list while the second sequence's table still lists it | each block's count is set to the number of sequences sharing the table (`block.ref_count = seq_group.num_seqs()`), so only the last free returns it | not executed | `BlockSpaceManagerV1.BlockSpaceManager.Allocate`, `BlockSpaceManagerV1.SiblingFreeFreesSharedTable` | `BlockSpaceManagerV1.BlockSpaceManager.AllocateCounted`, `BlockSpaceManagerV1.SharedTableFreesLast` |
