/**
 * BlockSpaceManager of vllm/core/block/block_space_manager.py: the map from sequence ids to
 * block tables (lists of physical blocks), the GPU and CPU allocators behind it, and the
 * watermark admission rule, sliding-window reuse, copy-on-write append, fork, swap, free and
 * computed-prefix queries built on them.  A physical block is its device and number
 * (BlockPools.PhysicalBlock); its `ref_count` lives in the allocator of its device and its
 * `computed` flag and `last_accessed` time in the manager.
 */
module BlockSpaceManagerV1 {
  import opened Wrappers
  import opened Sequences
  import opened BlockPools

  /** AllocStatus: admit now, admit later, or never. */
  datatype AllocStatus = OK | LATER | NEVER

  /**
   * The watermark rule of can_allocate: NEVER when even an empty GPU would leave fewer than
   * the watermark free, else OK when the free blocks would, else LATER.
   */
  function AllocDecision(numTotal: int, numFree: int, numRequired: int, watermarkBlocks: int): (s: AllocStatus)
    ensures s != NEVER ==> numRequired + watermarkBlocks <= numTotal
    ensures s == OK && watermarkBlocks >= 0 ==> numRequired <= numFree
  {
    if numTotal - numRequired < watermarkBlocks then NEVER
    else if numFree - numRequired >= watermarkBlocks then OK
    else LATER
  }

  /**
   * With no more free blocks than blocks in all: OK exactly when the request leaves the
   * watermark free; NEVER does not depend on the free count; a LATER request would be
   * admitted with every block free; an admitted request fits in the free blocks.
   */
  lemma AllocDecisionMeaning(numTotal: int, numFree: int, numRequired: int, watermarkBlocks: int)
    requires numFree <= numTotal
    ensures AllocDecision(numTotal, numFree, numRequired, watermarkBlocks) == OK <==>
      numFree - numRequired >= watermarkBlocks
    ensures forall free' :: AllocDecision(numTotal, free', numRequired, watermarkBlocks) == NEVER <==>
      AllocDecision(numTotal, numFree, numRequired, watermarkBlocks) == NEVER
    ensures AllocDecision(numTotal, numFree, numRequired, watermarkBlocks) == LATER ==>
      AllocDecision(numTotal, numTotal, numRequired, watermarkBlocks) == OK
    ensures AllocDecision(numTotal, numFree, numRequired, watermarkBlocks) == OK && watermarkBlocks >= 0 ==>
      numRequired <= numFree
  {
  }

  /** `int(watermark * num_gpu_blocks)` for a non-negative watermark: truncation toward zero. */
  function WatermarkBlocks(watermark: real, numGpuBlocks: nat): (r: nat)
    requires watermark >= 0.0
    ensures r as real <= watermark * numGpuBlocks as real < r as real + 1.0
  {
    (watermark * numGpuBlocks as real).Floor
  }

  /** The blocks a prompt of n logical blocks allocates: n, capped at the window when there is one. */
  function NumFresh(n: nat, window: Option<nat>): (k: nat)
    ensures k <= n && (window.Some? ==> k <= window.value)
    ensures k == n || (window.Some? && k == window.value)
  {
    if window.Some? && window.value < n then window.value else n
  }

  /** The table entry that logical block i uses: itself, or i % window at or past the window. */
  function Slot(i: nat, window: Option<nat>): nat
    requires window.Some? && i >= window.value ==> window.value > 0
  {
    if window.Some? && i >= window.value then i % window.value else i
  }

  /**
   * The table allocate builds for a prompt of n logical blocks when the GPU free list is
   * `free`: fresh blocks come off the end of the list, one per slot.
   */
  ghost function PromptTable(free: seq<nat>, n: nat, window: Option<nat>): (t: seq<PhysicalBlock>)
    requires NumFresh(n, window) <= |free|
    requires n == 0 || window != Some(0)
    ensures |t| == n
    ensures forall i :: 0 <= i < n ==> t[i].device == GPU && t[i].blockNumber in free
  {
    seq(n, i requires 0 <= i < n => PhysicalBlock(GPU, free[|free| - 1 - Slot(i, window)]))
  }

  /**
   * The prompt table's shape: entries past the window repeat entry i % window, and the
   * first NumFresh(n, window) entries are distinct blocks taken from the free list.
   */
  lemma PromptTableShape(free: seq<nat>, n: nat, window: Option<nat>)
    requires NumFresh(n, window) <= |free| && NoDuplicates(free)
    requires n == 0 || window != Some(0)
    ensures var t := PromptTable(free, n, window);
      (forall i :: 0 <= i < n && window.Some? && i >= window.value ==> t[i] == t[i % window.value]) &&
      (forall i, j :: 0 <= i < j < NumFresh(n, window) ==> t[i] != t[j])
  {
    var t := PromptTable(free, n, window);
    forall i, j | 0 <= i < j < NumFresh(n, window)
      ensures t[i] != t[j]
    {
      assert Slot(i, window) == i && Slot(j, window) == j;
    }
  }

  /** A device allocator after k allocations. */
  ghost function AllocateN(pool: DevicePool, k: nat): (r: DevicePool)
    requires k <= |pool.free|
    ensures r.free == pool.free[..|pool.free| - k]
    decreases k
  {
    if k == 0 then pool
    else Allocate(AllocateN(pool, k - 1)).value.1
  }

  /** k allocations keep the allocator valid. */
  lemma {:induction false} AllocateNValid(pool: DevicePool, k: nat, n: nat)
    requires DeviceValid(pool, n) && k <= |pool.free|
    ensures DeviceValid(AllocateN(pool, k), n)
    decreases k
  {
    if k > 0 {
      AllocateNValid(pool, k - 1, n);
      AllocateKeepsDeviceValid(AllocateN(pool, k - 1), n);
    }
  }

  /** After k allocations the last k free blocks are at count 1; every other count is unchanged. */
  lemma {:induction false} AllocateNCount(pool: DevicePool, k: nat, n: nat, i: nat)
    requires DeviceValid(pool, n) && k <= |pool.free| && i in pool.refCount
    ensures i in AllocateN(pool, k).refCount
    ensures AllocateN(pool, k).refCount[i] == if i in pool.free[|pool.free| - k..] then 1 else pool.refCount[i]
    decreases k
  {
    if k > 0 {
      AllocateNCount(pool, k - 1, n, i);
      var free := pool.free;
      var j := |free| - k;
      assert free[j..] == [free[j]] + free[j + 1..];
      assert AllocateN(pool, k - 1).free[|free| - k] == free[j];
    }
  }

  /** One more logical block extends the prompt table by that block's entry. */
  lemma PromptTableSnoc(free: seq<nat>, n: nat, window: Option<nat>)
    requires NumFresh(n + 1, window) <= |free|
    requires window != Some(0)
    ensures PromptTable(free, n + 1, window) ==
      PromptTable(free, n, window) + [PhysicalBlock(GPU, free[|free| - 1 - Slot(n, window)])]
  {
  }

  /** A logical block past the window reuses the entry of its slot. */
  lemma PromptReuse(free: seq<nat>, idx: nat, window: Option<nat>)
    requires window.Some? && 0 < window.value <= idx
    requires NumFresh(idx, window) <= |free|
    ensures NumFresh(idx + 1, window) == NumFresh(idx, window)
    ensures PromptTable(free, idx, window)[idx % window.value] ==
      PhysicalBlock(GPU, free[|free| - 1 - Slot(idx, window)])
  {
  }

  /** A logical block before the window takes the next block off the free list. */
  lemma PromptFresh(pool: DevicePool, idx: nat, window: Option<nat>)
    requires !(window.Some? && idx >= window.value)
    requires idx < |pool.free|
    ensures NumFresh(idx, window) == idx && NumFresh(idx + 1, window) == idx + 1 && Slot(idx, window) == idx
    ensures AllocateN(pool, idx + 1) == BlockPools.Allocate(AllocateN(pool, idx)).value.1
    ensures BlockPools.Allocate(AllocateN(pool, idx)).value.0 == pool.free[|pool.free| - 1 - idx]
  {
  }

  /** The GPU allocator after k allocations, with the CPU one untouched, is valid and manages the same blocks. */
  lemma AllocatedPoolsValid(p: Pools, k: nat, numGpu: nat, numCpu: nat)
    requires PoolsValid(p, numGpu, numCpu) && k <= |p.gpu.free|
    ensures PoolsValid(p.(gpu := AllocateN(p.gpu, k)), numGpu, numCpu)
    ensures forall b :: p.Known(b) <==> p.(gpu := AllocateN(p.gpu, k)).Known(b)
  {
    AllocateNValid(p.gpu, k, numGpu);
    KnownAllStable(p, p.(gpu := AllocateN(p.gpu, k)), numGpu, numCpu);
  }

  /** Every block of every table is a managed block. */
  ghost predicate TablesKnown(tables: map<int, seq<PhysicalBlock>>, p: Pools)
  {
    forall id, k :: id in tables && 0 <= k < |tables[id]| ==> p.Known(tables[id][k])
  }

  /** The state of allocate's loop after idx logical blocks, starting from allocators `pools`. */
  ghost predicate Building(pools: Pools, w: Option<nat>, idx: nat, table: seq<PhysicalBlock>, p: Pools)
  {
    (w == Some(0) ==> idx == 0) &&
    NumFresh(idx, w) <= |pools.gpu.free| &&
    p == pools.(gpu := AllocateN(pools.gpu, NumFresh(idx, w))) &&
    table == PromptTable(pools.gpu.free, idx, w)
  }

  lemma ReuseStep(pools: Pools, w: Option<nat>, idx: nat, table: seq<PhysicalBlock>, p: Pools)
    requires Building(pools, w, idx, table, p) && w.Some? && 0 < w.value <= idx
    ensures idx % w.value < |table| && Building(pools, w, idx + 1, table + [table[idx % w.value]], p)
  {
    PromptReuse(pools.gpu.free, idx, w);
    PromptTableSnoc(pools.gpu.free, idx, w);
  }

  lemma FreshStep(pools: Pools, w: Option<nat>, idx: nat, table: seq<PhysicalBlock>, p: Pools)
    requires Building(pools, w, idx, table, p) && !(w.Some? && idx >= w.value)
    ensures AllocateOn(p, GPU).Err? ==> NumFresh(idx + 1, w) > |pools.gpu.free| && AllocateOn(p, GPU).error == ValueError
    ensures AllocateOn(p, GPU).Ok? ==>
      Building(pools, w, idx + 1, table + [AllocateOn(p, GPU).value.0], AllocateOn(p, GPU).value.1)
  {
    if AllocateOn(p, GPU).Ok? {
      PromptFresh(pools.gpu, idx, w);
      PromptTableSnoc(pools.gpu.free, idx, w);
    }
  }

  /**
   * The loop of allocate over a pair of allocators: entries at or past the window reuse
   * entry idx % window, the others take a fresh GPU block; the allocators come back as the
   * loop left them, also when it stops at an error.
   */
  method BuildTable(pools: Pools, n: nat, w: Option<nat>) returns (r: Result<seq<PhysicalBlock>, ManagerError>, p: Pools)
    ensures |p.gpu.free| <= |pools.gpu.free| && p == pools.(gpu := AllocateN(pools.gpu, |pools.gpu.free| - |p.gpu.free|))
    ensures n > 0 && w == Some(0) ==> r == Err(ZeroDivisionError) && p == pools
    ensures NumFresh(n, w) > |pools.gpu.free| ==> r == Err(ValueError)
    ensures NumFresh(n, w) <= |pools.gpu.free| && (n == 0 || w != Some(0)) ==>
      r == Ok(PromptTable(pools.gpu.free, n, w)) && p == pools.(gpu := AllocateN(pools.gpu, NumFresh(n, w)))
  {
    var stop, table, idx;
    stop, table, p, idx := BuildLoop(pools, n, w);
    r := if stop.Some? then Err(stop.value) else Ok(table);
    BuildOutcome(pools, n, w, stop, table, p, idx, r);
  }

  /** The loop itself: it stops at the first error, or after n logical blocks. */
  method BuildLoop(pools: Pools, n: nat, w: Option<nat>)
    returns (stop: Option<ManagerError>, table: seq<PhysicalBlock>, p: Pools, idx: nat)
    ensures idx <= n && Building(pools, w, idx, table, p)
    ensures stop.None? ==> idx == n
    ensures stop == Some(ZeroDivisionError) ==> w == Some(0) && idx < n
    ensures stop.Some? && stop != Some(ZeroDivisionError) ==>
      stop == Some(ValueError) && idx < n && NumFresh(idx + 1, w) > |pools.gpu.free|
  {
    p := pools;
    table := [];
    idx := 0;
    while idx < n
      invariant idx <= n && Building(pools, w, idx, table, p)
    {
      if w.Some? && idx >= w.value {
        if w.value == 0 {
          return Some(ZeroDivisionError), table, p, idx;
        }
        ReuseStep(pools, w, idx, table, p);
        table := table + [table[idx % w.value]];
      } else {
        var a := AllocateOn(p, GPU);
        FreshStep(pools, w, idx, table, p);
        if a.Err? {
          return Some(a.error), table, p, idx;
        }
        table := table + [a.value.0];
        p := a.value.1;
      }
      idx := idx + 1;
    }
    return None, table, p, idx;
  }

  /** How the loop's stopping point gives allocate's result and allocators. */
  lemma BuildOutcome(pools: Pools, n: nat, w: Option<nat>, stop: Option<ManagerError>, table: seq<PhysicalBlock>,
                     p: Pools, idx: nat, r: Result<seq<PhysicalBlock>, ManagerError>)
    requires idx <= n && Building(pools, w, idx, table, p)
    requires stop.None? ==> idx == n
    requires stop == Some(ZeroDivisionError) ==> w == Some(0) && idx < n
    requires stop.Some? && stop != Some(ZeroDivisionError) ==>
      stop == Some(ValueError) && idx < n && NumFresh(idx + 1, w) > |pools.gpu.free|
    requires r == if stop.Some? then Err(stop.value) else Ok(table)
    ensures |p.gpu.free| <= |pools.gpu.free| && p == pools.(gpu := AllocateN(pools.gpu, |pools.gpu.free| - |p.gpu.free|))
    ensures n > 0 && w == Some(0) ==> r == Err(ZeroDivisionError) && p == pools
    ensures NumFresh(n, w) > |pools.gpu.free| ==> r == Err(ValueError)
    ensures NumFresh(n, w) <= |pools.gpu.free| && (n == 0 || w != Some(0)) ==>
      r == Ok(PromptTable(pools.gpu.free, n, w)) && p == pools.(gpu := AllocateN(pools.gpu, NumFresh(n, w)))
  {
    if w == Some(0) && n > 0 {
      assert pools.(gpu := pools.gpu) == pools;
    }
  }

  /** What append_slot leaves behind: its result, the sequence's table and the allocators. */
  datatype SlotOutcome = SlotOutcome(result: Result<Option<(nat, nat)>, ManagerError>, table: seq<PhysicalBlock>, pools: Pools)

  /** Whether a new logical block reuses an entry: a window is set (0 counts as unset) and the table has reached it. */
  predicate ReusesEntry(table: seq<PhysicalBlock>, w: Option<nat>)
  {
    w.Some? && w.value != 0 && |table| >= w.value
  }

  /** The table append_slot checks the last block of: grown by the reused entry when a new logical block reuses one. */
  function Extended(table: seq<PhysicalBlock>, numLogical: nat, w: Option<nat>): seq<PhysicalBlock>
  {
    if |table| < numLogical && |table| == numLogical - 1 && ReusesEntry(table, w)
    then table + [table[|table| % w.value]]
    else table
  }

  /**
   * The second half of append_slot: IndexError for an empty table, an assertion failure
   * for a last block off the GPU, nothing to do when the last block has one reference, and
   * otherwise copy-on-write: a new GPU block replaces the last entry and the old one is freed.
   */
  function LastBlockStep(p: Pools, t: seq<PhysicalBlock>): SlotOutcome
  {
    if t == [] then SlotOutcome(Err(IndexError), t, p)
    else
      var last := t[|t| - 1];
      if last.device != GPU then SlotOutcome(Err(AssertionError), t, p)
      else if p.Known(last) && p.Count(last) == 1 then SlotOutcome(Ok(None), t, p)
      else match AllocateOn(p, GPU)
        case Err(e) => SlotOutcome(Err(e), t, p)
        case Ok((b, p1)) =>
          var t' := t[|t| - 1 := b];
          match FreeBlock(p1, last)
          case Err(e) => SlotOutcome(Err(e), t', p1)
          case Ok(p2) => SlotOutcome(Ok(Some((last.blockNumber, b.blockNumber))), t', p2)
  }

  /**
   * append_slot on a table for a sequence of numLogical logical blocks: a table more than
   * one block short is an assertion failure; one block short, it gets the reused entry or a
   * new GPU block (and returns None at once in the latter case); then the last block is
   * checked as LastBlockStep says.
   */
  function AppendSlotStep(p: Pools, t: seq<PhysicalBlock>, numLogical: nat, w: Option<nat>): SlotOutcome
  {
    if |t| < numLogical then
      if |t| != numLogical - 1 then SlotOutcome(Err(AssertionError), t, p)
      else if ReusesEntry(t, w) then LastBlockStep(p, Extended(t, numLogical, w))
      else match AllocateOn(p, GPU)
        case Err(e) => SlotOutcome(Err(e), t, p)
        case Ok((b, p1)) => SlotOutcome(Ok(None), t + [b], p1)
    else LastBlockStep(p, t)
  }

  /** The last-block step keeps the allocators valid and every block of the table managed. */
  lemma LastBlockKeepsValid(p: Pools, t: seq<PhysicalBlock>, numGpu: nat, numCpu: nat)
    requires PoolsValid(p, numGpu, numCpu) && forall k :: 0 <= k < |t| ==> p.Known(t[k])
    ensures var o := LastBlockStep(p, t);
      PoolsValid(o.pools, numGpu, numCpu) && (forall b :: p.Known(b) <==> o.pools.Known(b)) &&
      forall k :: 0 <= k < |o.table| ==> o.pools.Known(o.table[k])
  {
    if t != [] && AllocateOn(p, GPU).Ok? {
      AllocateOnKeepsValid(p, GPU, numGpu, numCpu);
      var (b, p1) := AllocateOn(p, GPU).value;
      KnownAllStable(p, p1, numGpu, numCpu);
      FreeBlockKeepsValid(p1, t[|t| - 1], numGpu, numCpu);
      if FreeBlock(p1, t[|t| - 1]).Ok? {
        KnownAllStable(p, FreeBlock(p1, t[|t| - 1]).value, numGpu, numCpu);
      }
    }
  }

  /** append_slot keeps the allocators valid and every block of the table managed. */
  lemma AppendSlotKeepsValid(p: Pools, t: seq<PhysicalBlock>, numLogical: nat, w: Option<nat>, numGpu: nat, numCpu: nat)
    requires PoolsValid(p, numGpu, numCpu) && forall k :: 0 <= k < |t| ==> p.Known(t[k])
    ensures var o := AppendSlotStep(p, t, numLogical, w);
      PoolsValid(o.pools, numGpu, numCpu) && (forall b :: p.Known(b) <==> o.pools.Known(b)) &&
      forall k :: 0 <= k < |o.table| ==> o.pools.Known(o.table[k])
  {
    var e := Extended(t, numLogical, w);
    if |t| < numLogical && |t| == numLogical - 1 && !ReusesEntry(t, w) {
      AllocateOnKeepsValid(p, GPU, numGpu, numCpu);
      if AllocateOn(p, GPU).Ok? {
        KnownAllStable(p, AllocateOn(p, GPU).value.1, numGpu, numCpu);
      }
    } else {
      LastBlockKeepsValid(p, e, numGpu, numCpu);
    }
  }

  /** The last-block step's copy-on-write case, on a table of held blocks. */
  lemma LastBlockCopyOnWrite(p: Pools, e: seq<PhysicalBlock>, numGpu: nat, numCpu: nat)
    requires PoolsValid(p, numGpu, numCpu) && Held(e, p)
    requires LastBlockStep(p, e).result.Ok? && LastBlockStep(p, e).result.value.Some?
    ensures var o := LastBlockStep(p, e);
      var (src, dst) := o.result.value.value;
      var last := e[|e| - 1];
      var newBlock := PhysicalBlock(GPU, dst);
      |e| > 0 && last == PhysicalBlock(GPU, src) && p.Count(last) >= 2 &&
      dst in p.gpu.free && p.Count(newBlock) == 0 &&
      o.table == e[..|e| - 1] + [newBlock] &&
      o.pools.Count(last) == p.Count(last) - 1 && o.pools.Count(newBlock) == 1
  {
    AllocateOnKeepsValid(p, GPU, numGpu, numCpu);
    var (b, p1) := AllocateOn(p, GPU).value;
    var last := e[|e| - 1];
    assert b != last;
    assert p1.Count(last) == p.Count(last);
    FreeBlockKeepsValid(p1, last, numGpu, numCpu);
    assert e[|e| - 1 := b] == e[..|e| - 1] + [b];
  }

  /** The extended table of a held table is held. */
  lemma ExtendedHeld(p: Pools, t: seq<PhysicalBlock>, numLogical: nat, w: Option<nat>)
    requires Held(t, p)
    ensures Held(Extended(t, numLogical, w), p)
  {
    var e := Extended(t, numLogical, w);
    if e != t {
      assert e[|e| - 1] == t[|t| % w.value];
    }
  }

  /**
   * Copy-on-write: when append_slot returns (src, dst), the last block of the (extended)
   * table was a GPU block with more than one reference, numbered src; it is replaced by the
   * free GPU block dst, now at count 1, and loses one reference.
   */
  lemma AppendSlotCopyOnWrite(p: Pools, t: seq<PhysicalBlock>, numLogical: nat, w: Option<nat>, numGpu: nat, numCpu: nat)
    requires PoolsValid(p, numGpu, numCpu) && Held(t, p)
    requires AppendSlotStep(p, t, numLogical, w).result.Ok? && AppendSlotStep(p, t, numLogical, w).result.value.Some?
    ensures var o := AppendSlotStep(p, t, numLogical, w);
      var (src, dst) := o.result.value.value;
      var e := Extended(t, numLogical, w);
      var last := e[|e| - 1];
      var newBlock := PhysicalBlock(GPU, dst);
      |e| > 0 && last == PhysicalBlock(GPU, src) && p.Count(last) >= 2 &&
      dst in p.gpu.free && p.Count(newBlock) == 0 &&
      o.table == e[..|e| - 1] + [newBlock] &&
      o.pools.Count(last) == p.Count(last) - 1 && o.pools.Count(newBlock) == 1
  {
    ExtendedHeld(p, t, numLogical, w);
    LastBlockCopyOnWrite(p, Extended(t, numLogical, w), numGpu, numCpu);
  }

  /**
   * append_slot returns None with the extended table and the allocators unchanged when the
   * last block has a single reference, or with a new GPU block appended when the sequence
   * has a new logical block outside the window.
   */
  lemma AppendSlotNoCopy(p: Pools, t: seq<PhysicalBlock>, numLogical: nat, w: Option<nat>, numGpu: nat, numCpu: nat)
    requires PoolsValid(p, numGpu, numCpu)
    requires AppendSlotStep(p, t, numLogical, w).result == Ok(None)
    ensures var o := AppendSlotStep(p, t, numLogical, w);
      var e := Extended(t, numLogical, w);
      (|e| > 0 && o.table == e && o.pools == p && p.Count(e[|e| - 1]) == 1) ||
      (|t| == numLogical - 1 && !ReusesEntry(t, w) && p.gpu.free != [] &&
       var newBlock := PhysicalBlock(GPU, p.gpu.free[|p.gpu.free| - 1]);
       p.Count(newBlock) == 0 && o.table == t + [newBlock] && o.pools.Count(newBlock) == 1)
  {
    AllocateOnKeepsValid(p, GPU, numGpu, numCpu);
  }

  /**
   * can_append_slot's reason: with one free GPU block, append_slot on a held table does not
   * run out of memory (at most one block is allocated, and a shared last block can be freed).
   */
  lemma OneFreeBlockSuffices(p: Pools, t: seq<PhysicalBlock>, numLogical: nat, w: Option<nat>, numGpu: nat, numCpu: nat)
    requires PoolsValid(p, numGpu, numCpu) && Held(t, p) && |p.gpu.free| >= 1
    ensures AppendSlotStep(p, t, numLogical, w).result != Err(ValueError)
  {
    var e := Extended(t, numLogical, w);
    ExtendedHeld(p, t, numLogical, w);
    AllocateOnKeepsValid(p, GPU, numGpu, numCpu);
    if e != [] {
      var (b, p1) := AllocateOn(p, GPU).value;
      var last := e[|e| - 1];
      if last.device == GPU && p.Count(last) != 1 {
        assert b != last;
        assert p1.Count(last) == p.Count(last);
        FreeBlockKeepsValid(p1, last, numGpu, numCpu);
      }
    }
  }

  /** One more reference to each block of the table, in order. */
  method IncrBlocks(pools: Pools, t: seq<PhysicalBlock>) returns (p: Pools)
    requires forall k :: 0 <= k < |t| ==> pools.Known(t[k])
    ensures p == IncrPrefixBlocks(pools, t, |t|)
  {
    p := pools;
    for k := 0 to |t|
      invariant p == IncrPrefixBlocks(pools, t, k)
    {
      p := IncrBlock(p, t[k]);
    }
  }

  /** Successive frees of `blocks`; the allocators come back as the loop left them, also at an error. */
  method FreeBlocks(pools: Pools, blocks: seq<PhysicalBlock>, numGpu: nat, numCpu: nat)
    returns (r: Result<(), ManagerError>, p: Pools)
    requires PoolsValid(pools, numGpu, numCpu)
    ensures PoolsValid(p, numGpu, numCpu) && forall b :: pools.Known(b) <==> p.Known(b)
    ensures FreeAll(pools, blocks).Ok? ==> r == Ok(()) && p == FreeAll(pools, blocks).value
    ensures FreeAll(pools, blocks).Err? ==> r == Err(FreeAll(pools, blocks).error)
  {
    p := pools;
    for k := 0 to |blocks|
      invariant PoolsValid(p, numGpu, numCpu) && (forall b :: pools.Known(b) <==> p.Known(b))
      invariant FreeAll(pools, blocks) == FreeAll(p, blocks[k..])
    {
      FreeBlockKeepsValid(p, blocks[k], numGpu, numCpu);
      var f := FreeBlock(p, blocks[k]);
      assert blocks[k..][1..] == blocks[k + 1..];
      if f.Err? {
        return Err(f.error), p;
      }
      KnownAllStable(p, f.value, numGpu, numCpu);
      p := f.value;
    }
    assert blocks[|blocks|..] == [];
    return Ok(()), p;
  }

  /**
   * Freeing each distinct block of a held table once succeeds and takes exactly one
   * reference from each block of the table.
   */
  lemma FreeTable(p: Pools, t: seq<PhysicalBlock>, numGpu: nat, numCpu: nat)
    requires PoolsValid(p, numGpu, numCpu) && Held(t, p)
    ensures FreeAll(p, Dedup(t)).Ok?
    ensures forall b :: p.Known(b) ==>
      FreeAll(p, Dedup(t)).value.Known(b) &&
      FreeAll(p, Dedup(t)).value.Count(b) == p.Count(b) - (if b in t then 1 else 0)
  {
    DedupHeld(t, p);
    FreeAllDistinct(p, Dedup(t), numGpu, numCpu);
  }

  /**
   * fork's `ref_count += 1` on a table holding a block at count 0 (one already back on its
   * free list) puts that block at count 1 while it stays on the free list: the allocators
   * are no longer valid and the block can be handed out again.
   */
  lemma ForkOfFreedBlock(p: Pools, t: seq<PhysicalBlock>, b: PhysicalBlock, numGpu: nat, numCpu: nat)
    requires PoolsValid(p, numGpu, numCpu) && forall k :: 0 <= k < |t| ==> p.Known(t[k])
    requires b in t && p.Known(b) && p.Count(b) == 0
    ensures var q := IncrPrefixBlocks(p, t, |t|);
      q.Known(b) && q.Count(b) >= 1 && b.blockNumber in q.Of(b.device).free && !PoolsValid(q, numGpu, numCpu)
  {
    IncrPrefixBlocksCount(p, t, |t|, b);
    assert t[..|t|] == t;
  }

  /**
   * The pools allocate leaves for a prompt of n logical blocks: valid, and every block of
   * the prompt's table at count 1, whatever the number of waiting sequences given the table.
   */
  lemma AllocatedPromptCounts(p: Pools, n: nat, w: Option<nat>, numGpu: nat, numCpu: nat)
    requires PoolsValid(p, numGpu, numCpu) && NumFresh(n, w) <= |p.gpu.free| && (n == 0 || w != Some(0))
    ensures var q := p.(gpu := AllocateN(p.gpu, NumFresh(n, w)));
      PoolsValid(q, numGpu, numCpu) &&
      forall k :: 0 <= k < n ==> q.Known(PromptTable(p.gpu.free, n, w)[k]) && q.Count(PromptTable(p.gpu.free, n, w)[k]) == 1
  {
    var K := NumFresh(n, w);
    var q := p.(gpu := AllocateN(p.gpu, K));
    AllocatedPoolsValid(p, K, numGpu, numCpu);
    var t := PromptTable(p.gpu.free, n, w);
    var free := p.gpu.free;
    forall k | 0 <= k < n
      ensures q.Known(t[k]) && q.Count(t[k]) == 1
    {
      var j := |free| - 1 - Slot(k, w);
      assert t[k] == PhysicalBlock(GPU, free[j]);
      assert free[j] in free[|free| - K..] by {
        assert free[|free| - K..][j - (|free| - K)] == free[j];
      }
      AllocateNCount(p.gpu, K, numGpu, free[j]);
    }
  }

  /**
   * allocate gives every waiting sequence the same table at count 1: once one of two such
   * sequences is freed, every block of the table is free again (count 0) while the other
   * sequence's table still refers to it.
   */
  lemma SiblingFreeFreesSharedTable(p: Pools, n: nat, w: Option<nat>, numGpu: nat, numCpu: nat)
    requires PoolsValid(p, numGpu, numCpu) && NumFresh(n, w) <= |p.gpu.free| && (n == 0 || w != Some(0))
    ensures var q := p.(gpu := AllocateN(p.gpu, NumFresh(n, w)));
      var t := PromptTable(p.gpu.free, n, w);
      FreeAll(q, Dedup(t)).Ok? &&
      PoolsValid(FreeAll(q, Dedup(t)).value, numGpu, numCpu) &&
      forall k :: 0 <= k < n ==>
        FreeAll(q, Dedup(t)).value.Known(t[k]) && FreeAll(q, Dedup(t)).value.Count(t[k]) == 0
  {
    var q := p.(gpu := AllocateN(p.gpu, NumFresh(n, w)));
    var t := PromptTable(p.gpu.free, n, w);
    AllocatedPromptCounts(p, n, w, numGpu, numCpu);
    FreeTable(q, t, numGpu, numCpu);
    DedupHeld(t, q);
    FreeAllDistinct(q, Dedup(t), numGpu, numCpu);
  }

  /** One device's counts with every block of `t` on that device set to m. */
  function SetDeviceCounts(pool: DevicePool, d: Device, t: seq<PhysicalBlock>, m: int): (r: DevicePool)
    ensures r.free == pool.free && r.refCount.Keys == pool.refCount.Keys
    ensures forall i :: i in pool.refCount ==> r.refCount[i] == if PhysicalBlock(d, i) in t then m else pool.refCount[i]
  {
    DevicePool(map i | i in pool.refCount :: if PhysicalBlock(d, i) in t then m else pool.refCount[i], pool.free)
  }

  /** `block.ref_count = m` for every block of the table. */
  function SetCounts(p: Pools, t: seq<PhysicalBlock>, m: int): (r: Pools)
    ensures forall b :: p.Known(b) <==> r.Known(b)
    ensures forall b :: p.Known(b) ==> r.Count(b) == if b in t then m else p.Count(b)
    ensures r.gpu.free == p.gpu.free && r.cpu.free == p.cpu.free
  {
    Pools(SetDeviceCounts(p.gpu, GPU, t, m), SetDeviceCounts(p.cpu, CPU, t, m))
  }

  /** The pools after `j` sequences sharing table `t` have been freed, one after another. */
  ghost function FreedTimes(p: Pools, t: seq<PhysicalBlock>, j: nat): Result<Pools, ManagerError>
  {
    if j == 0 then Ok(p)
    else match FreedTimes(p, t, j - 1)
      case Err(e) => Err(e)
      case Ok(q) => FreeAll(q, Dedup(t))
  }

  /**
   * With the shared table's blocks at one reference per sequence (m of them), freeing the
   * sequences one by one always succeeds and keeps the allocators valid; every block stays
   * held until the last sequence is freed, which returns them all to count 0.
   */
  lemma {:induction false} SharedTableFreesLast(p: Pools, t: seq<PhysicalBlock>, m: nat, j: nat, numGpu: nat, numCpu: nat)
    requires PoolsValid(p, numGpu, numCpu) && Held(t, p) && 1 <= m && j <= m
    ensures PoolsValid(SetCounts(p, t, m), numGpu, numCpu)
    ensures var r := FreedTimes(SetCounts(p, t, m), t, j);
      r.Ok? && PoolsValid(r.value, numGpu, numCpu) &&
      (forall k :: 0 <= k < |t| ==> r.value.Known(t[k]) && r.value.Count(t[k]) == m - j) &&
      (j < m ==> Held(t, r.value))
    decreases j
  {
    var q := SetCounts(p, t, m);
    SetCountsValid(p, t, m, numGpu, numCpu);
    if j > 0 {
      SharedTableFreesLast(p, t, m, j - 1, numGpu, numCpu);
      var before := FreedTimes(q, t, j - 1).value;
      FreeTable(before, t, numGpu, numCpu);
      DedupHeld(t, before);
      FreeAllDistinct(before, Dedup(t), numGpu, numCpu);
      var after := FreeAll(before, Dedup(t)).value;
      assert FreedTimes(q, t, j) == Ok(after);
      forall k | 0 <= k < |t|
        ensures after.Known(t[k]) && after.Count(t[k]) == m - j
      {
        assert t[k] in t;
      }
    }
  }

  /** Raising held blocks to a positive count keeps the allocators valid. */
  /** The prompt table's blocks, set to `m` references each after allocation, keep the pools valid. */
  lemma AllocatedCounted(p: Pools, n: nat, w: Option<nat>, m: nat, numGpu: nat, numCpu: nat)
    requires PoolsValid(p, numGpu, numCpu) && NumFresh(n, w) <= |p.gpu.free| && (n == 0 || w != Some(0)) && 1 <= m
    ensures var q := SetCounts(p.(gpu := AllocateN(p.gpu, NumFresh(n, w))), PromptTable(p.gpu.free, n, w), m);
      PoolsValid(q, numGpu, numCpu) &&
      forall k :: 0 <= k < n ==> q.Known(PromptTable(p.gpu.free, n, w)[k]) && q.Count(PromptTable(p.gpu.free, n, w)[k]) == m
  {
    var q := p.(gpu := AllocateN(p.gpu, NumFresh(n, w)));
    var t := PromptTable(p.gpu.free, n, w);
    AllocatedPromptCounts(p, n, w, numGpu, numCpu);
    SetCountsValid(q, t, m, numGpu, numCpu);
  }

  /** Setting counts forgets no block, so every table stays known. */
  lemma SetCountsKnown(tables: map<int, seq<PhysicalBlock>>, p: Pools, t: seq<PhysicalBlock>, m: int)
    requires TablesKnown(tables, p)
    ensures TablesKnown(tables, SetCounts(p, t, m))
  {
  }

  lemma SetCountsValid(p: Pools, t: seq<PhysicalBlock>, m: nat, numGpu: nat, numCpu: nat)
    requires PoolsValid(p, numGpu, numCpu) && Held(t, p) && 1 <= m
    ensures PoolsValid(SetCounts(p, t, m), numGpu, numCpu)
  {
    var q := SetCounts(p, t, m);
    forall d: Device, i | i in q.Of(d).refCount && PhysicalBlock(d, i) in t
      ensures i !in q.Of(d).free
    {
      var b := PhysicalBlock(d, i);
      var k :| 0 <= k < |t| && t[k] == b;
      assert p.Known(b) && p.Count(b) > 0;
    }
  }

  /** The number of the tables named by `ids` that hold block b. */
  ghost function HoldersIn(tables: map<int, seq<PhysicalBlock>>, ids: set<int>, b: PhysicalBlock): nat
  {
    |set id | id in ids && id in tables && b in tables[id]|
  }

  /** One more table name counts block b once more exactly when that table holds it. */
  lemma HoldersInAdd(tables: map<int, seq<PhysicalBlock>>, ids: set<int>, id: int, b: PhysicalBlock)
    requires id !in ids
    ensures HoldersIn(tables, ids + {id}, b) == HoldersIn(tables, ids, b) + (if id in tables && b in tables[id] then 1 else 0)
  {
    var s := set x | x in ids && x in tables && b in tables[x];
    var s' := set x | x in ids + {id} && x in tables && b in tables[x];
    if id in tables && b in tables[id] {
      assert s' == s + {id};
    } else {
      assert s' == s;
    }
  }

  /**
   * The state of reset's loop with the tables `remaining` still to free: each block has
   * lost one reference per table already freed, and, when every block started with enough
   * references, it still has one for each remaining table holding it.
   */
  ghost predicate ResetInv(p0: Pools, tables: map<int, seq<PhysicalBlock>>, remaining: set<int>, p: Pools, enough: bool)
  {
    (forall b :: p0.Known(b) ==>
       p.Known(b) && p.Count(b) == p0.Count(b) - HoldersIn(tables, tables.Keys - remaining, b)) &&
    (enough ==> forall b :: p0.Known(b) ==> p.Count(b) >= HoldersIn(tables, remaining, b))
  }

  /** With enough references, every block of a table still to free is held. */
  lemma ResetStepHeld(p0: Pools, tables: map<int, seq<PhysicalBlock>>, remaining: set<int>, id: int, p: Pools)
    requires ResetInv(p0, tables, remaining, p, true) && id in remaining && id in tables
    requires forall k :: 0 <= k < |tables[id]| ==> p0.Known(tables[id][k])
    ensures Held(tables[id], p)
  {
    var t := tables[id];
    forall k | 0 <= k < |t|
      ensures p.Known(t[k]) && p.Count(t[k]) > 0
    {
      HoldersInAdd(tables, remaining - {id}, id, t[k]);
      assert remaining == remaining - {id} + {id};
    }
  }

  /** Freeing one more table's distinct blocks moves that table from remaining to freed. */
  lemma ResetStep(p0: Pools, tables: map<int, seq<PhysicalBlock>>, remaining: set<int>, id: int,
                  p: Pools, p': Pools, enough: bool)
    requires ResetInv(p0, tables, remaining, p, enough) && id in remaining && id in tables
    requires FreeAll(p, Dedup(tables[id])) == Ok(p')
    ensures ResetInv(p0, tables, remaining - {id}, p', enough)
  {
    FreeAllOkCount(p, Dedup(tables[id]));
    forall b | p0.Known(b)
      ensures p'.Known(b) && p'.Count(b) == p0.Count(b) - HoldersIn(tables, tables.Keys - (remaining - {id}), b)
      ensures enough ==> p'.Count(b) >= HoldersIn(tables, remaining - {id}, b)
    {
      HoldersInAdd(tables, tables.Keys - remaining, id, b);
      assert tables.Keys - (remaining - {id}) == (tables.Keys - remaining) + {id};
      HoldersInAdd(tables, remaining - {id}, id, b);
      assert remaining == remaining - {id} + {id};
    }
  }

  /** The numbers of a table's blocks, in order. */
  function BlockNumbers(t: seq<PhysicalBlock>): (ids: seq<nat>)
    ensures |ids| == |t| && forall k :: 0 <= k < |t| ==> ids[k] == t[k].blockNumber
  {
    seq(|t|, k requires 0 <= k < |t| => t[k].blockNumber)
  }

  /** The index of the last computed block of a table, if any. */
  function LastComputedIndex(t: seq<PhysicalBlock>, computed: set<PhysicalBlock>): (r: Option<nat>)
    ensures r.Some? ==> (r.value < |t| && t[r.value] in computed &&
      forall j :: r.value < j < |t| ==> t[j] !in computed)
    ensures r.None? ==> forall j :: 0 <= j < |t| ==> t[j] !in computed
  {
    if t == [] then None
    else if t[|t| - 1] in computed then Some(|t| - 1)
    else LastComputedIndex(t[..|t| - 1], computed)
  }

  /** The numbers of a table's blocks up to and including its last computed one ([] when none is). */
  function TillComputed(t: seq<PhysicalBlock>, computed: set<PhysicalBlock>): seq<nat>
  {
    match LastComputedIndex(t, computed)
    case None => []
    case Some(i) => BlockNumbers(t[..i + 1])
  }

  /** The longest common prefix of two sequences. */
  function Lcp(a: seq<nat>, b: seq<nat>): (r: seq<nat>)
    ensures r <= a && r <= b
    ensures |r| == |a| || |r| == |b| || a[|r|] != b[|r|]
  {
    if a == [] || b == [] || a[0] != b[0] then []
    else [a[0]] + Lcp(a[1..], b[1..])
  }

  /** os.path.commonprefix on lists: the longest common prefix of all of them, [] for none. */
  function CommonPrefix(lists: seq<seq<nat>>): (r: seq<nat>)
    ensures forall k :: 0 <= k < |lists| ==> r <= lists[k]
  {
    if |lists| == 0 then []
    else if |lists| == 1 then lists[0]
    else Lcp(CommonPrefix(lists[..|lists| - 1]), lists[|lists| - 1])
  }

  /** No longer sequence is a prefix of every list. */
  lemma {:induction false} CommonPrefixLongest(lists: seq<seq<nat>>, q: seq<nat>)
    requires |lists| > 0 && forall k :: 0 <= k < |lists| ==> q <= lists[k]
    ensures q <= CommonPrefix(lists)
    decreases |lists|
  {
    if |lists| > 1 {
      var init := lists[..|lists| - 1];
      CommonPrefixLongest(init, q);
      LcpLongest(CommonPrefix(init), lists[|lists| - 1], q);
    }
  }

  lemma {:induction false} LcpLongest(a: seq<nat>, b: seq<nat>, q: seq<nat>)
    requires q <= a && q <= b
    ensures q <= Lcp(a, b)
    decreases |a|
  {
    if q != [] {
      assert a[0] == q[0] == b[0];
      LcpLongest(a[1..], b[1..], q[1..]);
    }
  }

  /** The non-empty lists of `lists`, in order. */
  function NonEmpty(lists: seq<seq<nat>>): (r: seq<seq<nat>>)
    ensures forall k :: 0 <= k < |r| ==> r[k] != [] && r[k] in lists
    ensures forall l :: l in lists && l != [] ==> l in r
  {
    if lists == [] then []
    else NonEmpty(lists[..|lists| - 1]) + (if lists[|lists| - 1] != [] then [lists[|lists| - 1]] else [])
  }

  /**
   * compute_last_full_block_in_seq: the block holding the last full block of the sequence's
   * tokens (len // block_size - 1), none for a sequence without a table or without a full
   * block, IndexError when the table is shorter than that.
   */
  function LastFullBlock(tables: map<int, seq<PhysicalBlock>>, s: Sequence, blockSize: nat)
    : (r: Result<Option<PhysicalBlock>, ManagerError>)
    requires blockSize > 0
    ensures r.Ok? && r.value.Some? ==>
      s.seqId in tables && 0 < s.GetLen() / blockSize <= |tables[s.seqId]| &&
      r.value.value == tables[s.seqId][s.GetLen() / blockSize - 1]
    ensures r.Err? <==> s.seqId in tables && s.GetLen() / blockSize > |tables[s.seqId]|
    ensures r == Ok(None) <==> s.seqId !in tables || s.GetLen() < blockSize
  {
    if s.seqId !in tables then Ok(None)
    else
      var maxFullBlock := s.GetLen() / blockSize - 1;
      if maxFullBlock == -1 then Ok(None)
      else if maxFullBlock >= |tables[s.seqId]| then Err(IndexError)
      else Ok(Some(tables[s.seqId][maxFullBlock]))
  }

  /** The blocks of a table, as a set. */
  function BlockSet(t: seq<PhysicalBlock>): (r: set<PhysicalBlock>)
    ensures forall b :: b in r <==> b in t
  {
    set b | b in t
  }

  /** The distinct blocks of the tables of `ss` (sequences without a table add none). */
  function BlocksOf(tables: map<int, seq<PhysicalBlock>>, ss: seq<Sequence>): set<PhysicalBlock>
  {
    if ss == [] then {}
    else
      var id := ss[|ss| - 1].seqId;
      BlocksOf(tables, ss[..|ss| - 1]) + (if id in tables then BlockSet(tables[id]) else {})
  }

  lemma {:induction false} BlocksOfPrefix(tables: map<int, seq<PhysicalBlock>>, ss: seq<Sequence>, j: nat)
    requires j <= |ss|
    ensures BlocksOf(tables, ss[..j]) <= BlocksOf(tables, ss)
    decreases |ss|
  {
    if j < |ss| {
      assert ss[..|ss| - 1][..j] == ss[..j];
      BlocksOfPrefix(tables, ss[..|ss| - 1], j);
    } else {
      assert ss[..j] == ss;
    }
  }

  lemma {:induction false} SubsetCard<T>(a: set<T>, b: set<T>)
    requires a <= b
    ensures |a| <= |b|
    decreases |b|
  {
    if a != {} {
      var x :| x in a;
      SubsetCard(a - {x}, b - {x});
    }
  }

  /**
   * A swap mapping from blocks on `src` to blocks on `dst`: one-to-one, and every
   * destination is a managed block with at least one reference.
   */
  ghost predicate MoveInv(m: map<PhysicalBlock, PhysicalBlock>, p: Pools, src: Device, dst: Device)
  {
    (forall b :: b in m ==> b.device == src && m[b].device == dst && p.Known(m[b]) && p.Count(m[b]) >= 1) &&
    (forall a, b :: a in m && b in m && a != b ==> m[a] != m[b])
  }

  /** The table with each block replaced by its image under the mapping. */
  function MapThrough(m: map<PhysicalBlock, PhysicalBlock>, t: seq<PhysicalBlock>): (r: seq<PhysicalBlock>)
    requires forall k :: 0 <= k < |t| ==> t[k] in m
    ensures |r| == |t| && forall k :: 0 <= k < |t| ==> r[k] == m[t[k]]
  {
    seq(|t|, k requires 0 <= k < |t| => m[t[k]])
  }

  /** The block-number map a swap returns: source number to destination number. */
  function NumberMap(m: map<PhysicalBlock, PhysicalBlock>, src: Device): (r: map<nat, nat>)
    requires forall b :: b in m ==> b.device == src
    ensures forall n :: n in r <==> PhysicalBlock(src, n) in m
    ensures forall n :: n in r ==> r[n] == m[PhysicalBlock(src, n)].blockNumber
  {
    map b | b in m :: b.blockNumber := m[b].blockNumber
  }

  /** A one-to-one mapping onto blocks of one device gives a one-to-one number map. */
  lemma NumberMapInjective(m: map<PhysicalBlock, PhysicalBlock>, p: Pools, src: Device, dst: Device)
    requires MoveInv(m, p, src, dst)
    ensures var r := NumberMap(m, src);
      forall a, b :: a in r && b in r && a != b ==> r[a] != r[b]
  {
    var r := NumberMap(m, src);
    forall a, b | a in r && b in r && a != b
      ensures r[a] != r[b]
    {
      var x, y := PhysicalBlock(src, a), PhysicalBlock(src, b);
      assert m[x] != m[y] && m[x].device == m[y].device;
    }
  }

  /** The mapping side of the inner swap loop after the first k blocks of table t. */
  ghost predicate Mapped(m0: map<PhysicalBlock, PhysicalBlock>, t: seq<PhysicalBlock>, k: nat,
                         newTable: seq<PhysicalBlock>, m: map<PhysicalBlock, PhysicalBlock>)
  {
    k <= |t| &&
    (forall b :: b in m0 ==> b in m && m[b] == m0[b]) &&
    m.Keys == m0.Keys + BlockSet(t[..k]) &&
    |newTable| == k && (forall i :: 0 <= i < k ==> newTable[i] == m[t[i]])
  }

  lemma MappedWithin(m0: map<PhysicalBlock, PhysicalBlock>, t: seq<PhysicalBlock>, k: nat,
                     newTable: seq<PhysicalBlock>, m: map<PhysicalBlock, PhysicalBlock>)
    requires Mapped(m0, t, k, newTable, m)
    ensures m.Keys <= m0.Keys + BlockSet(t)
  {
    forall b | b in m.Keys
      ensures b in m0.Keys + BlockSet(t)
    {
      if b !in m0.Keys {
        assert b in t[..k];
      }
    }
  }

  lemma MappedShared(m0: map<PhysicalBlock, PhysicalBlock>, t: seq<PhysicalBlock>, k: nat,
                     newTable: seq<PhysicalBlock>, m: map<PhysicalBlock, PhysicalBlock>)
    requires Mapped(m0, t, k, newTable, m) && k < |t| && t[k] in m
    ensures Mapped(m0, t, k + 1, newTable + [m[t[k]]], m)
  {
    assert t[..k + 1] == t[..k] + [t[k]];
  }

  lemma MappedNew(m0: map<PhysicalBlock, PhysicalBlock>, t: seq<PhysicalBlock>, k: nat,
                  newTable: seq<PhysicalBlock>, m: map<PhysicalBlock, PhysicalBlock>, x: PhysicalBlock)
    requires Mapped(m0, t, k, newTable, m) && k < |t| && t[k] !in m
    ensures Mapped(m0, t, k + 1, newTable + [x], m[t[k] := x])
  {
    assert t[..k + 1] == t[..k] + [t[k]];
  }

  /** One more reference to a destination block keeps the mapping valid. */
  lemma MoveInvIncr(m: map<PhysicalBlock, PhysicalBlock>, p: Pools, src: Device, dst: Device, x: PhysicalBlock)
    requires MoveInv(m, p, src, dst) && p.Known(x) && p.Count(x) >= 0
    ensures MoveInv(m, IncrBlock(p, x), src, dst)
    ensures IncrBlock(p, x).Of(dst).free == p.Of(dst).free
  {
    var p1 := IncrBlock(p, x);
    forall b | b in m
      ensures p1.Known(m[b]) && p1.Count(m[b]) >= 1
    {
      if m[b] != x {
        assert m[b].blockNumber != x.blockNumber || m[b].device != x.device;
      }
    }
  }

  /** A free on the source device leaves the destination blocks alone. */
  lemma MoveInvFreeSource(m: map<PhysicalBlock, PhysicalBlock>, p: Pools, src: Device, dst: Device, b: PhysicalBlock)
    requires MoveInv(m, p, src, dst) && b.device == src && src != dst && FreeBlock(p, b).Ok?
    ensures MoveInv(m, FreeBlock(p, b).value, src, dst)
    ensures FreeBlock(p, b).value.Of(dst) == p.Of(dst)
  {
    assert FreeBlock(p, b).value.Of(dst) == p.Of(dst);
  }

  /** A newly allocated destination block is a fresh image: the mapping stays one-to-one. */
  lemma MoveInvAllocate(m: map<PhysicalBlock, PhysicalBlock>, p: Pools, src: Device, dst: Device,
                        b: PhysicalBlock, numGpu: nat, numCpu: nat)
    requires MoveInv(m, p, src, dst) && PoolsValid(p, numGpu, numCpu) && b.device == src && b !in m
    requires AllocateOn(p, dst).Ok?
    ensures var (x, p1) := AllocateOn(p, dst).value;
      MoveInv(m[b := x], p1, src, dst) && PoolsValid(p1, numGpu, numCpu) &&
      |p1.Of(dst).free| + |m[b := x]| == |p.Of(dst).free| + |m|
  {
    AllocateOnKeepsValid(p, dst, numGpu, numCpu);
    var (x, p1) := AllocateOn(p, dst).value;
    forall c | c in m
      ensures m[c] != x && p1.Known(m[c]) && p1.Count(m[c]) >= 1
    {
      assert p.Count(m[c]) >= 1;
    }
  }

  /** The destination ran out: the tables to move hold more distinct blocks than were free. */
  lemma OutOfBlocksStep(m0: map<PhysicalBlock, PhysicalBlock>, t: seq<PhysicalBlock>, k: nat,
                        newTable: seq<PhysicalBlock>, m: map<PhysicalBlock, PhysicalBlock>, freeBefore: nat)
    requires Mapped(m0, t, k, newTable, m) && k < |t| && t[k] !in m
    requires |m| == freeBefore + |m0|
    ensures |m0.Keys + BlockSet(t)| > freeBefore + |m0|
  {
    assert m.Keys + {t[k]} <= m0.Keys + BlockSet(t);
    SubsetCard(m.Keys + {t[k]}, m0.Keys + BlockSet(t));
  }

  /**
   * The mapping half of one step of the swap loop: a block already moved gains one more
   * reference on `dst`; any other block gets a newly allocated `dst` block (ValueError
   * when `dst` has none free).
   */
  function MapBlock(p: Pools, m: map<PhysicalBlock, PhysicalBlock>, b: PhysicalBlock, dst: Device)
    : (r: Result<(PhysicalBlock, Pools, map<PhysicalBlock, PhysicalBlock>), ManagerError>)
    requires b in m ==> p.Known(m[b])
    ensures r.Err? <==> b !in m && p.Of(dst).free == []
    ensures r.Ok? && b in m ==> r.value.0 == m[b] && r.value.2 == m
    ensures r.Ok? && b !in m ==> r.value.2 == m[b := r.value.0] && r.value.0.device == dst
  {
    if b in m then Ok((m[b], IncrBlock(p, m[b]), m))
    else
      match AllocateOn(p, dst)
      case Err(e) => Err(e)
      case Ok((x, p1)) => Ok((x, p1, m[b := x]))
  }

  /** The state of the swap loop over table t after its first k blocks. */
  ghost predicate Moving(p0: Pools, m0: map<PhysicalBlock, PhysicalBlock>, t: seq<PhysicalBlock>, k: nat,
                         newTable: seq<PhysicalBlock>, p: Pools, m: map<PhysicalBlock, PhysicalBlock>,
                         src: Device, dst: Device, numGpu: nat, numCpu: nat)
  {
    PoolsValid(p, numGpu, numCpu) && MoveInv(m, p, src, dst) && Mapped(m0, t, k, newTable, m) &&
    |p.Of(dst).free| + |m| == |p0.Of(dst).free| + |m0|
  }

  lemma MapBlockOk(p0: Pools, m0: map<PhysicalBlock, PhysicalBlock>, t: seq<PhysicalBlock>, k: nat,
                   newTable: seq<PhysicalBlock>, p: Pools, m: map<PhysicalBlock, PhysicalBlock>,
                   src: Device, dst: Device, numGpu: nat, numCpu: nat,
                   x: PhysicalBlock, p1: Pools, m1: map<PhysicalBlock, PhysicalBlock>)
    requires Moving(p0, m0, t, k, newTable, p, m, src, dst, numGpu, numCpu) && k < |t|
    requires t[k].device == src && src != dst
    requires MapBlock(p, m, t[k], dst) == Ok((x, p1, m1))
    ensures Moving(p0, m0, t, k + 1, newTable + [x], p1, m1, src, dst, numGpu, numCpu)
  {
    var b := t[k];
    if b in m {
      MappedShared(m0, t, k, newTable, m);
      IncrKeepsValid(p, x, numGpu, numCpu);
      MoveInvIncr(m, p, src, dst, x);
    } else {
      MoveInvAllocate(m, p, src, dst, b, numGpu, numCpu);
      MappedNew(m0, t, k, newTable, m, x);
    }
  }

  lemma MapBlockErr(p0: Pools, m0: map<PhysicalBlock, PhysicalBlock>, t: seq<PhysicalBlock>, k: nat,
                    newTable: seq<PhysicalBlock>, p: Pools, m: map<PhysicalBlock, PhysicalBlock>,
                    src: Device, dst: Device, numGpu: nat, numCpu: nat)
    requires Moving(p0, m0, t, k, newTable, p, m, src, dst, numGpu, numCpu) && k < |t|
    requires MapBlock(p, m, t[k], dst).Err?
    ensures MapBlock(p, m, t[k], dst).error == ValueError
    ensures |m0.Keys + BlockSet(t)| > |p0.Of(dst).free| + |m0|
  {
    AllocateOnKeepsValid(p, dst, numGpu, numCpu);
    OutOfBlocksStep(m0, t, k, newTable, m, |p0.Of(dst).free|);
  }

  lemma MovingStart(p0: Pools, m0: map<PhysicalBlock, PhysicalBlock>, t: seq<PhysicalBlock>,
                    src: Device, dst: Device, numGpu: nat, numCpu: nat)
    requires PoolsValid(p0, numGpu, numCpu) && MoveInv(m0, p0, src, dst)
    ensures Moving(p0, m0, t, 0, [], p0, m0, src, dst, numGpu, numCpu)
  {
    assert BlockSet(t[..0]) == {};
  }

  /** What the swap loop guarantees at whatever point it stops. */
  lemma MovingEnsures(p0: Pools, m0: map<PhysicalBlock, PhysicalBlock>, t: seq<PhysicalBlock>, k: nat,
                      newTable: seq<PhysicalBlock>, p: Pools, m: map<PhysicalBlock, PhysicalBlock>,
                      src: Device, dst: Device, numGpu: nat, numCpu: nat)
    requires Moving(p0, m0, t, k, newTable, p, m, src, dst, numGpu, numCpu)
    ensures PoolsValid(p, numGpu, numCpu) && MoveInv(m, p, src, dst)
    ensures (forall b :: b in m0 ==> b in m && m[b] == m0[b]) && m.Keys <= m0.Keys + BlockSet(t)
    ensures |p.Of(dst).free| + |m| == |p0.Of(dst).free| + |m0|
    ensures k == |t| ==> m.Keys == m0.Keys + BlockSet(t) && newTable == MapThrough(m, t)
  {
    MappedWithin(m0, t, k, newTable, m);
    assert k == |t| ==> t[..k] == t;
  }

  lemma FreeSourceStep(p0: Pools, m0: map<PhysicalBlock, PhysicalBlock>, t: seq<PhysicalBlock>, k: nat,
                       newTable: seq<PhysicalBlock>, p: Pools, m: map<PhysicalBlock, PhysicalBlock>,
                       src: Device, dst: Device, numGpu: nat, numCpu: nat, b: PhysicalBlock)
    requires Moving(p0, m0, t, k, newTable, p, m, src, dst, numGpu, numCpu)
    requires b.device == src && src != dst
    ensures FreeBlock(p, b).Err? ==> FreeBlock(p, b).error == ValueError
    ensures FreeBlock(p, b).Ok? ==> Moving(p0, m0, t, k, newTable, FreeBlock(p, b).value, m, src, dst, numGpu, numCpu)
  {
    FreeBlockKeepsValid(p, b, numGpu, numCpu);
    if FreeBlock(p, b).Ok? {
      MoveInvFreeSource(m, p, src, dst, b);
    }
  }

  /**
   * The inner loop of swap_in/swap_out over one table: each block on `src` is mapped to a
   * block on `dst` (a new allocation the first time, one more reference after that) and
   * then freed on `src`.  The allocators and mapping come back as the loop left them.
   */
  method MoveTable(p0: Pools, t: seq<PhysicalBlock>, src: Device, dst: Device, m0: map<PhysicalBlock, PhysicalBlock>,
                   ghost numGpu: nat, ghost numCpu: nat)
    returns (r: Result<seq<PhysicalBlock>, ManagerError>, p: Pools, m: map<PhysicalBlock, PhysicalBlock>, ghost outOfBlocks: bool)
    requires src != dst && PoolsValid(p0, numGpu, numCpu) && MoveInv(m0, p0, src, dst)
    requires forall k :: 0 <= k < |t| ==> t[k].device == src
    ensures PoolsValid(p, numGpu, numCpu) && MoveInv(m, p, src, dst)
    ensures (forall b :: b in m0 ==> b in m && m[b] == m0[b]) && m.Keys <= m0.Keys + BlockSet(t)
    ensures |p.Of(dst).free| + |m| == |p0.Of(dst).free| + |m0|
    ensures r.Err? ==> r.error == ValueError
    ensures outOfBlocks ==> r.Err? && |m0.Keys + BlockSet(t)| > |p0.Of(dst).free| + |m0|
    ensures r.Ok? ==> m.Keys == m0.Keys + BlockSet(t) && r.value == MapThrough(m, t)
  {
    p, m, outOfBlocks := p0, m0, false;
    var newTable: seq<PhysicalBlock> := [];
    MovingStart(p0, m0, t, src, dst, numGpu, numCpu);
    for k := 0 to |t|
      invariant Moving(p0, m0, t, k, newTable, p, m, src, dst, numGpu, numCpu)
    {
      var step := MapBlock(p, m, t[k], dst);
      if step.Err? {
        MapBlockErr(p0, m0, t, k, newTable, p, m, src, dst, numGpu, numCpu);
        MovingEnsures(p0, m0, t, k, newTable, p, m, src, dst, numGpu, numCpu);
        return Err(step.error), p, m, true;
      }
      var (x, p1, m1) := step.value;
      MapBlockOk(p0, m0, t, k, newTable, p, m, src, dst, numGpu, numCpu, x, p1, m1);
      newTable, p, m := newTable + [x], p1, m1;
      FreeSourceStep(p0, m0, t, k + 1, newTable, p, m, src, dst, numGpu, numCpu, t[k]);
      var f := FreeBlock(p, t[k]);
      if f.Err? {
        MovingEnsures(p0, m0, t, k + 1, newTable, p, m, src, dst, numGpu, numCpu);
        return Err(f.error), p, m, false;
      }
      p := f.value;
    }
    MovingEnsures(p0, m0, t, |t|, newTable, p, m, src, dst, numGpu, numCpu);
    return Ok(newTable), p, m, false;
  }

  /** Every block in the tables of `ss` lies on device d. */
  ghost predicate OnDevice(tables: map<int, seq<PhysicalBlock>>, ss: seq<Sequence>, d: Device)
  {
    forall k, j :: 0 <= k < |ss| && ss[k].seqId in tables && 0 <= j < |tables[ss[k].seqId]| ==>
      tables[ss[k].seqId][j].device == d
  }

  /** The tables of `ss` in `tables` are those of `tables0` sent through m, block by block. */
  ghost predicate Rewritten(tables0: map<int, seq<PhysicalBlock>>, tables: map<int, seq<PhysicalBlock>>,
                            ss: seq<Sequence>, m: map<PhysicalBlock, PhysicalBlock>)
  {
    forall k :: 0 <= k < |ss| ==>
      var id := ss[k].seqId;
      id in tables0 && id in tables && |tables[id]| == |tables0[id]| &&
      forall j :: 0 <= j < |tables0[id]| ==> tables0[id][j] in m && tables[id][j] == m[tables0[id][j]]
  }

  /** Tables of sequences outside `ss` are as they were. */
  ghost predicate Untouched(tables0: map<int, seq<PhysicalBlock>>, tables: map<int, seq<PhysicalBlock>>,
                            ss: seq<Sequence>)
  {
    tables.Keys == tables0.Keys &&
    forall id :: id in tables0 && id !in SeqIds(ss) ==> tables[id] == tables0[id]
  }

  /** The state of swap_in/swap_out's loop after the first j sequences. */
  ghost predicate MovingTables(p0: Pools, tables0: map<int, seq<PhysicalBlock>>, ss: seq<Sequence>, j: nat,
                               p: Pools, tables: map<int, seq<PhysicalBlock>>, m: map<PhysicalBlock, PhysicalBlock>,
                               src: Device, dst: Device, numGpu: nat, numCpu: nat)
  {
    j <= |ss| && PoolsValid(p, numGpu, numCpu) && MoveInv(m, p, src, dst) && TablesKnown(tables, p) &&
    m.Keys == BlocksOf(tables0, ss[..j]) && Rewritten(tables0, tables, ss[..j], m) &&
    Untouched(tables0, tables, ss[..j]) && |p.Of(dst).free| + |m| == |p0.Of(dst).free|
  }

  lemma MovingTablesStart(p0: Pools, tables0: map<int, seq<PhysicalBlock>>, ss: seq<Sequence>,
                          src: Device, dst: Device, numGpu: nat, numCpu: nat)
    requires PoolsValid(p0, numGpu, numCpu) && TablesKnown(tables0, p0)
    ensures MovingTables(p0, tables0, ss, 0, p0, tables0, map[], src, dst, numGpu, numCpu)
  {
    assert ss[..0] == [];
  }

  /** The blocks in the already moved tables stay where the mapping sends them. */
  lemma RewrittenExtend(tables0: map<int, seq<PhysicalBlock>>, tables: map<int, seq<PhysicalBlock>>,
                        ss: seq<Sequence>, m: map<PhysicalBlock, PhysicalBlock>,
                        m1: map<PhysicalBlock, PhysicalBlock>, id: int, t1: seq<PhysicalBlock>)
    requires Rewritten(tables0, tables, ss, m) && id !in SeqIds(ss)
    requires forall b :: b in m ==> b in m1 && m1[b] == m[b]
    ensures Rewritten(tables0, tables[id := t1], ss, m1)
  {
    forall k | 0 <= k < |ss|
      ensures ss[k].seqId != id
    {
    }
  }

  lemma BlocksOfSnoc(tables: map<int, seq<PhysicalBlock>>, ss: seq<Sequence>, j: nat)
    requires j < |ss| && ss[j].seqId in tables
    ensures BlocksOf(tables, ss[..j + 1]) == BlocksOf(tables, ss[..j]) + BlockSet(tables[ss[j].seqId])
  {
    assert ss[..j + 1][..j] == ss[..j];
  }

  lemma TablesKnownStable(tables: map<int, seq<PhysicalBlock>>, p: Pools, p1: Pools, numGpu: nat, numCpu: nat)
    requires TablesKnown(tables, p) && PoolsValid(p, numGpu, numCpu) && PoolsValid(p1, numGpu, numCpu)
    ensures TablesKnown(tables, p1)
  {
    KnownAllStable(p, p1, numGpu, numCpu);
  }

  lemma TablesKnownUpdate(tables: map<int, seq<PhysicalBlock>>, p: Pools, id: int, t: seq<PhysicalBlock>,
                          m: map<PhysicalBlock, PhysicalBlock>, src: Device, dst: Device)
    requires TablesKnown(tables, p) && MoveInv(m, p, src, dst)
    requires forall k :: 0 <= k < |t| ==> t[k] in m
    ensures TablesKnown(tables[id := MapThrough(m, t)], p)
  {
  }

  /** The sequence ss[j] is not among the first j when ids are distinct. */
  lemma NotBefore(ss: seq<Sequence>, j: nat)
    requires DistinctIds(ss) && j < |ss|
    ensures ss[j].seqId !in SeqIds(ss[..j])
  {
    forall k | 0 <= k < j
      ensures ss[..j][k].seqId != ss[j].seqId
    {
    }
  }

  lemma UntouchedStep(tables0: map<int, seq<PhysicalBlock>>, tables: map<int, seq<PhysicalBlock>>,
                      ss: seq<Sequence>, j: nat, t1: seq<PhysicalBlock>)
    requires j < |ss| && Untouched(tables0, tables, ss[..j]) && ss[j].seqId in tables0
    ensures Untouched(tables0, tables[ss[j].seqId := t1], ss[..j + 1])
  {
    assert SeqIds(ss[..j + 1]) == SeqIds(ss[..j]) + {ss[j].seqId} by {
      assert ss[..j + 1] == ss[..j] + [ss[j]];
    }
  }

  lemma RewrittenStep(tables0: map<int, seq<PhysicalBlock>>, tables: map<int, seq<PhysicalBlock>>,
                      ss: seq<Sequence>, j: nat, m: map<PhysicalBlock, PhysicalBlock>,
                      m1: map<PhysicalBlock, PhysicalBlock>)
    requires j < |ss| && Rewritten(tables0, tables, ss[..j], m) && DistinctIds(ss) && ss[j].seqId in tables0
    requires forall b :: b in m ==> b in m1 && m1[b] == m[b]
    requires forall k :: 0 <= k < |tables0[ss[j].seqId]| ==> tables0[ss[j].seqId][k] in m1
    ensures Rewritten(tables0, tables[ss[j].seqId := MapThrough(m1, tables0[ss[j].seqId])], ss[..j + 1], m1)
  {
    NotBefore(ss, j);
    RewrittenExtend(tables0, tables, ss[..j], m, m1, ss[j].seqId, MapThrough(m1, tables0[ss[j].seqId]));
    assert ss[..j + 1] == ss[..j] + [ss[j]];
  }

  /** Moving one more table (of the sequence ss[j]) keeps the loop state. */
  lemma MovingTablesStep(p0: Pools, tables0: map<int, seq<PhysicalBlock>>, ss: seq<Sequence>, j: nat,
                         p: Pools, tables: map<int, seq<PhysicalBlock>>, m: map<PhysicalBlock, PhysicalBlock>,
                         src: Device, dst: Device, numGpu: nat, numCpu: nat,
                         p1: Pools, m1: map<PhysicalBlock, PhysicalBlock>)
    requires MovingTables(p0, tables0, ss, j, p, tables, m, src, dst, numGpu, numCpu) && j < |ss|
    requires DistinctIds(ss) && ss[j].seqId in tables0 && tables[ss[j].seqId] == tables0[ss[j].seqId]
    requires PoolsValid(p1, numGpu, numCpu) && MoveInv(m1, p1, src, dst)
    requires forall b :: b in m ==> b in m1 && m1[b] == m[b]
    requires m1.Keys == m.Keys + BlockSet(tables0[ss[j].seqId])
    requires |p1.Of(dst).free| + |m1| == |p.Of(dst).free| + |m|
    ensures forall k :: 0 <= k < |tables0[ss[j].seqId]| ==> tables0[ss[j].seqId][k] in m1
    ensures MovingTables(p0, tables0, ss, j + 1, p1,
                         tables[ss[j].seqId := MapThrough(m1, tables0[ss[j].seqId])], m1, src, dst, numGpu, numCpu)
  {
    var id := ss[j].seqId;
    BlocksOfSnoc(tables0, ss, j);
    RewrittenStep(tables0, tables, ss, j, m, m1);
    UntouchedStep(tables0, tables, ss, j, MapThrough(m1, tables0[id]));
    TablesKnownStable(tables, p, p1, numGpu, numCpu);
    TablesKnownUpdate(tables, p1, id, tables0[id], m1, src, dst);
  }

  /** Where swap_in/swap_out stops early: what still holds of the partly moved state. */
  lemma MovingTablesStop(p0: Pools, tables0: map<int, seq<PhysicalBlock>>, ss: seq<Sequence>, j: nat,
                         p: Pools, tables: map<int, seq<PhysicalBlock>>, m: map<PhysicalBlock, PhysicalBlock>,
                         dst: Device, numGpu: nat, numCpu: nat,
                         p1: Pools, m1: map<PhysicalBlock, PhysicalBlock>)
    requires j < |ss| && ss[j].seqId in tables0
    requires PoolsValid(p, numGpu, numCpu) && TablesKnown(tables, p) && m.Keys == BlocksOf(tables0, ss[..j])
    requires |p.Of(dst).free| + |m| == |p0.Of(dst).free|
    requires PoolsValid(p1, numGpu, numCpu)
    requires m1.Keys <= m.Keys + BlockSet(tables0[ss[j].seqId])
    requires |p1.Of(dst).free| + |m1| == |p.Of(dst).free| + |m|
    ensures TablesKnown(tables, p1)
    ensures m1.Keys <= BlocksOf(tables0, ss) && |p1.Of(dst).free| + |m1| == |p0.Of(dst).free|
    ensures |m.Keys + BlockSet(tables0[ss[j].seqId])| > |p.Of(dst).free| + |m| ==>
      |BlocksOf(tables0, ss)| > |p0.Of(dst).free|
  {
    TablesKnownStable(tables, p, p1, numGpu, numCpu);
    BlocksOfSnoc(tables0, ss, j);
    BlocksOfPrefix(tables0, ss, j + 1);
    SubsetCard(m.Keys + BlockSet(tables0[ss[j].seqId]), BlocksOf(tables0, ss));
  }

  /** The loop stopped at a sequence without a table. */
  lemma MovingTablesMissing(p0: Pools, tables0: map<int, seq<PhysicalBlock>>, ss: seq<Sequence>, j: nat,
                            p: Pools, tables: map<int, seq<PhysicalBlock>>, m: map<PhysicalBlock, PhysicalBlock>,
                            src: Device, dst: Device, numGpu: nat, numCpu: nat)
    requires MovingTables(p0, tables0, ss, j, p, tables, m, src, dst, numGpu, numCpu) && j < |ss|
    requires ss[j].seqId !in tables
    ensures PoolsValid(p, numGpu, numCpu) && TablesKnown(tables, p) && tables.Keys == tables0.Keys
    ensures MoveInv(m, p, src, dst) && m.Keys <= BlocksOf(tables0, ss)
    ensures |p.Of(dst).free| + |m| == |p0.Of(dst).free|
    ensures exists k :: 0 <= k < |ss| && ss[k].seqId !in tables0
  {
    BlocksOfPrefix(tables0, ss, j);
  }

  /** The loop went through every sequence. */
  lemma MovingTablesDone(p0: Pools, tables0: map<int, seq<PhysicalBlock>>, ss: seq<Sequence>,
                         p: Pools, tables: map<int, seq<PhysicalBlock>>, m: map<PhysicalBlock, PhysicalBlock>,
                         src: Device, dst: Device, numGpu: nat, numCpu: nat)
    requires MovingTables(p0, tables0, ss, |ss|, p, tables, m, src, dst, numGpu, numCpu)
    ensures PoolsValid(p, numGpu, numCpu) && TablesKnown(tables, p) && tables.Keys == tables0.Keys
    ensures MoveInv(m, p, src, dst) && m.Keys == BlocksOf(tables0, ss)
    ensures |p.Of(dst).free| + |m| == |p0.Of(dst).free|
    ensures forall k :: 0 <= k < |ss| ==> ss[k].seqId in tables0
    ensures Rewritten(tables0, tables, ss, m) && Untouched(tables0, tables, ss)
  {
    assert ss[..|ss|] == ss;
  }

  /**
   * The outcome of moving the tables of `ss` from `src` to `dst`, starting from allocators
   * p0 and tables tables0: the state stays valid and no table appears or disappears; the
   * mapping is one-to-one onto referenced `dst` blocks, takes one free `dst` block per
   * moved block, and covers no block outside those tables.  A sequence without a table is
   * a KeyError; running out of `dst` blocks (a ValueError) only happens when the tables hold
   * more distinct blocks than `dst` had free.  On success every block was moved, each table
   * of `ss` was sent through the mapping and the others were left alone, and the result is
   * the mapping by block number.
   */
  ghost predicate MoveOutcome(p0: Pools, tables0: map<int, seq<PhysicalBlock>>, ss: seq<Sequence>,
                              src: Device, dst: Device, numGpu: nat, numCpu: nat,
                              r: Result<map<nat, nat>, ManagerError>, p: Pools, tables: map<int, seq<PhysicalBlock>>,
                              m: map<PhysicalBlock, PhysicalBlock>, outOfBlocks: bool)
  {
    PoolsValid(p, numGpu, numCpu) && TablesKnown(tables, p) && tables.Keys == tables0.Keys &&
    MoveInv(m, p, src, dst) && m.Keys <= BlocksOf(tables0, ss) &&
    |p.Of(dst).free| + |m| == |p0.Of(dst).free| &&
    (r.Err? ==> r.error == KeyError || r.error == ValueError) &&
    (r == Err(KeyError) ==> exists k :: 0 <= k < |ss| && ss[k].seqId !in tables0) &&
    ((exists k :: 0 <= k < |ss| && ss[k].seqId !in tables0) ==> r.Err?) &&
    (outOfBlocks ==> r == Err(ValueError) && |BlocksOf(tables0, ss)| > |p0.Of(dst).free|) &&
    (r.Ok? ==>
      m.Keys == BlocksOf(tables0, ss) && r.value == NumberMap(m, src) &&
      Rewritten(tables0, tables, ss, m) && Untouched(tables0, tables, ss))
  }

  /**
   * The loop of swap_in (src CPU, dst GPU, the SWAPPED sequences) and swap_out (src GPU,
   * dst CPU, the RUNNING sequences): each table is moved through one shared mapping and
   * replaced; the result maps each moved block number to its new number.  KeyError for a
   * sequence without a table; ValueError when `dst` runs out or a free finds a free block.
   */
  method MoveTables(p0: Pools, tables0: map<int, seq<PhysicalBlock>>, ss: seq<Sequence>, src: Device, dst: Device,
                    ghost numGpu: nat, ghost numCpu: nat)
    returns (r: Result<map<nat, nat>, ManagerError>, p: Pools, tables: map<int, seq<PhysicalBlock>>,
             m: map<PhysicalBlock, PhysicalBlock>, ghost outOfBlocks: bool)
    requires src != dst && PoolsValid(p0, numGpu, numCpu) && TablesKnown(tables0, p0)
    requires DistinctIds(ss) && OnDevice(tables0, ss, src)
    ensures MoveOutcome(p0, tables0, ss, src, dst, numGpu, numCpu, r, p, tables, m, outOfBlocks)
  {
    p, tables, m, outOfBlocks := p0, tables0, map[], false;
    MovingTablesStart(p0, tables0, ss, src, dst, numGpu, numCpu);
    for j := 0 to |ss|
      invariant MovingTables(p0, tables0, ss, j, p, tables, m, src, dst, numGpu, numCpu)
    {
      var id := ss[j].seqId;
      if id !in tables {
        MovingTablesMissing(p0, tables0, ss, j, p, tables, m, src, dst, numGpu, numCpu);
        return Err(KeyError), p, tables, m, false;
      }
      NotBefore(ss, j);
      var t := tables[id];
      var rt, p1, m1, oob := MoveTable(p, t, src, dst, m, numGpu, numCpu);
      MovingTablesStop(p0, tables0, ss, j, p, tables, m, dst, numGpu, numCpu, p1, m1);
      if rt.Err? {
        return Err(rt.error), p1, tables, m1, oob;
      }
      MovingTablesStep(p0, tables0, ss, j, p, tables, m, src, dst, numGpu, numCpu, p1, m1);
      p, tables, m := p1, tables[id := rt.value], m1;
    }
    MovingTablesDone(p0, tables0, ss, p, tables, m, src, dst, numGpu, numCpu);
    return Ok(NumberMap(m, src)), p, tables, m, false;
  }

  /**
   * _get_physical_blocks: the distinct blocks of the tables of the unfinished sequences;
   * KeyError when one of them has no table.
   */
  function UnfinishedBlocks(tables: map<int, seq<PhysicalBlock>>, ss: seq<Sequence>): (r: Result<set<PhysicalBlock>, ManagerError>)
    ensures r.Err? <==> exists k :: 0 <= k < |ss| && !ss[k].status.IsFinished() && ss[k].seqId !in tables
    ensures r.Err? ==> r.error == KeyError
    ensures r.Ok? ==> forall b :: b in r.value <==>
      exists k :: 0 <= k < |ss| && !ss[k].status.IsFinished() && ss[k].seqId in tables && b in tables[ss[k].seqId]
  {
    if ss == [] then Ok({})
    else
      var last := ss[|ss| - 1];
      var init := ss[..|ss| - 1];
      assert forall k :: 0 <= k < |init| ==> init[k] == ss[k];
      match UnfinishedBlocks(tables, init)
      case Err(e) => Err(e)
      case Ok(blocks) =>
        if last.status.IsFinished() then Ok(blocks)
        else if last.seqId !in tables then Err(KeyError)
        else Ok(blocks + BlockSet(tables[last.seqId]))
  }

  /** An error on a prefix is an error on the whole list. */
  lemma PrefixErr(tables: map<int, seq<PhysicalBlock>>, ss: seq<Sequence>, j: nat)
    requires j <= |ss| && UnfinishedBlocks(tables, ss[..j]).Err?
    ensures UnfinishedBlocks(tables, ss) == Err(KeyError)
  {
    var k :| 0 <= k < j && !ss[..j][k].status.IsFinished() && ss[..j][k].seqId !in tables;
    assert ss[k] == ss[..j][k];
  }

  /** A block of the tables of `ss` comes from one of those tables. */
  lemma {:induction false} BlocksOfMember(tables: map<int, seq<PhysicalBlock>>, ss: seq<Sequence>, b: PhysicalBlock)
    requires b in BlocksOf(tables, ss)
    ensures exists k :: 0 <= k < |ss| && ss[k].seqId in tables && b in tables[ss[k].seqId]
    decreases |ss|
  {
    var init := ss[..|ss| - 1];
    var id := ss[|ss| - 1].seqId;
    if id in tables && b in tables[id] {
      assert ss[|ss| - 1].seqId in tables;
    } else {
      BlocksOfMember(tables, init, b);
      var k :| 0 <= k < |init| && init[k].seqId in tables && b in tables[init[k].seqId];
      assert ss[k] == init[k];
    }
  }

  /**
   * The blocks swap_in or swap_out moves (those of the sequences with one unfinished
   * status) are among the blocks _get_physical_blocks counts, so there are no more of them.
   */
  lemma MovedWithinPhysical(tables: map<int, seq<PhysicalBlock>>, ss: seq<Sequence>, status: SeqStatus)
    requires !status.IsFinished() && UnfinishedBlocks(tables, ss).Ok?
    ensures BlocksOf(tables, WithStatus(ss, status)) <= UnfinishedBlocks(tables, ss).value
    ensures |BlocksOf(tables, WithStatus(ss, status))| <= |UnfinishedBlocks(tables, ss).value|
  {
    var ws := WithStatus(ss, status);
    forall b | b in BlocksOf(tables, ws)
      ensures b in UnfinishedBlocks(tables, ss).value
    {
      BlocksOfMember(tables, ws, b);
      var k :| 0 <= k < |ws| && ws[k].seqId in tables && b in tables[ws[k].seqId];
      assert ws[k] in ss;
      var i :| 0 <= i < |ss| && ss[i] == ws[k];
    }
    SubsetCard(BlocksOf(tables, ws), UnfinishedBlocks(tables, ss).value);
  }

  /**
   * When the free `dst` blocks cover the distinct blocks of the group's unfinished tables
   * with `perSeq + reserve` to spare, moving the tables of one unfinished status never runs
   * out and leaves at least `perSeq + reserve` blocks free.
   */
  lemma FitsNoShortage(p0: Pools, tables0: map<int, seq<PhysicalBlock>>, seqs: seq<Sequence>, status: SeqStatus,
                       src: Device, dst: Device, numGpu: nat, numCpu: nat,
                       r: Result<map<nat, nat>, ManagerError>, p: Pools, tables: map<int, seq<PhysicalBlock>>,
                       m: map<PhysicalBlock, PhysicalBlock>, outOfBlocks: bool, perSeq: nat, reserve: nat)
    requires !status.IsFinished()
    requires MoveOutcome(p0, tables0, WithStatus(seqs, status), src, dst, numGpu, numCpu, r, p, tables, m, outOfBlocks)
    requires UnfinishedBlocks(tables0, seqs).Ok?
    requires |p0.Of(dst).free| - (|UnfinishedBlocks(tables0, seqs).value| + perSeq) >= reserve
    ensures !outOfBlocks && |p.Of(dst).free| >= perSeq + reserve
  {
    MovedWithinPhysical(tables0, seqs, status);
    SubsetCard(m.Keys, BlocksOf(tables0, WithStatus(seqs, status)));
  }

  class BlockSpaceManager {
    const blockSize: nat
    const numTotalGpuBlocks: nat
    const numTotalCpuBlocks: nat
    /** The window in blocks, when there is one. */
    const blockSlidingWindow: Option<nat>
    const watermark: real
    const watermarkBlocks: nat
    const enableCaching: bool
    /** The GPU and CPU allocators. */
    var pools: Pools
    /** Mapping from sequence id to block table. */
    var blockTables: map<int, seq<PhysicalBlock>>
    /** The blocks whose `computed` flag is set. */
    var computed: set<PhysicalBlock>
    /** The `last_accessed` time of the blocks that have one. */
    var lastAccessed: map<PhysicalBlock, real>

    ghost predicate Valid()
      reads this
    {
      blockSize > 0 &&
      PoolsValid(pools, numTotalGpuBlocks, numTotalCpuBlocks) &&
      TablesKnown(blockTables, pools)
    }

    /**
     * __init__: the window is kept in blocks (it must be a whole number of them), the
     * watermark in blocks is truncated, both allocators start with every block free and no
     * sequence has a table.
     */
    constructor(blockSize: nat, numGpuBlocks: nat, numCpuBlocks: nat, watermark: real,
                slidingWindow: Option<nat>, enableCaching: bool)
      requires blockSize > 0 && watermark >= 0.0
      requires slidingWindow.Some? ==> slidingWindow.value % blockSize == 0
      ensures Valid()
      ensures this.blockSize == blockSize && numTotalGpuBlocks == numGpuBlocks && numTotalCpuBlocks == numCpuBlocks
      ensures this.watermark == watermark && this.enableCaching == enableCaching
      ensures slidingWindow.None? ==> blockSlidingWindow.None?
      ensures slidingWindow.Some? ==>
        blockSlidingWindow.Some? && blockSlidingWindow.value * blockSize == slidingWindow.value
      ensures watermarkBlocks == WatermarkBlocks(watermark, numGpuBlocks)
      ensures pools == Pools(InitialPool(numGpuBlocks), InitialPool(numCpuBlocks))
      ensures |pools.gpu.free| == numGpuBlocks && |pools.cpu.free| == numCpuBlocks
      ensures blockTables == map[] && computed == {} && lastAccessed == map[]
    {
      this.blockSize := blockSize;
      numTotalGpuBlocks := numGpuBlocks;
      numTotalCpuBlocks := numCpuBlocks;
      blockSlidingWindow := if slidingWindow.Some? then Some(slidingWindow.value / blockSize) else None;
      this.watermark := watermark;
      this.enableCaching := enableCaching;
      watermarkBlocks := WatermarkBlocks(watermark, numGpuBlocks);
      pools := Pools(InitialPool(numGpuBlocks), InitialPool(numCpuBlocks));
      blockTables := map[];
      computed := {};
      lastAccessed := map[];
    }

    /**
     * __init__ with its assertions: AssertionError for a sliding window that is not a whole
     * number of blocks, then for a negative watermark.
     */
    static method Create(blockSize: nat, numGpuBlocks: nat, numCpuBlocks: nat, watermark: real,
                         slidingWindow: Option<nat>, enableCaching: bool)
      returns (r: Result<BlockSpaceManager, ManagerError>)
      requires blockSize > 0
      ensures r.Err? <==> (slidingWindow.Some? && slidingWindow.value % blockSize != 0) || watermark < 0.0
      ensures r.Err? ==> r.error == AssertionError
      ensures r.Ok? ==>
        fresh(r.value) && r.value.Valid() && r.value.blockSize == blockSize &&
        r.value.watermarkBlocks == WatermarkBlocks(watermark, numGpuBlocks) &&
        |r.value.pools.gpu.free| == numGpuBlocks && |r.value.pools.cpu.free| == numCpuBlocks &&
        r.value.blockTables == map[]
    {
      if slidingWindow.Some? && slidingWindow.value % blockSize != 0 {
        return Err(AssertionError);
      }
      if watermark < 0.0 {
        return Err(AssertionError);
      }
      var manager := new BlockSpaceManager(blockSize, numGpuBlocks, numCpuBlocks, watermark, slidingWindow, enableCaching);
      return Ok(manager);
    }

    /** GPU blocks free. */
    function GetNumFreeGpuBlocks(): (n: nat)
      reads this
      ensures n == |pools.gpu.free|
    {
      |pools.gpu.free|
    }

    /** CPU blocks free. */
    function GetNumFreeCpuBlocks(): (n: nat)
      reads this
      ensures n == |pools.cpu.free|
    {
      |pools.cpu.free|
    }

    /**
     * can_allocate: the watermark rule for the first waiting sequence's blocks, capped at
     * the window; IndexError for a group without a waiting sequence.
     */
    function CanAllocate(group: SequenceGroup): (r: Result<AllocStatus, ManagerError>)
      reads this
      ensures r.Err? <==> group.GetSeqs(WAITING) == []
      ensures r.Err? ==> r.error == IndexError
      ensures r.Ok? ==> r.value == AllocDecision(numTotalGpuBlocks, GetNumFreeGpuBlocks(),
                                                 NumFresh(group.GetSeqs(WAITING)[0].numLogicalBlocks, blockSlidingWindow),
                                                 watermarkBlocks)
    {
      var waiting := group.GetSeqs(WAITING);
      if waiting == [] then Err(IndexError)
      else
        var required := NumFresh(waiting[0].numLogicalBlocks, blockSlidingWindow);
        Ok(AllocDecision(numTotalGpuBlocks, GetNumFreeGpuBlocks(), required, watermarkBlocks))
    }

    /**
     * allocate: the first waiting sequence's prompt gets one entry per logical block, fresh
     * GPU blocks up to the window and reused entries past it, and every waiting sequence gets
     * its own copy of that table.  IndexError without a waiting sequence, ZeroDivisionError
     * for a window of 0 blocks, ValueError when the GPU runs out (no table is written then).
     */
    method Allocate(group: SequenceGroup) returns (r: Result<(), ManagerError>)
      requires Valid()
      modifies this
      ensures Valid() && unchanged(this`computed, this`lastAccessed)
      ensures group.GetSeqs(WAITING) == [] ==>
        r == Err(IndexError) && pools == old(pools) && blockTables == old(blockTables)
      ensures group.GetSeqs(WAITING) != [] ==>
        var n := group.GetSeqs(WAITING)[0].numLogicalBlocks;
        var free := old(pools).gpu.free;
        var k := NumFresh(n, blockSlidingWindow);
        (n > 0 && blockSlidingWindow == Some(0) ==>
           r == Err(ZeroDivisionError) && pools == old(pools) && blockTables == old(blockTables)) &&
        (k > |free| ==> r == Err(ValueError) && blockTables == old(blockTables)) &&
        (k <= |free| && (n == 0 || blockSlidingWindow != Some(0)) ==>
           r == Ok(()) && pools == old(pools).(gpu := AllocateN(old(pools).gpu, k)) &&
           blockTables == Assigned(old(blockTables), group.GetSeqs(WAITING), PromptTable(free, n, blockSlidingWindow)))
      ensures old(CanAllocate(group)) == Ok(OK) && blockSlidingWindow != Some(0) ==> r == Ok(())
    {
      var waiting := group.GetSeqs(WAITING);
      if waiting == [] {
        return Err(IndexError);
      }
      var table := BuildPromptTable(waiting[0].numLogicalBlocks);
      if table.Err? {
        return Err(table.error);
      }
      AssignTables(waiting, table.value);
      return Ok(());
    }

    /**
     * allocate as the shared tables need it: allocate's table building and assignment, then
     * every block of the prompt's table gets one reference per waiting sequence, so that each sequence's free drops one
     * of them and only the last returns the blocks (SharedTableFreesLast).
     */
    method AllocateCounted(group: SequenceGroup) returns (r: Result<(), ManagerError>)
      requires Valid()
      modifies this
      ensures Valid() && unchanged(this`computed, this`lastAccessed)
      ensures group.GetSeqs(WAITING) == [] ==>
        r == Err(IndexError) && pools == old(pools) && blockTables == old(blockTables)
      ensures group.GetSeqs(WAITING) != [] ==>
        var waiting := group.GetSeqs(WAITING);
        var n := waiting[0].numLogicalBlocks;
        var free := old(pools).gpu.free;
        var k := NumFresh(n, blockSlidingWindow);
        (n > 0 && blockSlidingWindow == Some(0) ==>
           r == Err(ZeroDivisionError) && pools == old(pools) && blockTables == old(blockTables)) &&
        (k > |free| ==> r == Err(ValueError) && blockTables == old(blockTables)) &&
        (k <= |free| && (n == 0 || blockSlidingWindow != Some(0)) ==>
           var t := PromptTable(free, n, blockSlidingWindow);
           r == Ok(()) && pools == SetCounts(old(pools).(gpu := AllocateN(old(pools).gpu, k)), t, |waiting|) &&
           blockTables == Assigned(old(blockTables), waiting, t) &&
           forall j :: 0 <= j < n ==> pools.Known(t[j]) && pools.Count(t[j]) == |waiting|)
    {
      var waiting := group.GetSeqs(WAITING);
      if waiting == [] {
        return Err(IndexError);
      }
      ghost var p0 := pools;
      var table := BuildPromptTable(waiting[0].numLogicalBlocks);
      if table.Err? {
        return Err(table.error);
      }
      AssignTables(waiting, table.value);
      AllocatedCounted(p0, waiting[0].numLogicalBlocks, blockSlidingWindow, |waiting|, numTotalGpuBlocks, numTotalCpuBlocks);
      SetCountsKnown(blockTables, pools, table.value, |waiting|);
      pools := SetCounts(pools, table.value, |waiting|);
      return Ok(());
    }

    /** The loop of allocate that builds the prompt's table, on this manager's allocators. */
    method BuildPromptTable(n: nat) returns (r: Result<seq<PhysicalBlock>, ManagerError>)
      requires Valid()
      modifies this
      ensures Valid() && blockTables == old(blockTables) && computed == old(computed) && lastAccessed == old(lastAccessed)
      ensures n > 0 && blockSlidingWindow == Some(0) ==> r == Err(ZeroDivisionError) && pools == old(pools)
      ensures NumFresh(n, blockSlidingWindow) > |old(pools).gpu.free| ==> r == Err(ValueError)
      ensures NumFresh(n, blockSlidingWindow) <= |old(pools).gpu.free| && (n == 0 || blockSlidingWindow != Some(0)) ==>
        r == Ok(PromptTable(old(pools).gpu.free, n, blockSlidingWindow)) &&
        pools == old(pools).(gpu := AllocateN(old(pools).gpu, NumFresh(n, blockSlidingWindow)))
      ensures r.Ok? ==> forall k :: 0 <= k < |r.value| ==> pools.Known(r.value[k])
    {
      var p;
      r, p := BuildTable(pools, n, blockSlidingWindow);
      AllocatedPoolsValid(pools, |pools.gpu.free| - |p.gpu.free|, numTotalGpuBlocks, numTotalCpuBlocks);
      pools := p;
    }

    /** The loop of allocate that gives each waiting sequence its own copy of the table. */
    method AssignTables(waiting: seq<Sequence>, table: seq<PhysicalBlock>)
      requires Valid() && forall k :: 0 <= k < |table| ==> pools.Known(table[k])
      modifies this
      ensures Valid() && pools == old(pools) && computed == old(computed) && lastAccessed == old(lastAccessed)
      ensures blockTables == Assigned(old(blockTables), waiting, table)
    {
      var j := 0;
      while j < |waiting|
        invariant j <= |waiting|
        invariant blockTables == Assigned(old(blockTables), waiting[..j], table)
        invariant TablesKnown(blockTables, pools)
        invariant pools == old(pools) && computed == old(computed) && lastAccessed == old(lastAccessed)
      {
        assert waiting[..j + 1][..j] == waiting[..j];
        blockTables := blockTables[waiting[j].seqId := table];
        j := j + 1;
      }
      assert waiting[..|waiting|] == waiting;
    }

    /**
     * can_append_slot: one free GPU block for each running sequence of the group
     * (see OneFreeBlockSuffices for why one each is enough).
     */
    predicate CanAppendSlot(group: SequenceGroup): (ok: bool)
      reads this
      ensures ok && Valid() ==>
        forall s :: s in group.GetSeqs(RUNNING) && s.seqId in blockTables && Held(blockTables[s.seqId], pools) ==>
          AppendSlotStep(pools, blockTables[s.seqId], s.numLogicalBlocks, blockSlidingWindow).result != Err(ValueError)
    {
      var ok := group.NumSeqs(RUNNING) <= GetNumFreeGpuBlocks();
      assert ok && Valid() ==>
        forall s :: s in group.GetSeqs(RUNNING) && s.seqId in blockTables && Held(blockTables[s.seqId], pools) ==>
          AppendSlotStep(pools, blockTables[s.seqId], s.numLogicalBlocks, blockSlidingWindow).result != Err(ValueError) by {
        if ok && Valid() {
          forall s | s in group.GetSeqs(RUNNING) && s.seqId in blockTables && Held(blockTables[s.seqId], pools)
            ensures AppendSlotStep(pools, blockTables[s.seqId], s.numLogicalBlocks, blockSlidingWindow).result != Err(ValueError)
          {
            OneFreeBlockSuffices(pools, blockTables[s.seqId], s.numLogicalBlocks, blockSlidingWindow,
                                 numTotalGpuBlocks, numTotalCpuBlocks);
          }
        }
      }
      ok
    }

    /**
     * append_slot: KeyError for a sequence without a table; otherwise the table and the
     * allocators change as AppendSlotStep says, and no other table changes.
     */
    method AppendSlot(s: Sequence) returns (r: Result<Option<(nat, nat)>, ManagerError>)
      requires Valid()
      modifies this
      ensures Valid() && unchanged(this`computed, this`lastAccessed)
      ensures s.seqId !in old(blockTables) ==>
        r == Err(KeyError) && blockTables == old(blockTables) && pools == old(pools)
      ensures s.seqId in old(blockTables) ==>
        var o := AppendSlotStep(old(pools), old(blockTables)[s.seqId], s.numLogicalBlocks, blockSlidingWindow);
        r == o.result && pools == o.pools && blockTables == old(blockTables)[s.seqId := o.table]
    {
      if s.seqId !in blockTables {
        return Err(KeyError);
      }
      var table := blockTables[s.seqId];
      var o := AppendSlotStep(pools, table, s.numLogicalBlocks, blockSlidingWindow);
      AppendSlotKeepsValid(pools, table, s.numLogicalBlocks, blockSlidingWindow, numTotalGpuBlocks, numTotalCpuBlocks);
      pools := o.pools;
      blockTables := blockTables[s.seqId := o.table];
      r := o.result;
    }

    /**
     * fork: the child gets a copy of the parent's table and every block of it one more
     * reference per occurrence; KeyError for a parent without a table.  The increments are
     * unconditional: a block of the table already at count 0 ends up at count 1 while still
     * on its free list (ForkOfFreedBlock), so the manager stays valid only when every block
     * of the parent's table is held.
     */
    method Fork(parent: Sequence, child: Sequence) returns (r: Result<(), ManagerError>)
      requires Valid()
      modifies this
      ensures unchanged(this`computed, this`lastAccessed)
      ensures parent.seqId !in old(blockTables) ==>
        Valid() && r == Err(KeyError) && blockTables == old(blockTables) && pools == old(pools)
      ensures parent.seqId in old(blockTables) ==>
        var t := old(blockTables)[parent.seqId];
        r == Ok(()) && blockTables == old(blockTables)[child.seqId := t] &&
        pools == IncrPrefixBlocks(old(pools), t, |t|) &&
        pools.gpu.free == old(pools).gpu.free && pools.cpu.free == old(pools).cpu.free &&
        (forall b :: old(pools).Known(b) ==> pools.Known(b) && pools.Count(b) == old(pools).Count(b) + multiset(t)[b]) &&
        (Held(t, old(pools)) ==> Valid())
    {
      if parent.seqId !in blockTables {
        return Err(KeyError);
      }
      var t := blockTables[parent.seqId];
      blockTables := blockTables[child.seqId := t];
      ghost var p0 := pools;
      if Held(t, pools) {
        IncrPrefixKeepsValid(pools, t, |t|, numTotalGpuBlocks, numTotalCpuBlocks);
      }
      pools := IncrBlocks(pools, t);
      forall b | p0.Known(b)
        ensures pools.Known(b) && pools.Count(b) == p0.Count(b) + multiset(t)[b]
      {
        IncrPrefixBlocksCount(p0, t, |t|, b);
        assert t[..|t|] == t;
      }
      return Ok(());
    }

    /** _get_physical_blocks, as a set (the source returns it as a list in set order). */
    method GetPhysicalBlocks(group: SequenceGroup) returns (r: Result<set<PhysicalBlock>, ManagerError>)
      ensures r == UnfinishedBlocks(blockTables, group.seqs)
    {
      var blocks: set<PhysicalBlock> := {};
      var ss := group.seqs;
      for k := 0 to |ss|
        invariant UnfinishedBlocks(blockTables, ss[..k]) == Ok(blocks)
      {
        assert ss[..k + 1][..k] == ss[..k];
        if ss[k].status.IsFinished() {
          continue;
        }
        if ss[k].seqId !in blockTables {
          assert ss[..k + 1][k] == ss[k];
          assert UnfinishedBlocks(blockTables, ss[..k + 1]).Err?;
          PrefixErr(blockTables, ss, k + 1);
          return Err(KeyError);
        }
        blocks := blocks + BlockSet(blockTables[ss[k].seqId]);
      }
      assert ss[..|ss|] == ss;
      return Ok(blocks);
    }

    /**
     * Whether swap_in may go ahead: the GPU would keep the watermark even with one more
     * block for every swapped sequence on top of the group's blocks.
     */
    predicate SwapInFits(group: SequenceGroup): (ok: bool)
      reads this
      ensures ok ==> UnfinishedBlocks(blockTables, group.seqs).Ok?
      ensures ok && watermarkBlocks >= 0 ==> |UnfinishedBlocks(blockTables, group.seqs).value| <= |pools.gpu.free|
    {
      var blocks := UnfinishedBlocks(blockTables, group.seqs);
      blocks.Ok? &&
      |pools.gpu.free| - (|blocks.value| + group.NumSeqs(SWAPPED)) >= watermarkBlocks
    }

    /** can_swap_in; KeyError when an unfinished sequence has no table. */
    method CanSwapIn(group: SequenceGroup) returns (r: Result<bool, ManagerError>)
      ensures r.Err? <==> UnfinishedBlocks(blockTables, group.seqs).Err?
      ensures r.Ok? ==> (r.value <==> SwapInFits(group))
    {
      var blocks := GetPhysicalBlocks(group);
      if blocks.Err? {
        return Err(blocks.error);
      }
      var numSwappedSeqs := group.NumSeqs(SWAPPED);
      var numFreeBlocks := GetNumFreeGpuBlocks();
      var numRequiredBlocks := |blocks.value| + numSwappedSeqs;
      return Ok(numFreeBlocks - numRequiredBlocks >= watermarkBlocks);
    }

    /**
     * swap_in: the tables of the swapped sequences move from CPU blocks to GPU blocks
     * through one mapping (a CPU block shared by several tables gets one GPU block), each
     * CPU block is freed once per table entry, and the result maps CPU block numbers to GPU
     * block numbers.  When swap_in was allowed, no GPU allocation fails and the GPU keeps
     * the watermark plus a block for each swapped sequence.
     */
    method SwapIn(group: SequenceGroup)
      returns (r: Result<map<nat, nat>, ManagerError>, ghost m: map<PhysicalBlock, PhysicalBlock>, ghost outOfBlocks: bool)
      requires Valid() && DistinctIds(group.seqs)
      requires OnDevice(blockTables, group.GetSeqs(SWAPPED), CPU)
      modifies this
      ensures Valid() && unchanged(this`computed, this`lastAccessed)
      ensures MoveOutcome(old(pools), old(blockTables), group.GetSeqs(SWAPPED), CPU, GPU,
                          numTotalGpuBlocks, numTotalCpuBlocks, r, pools, blockTables, m, outOfBlocks)
      ensures old(SwapInFits(group)) ==>
        !outOfBlocks && |pools.gpu.free| >= group.NumSeqs(SWAPPED) + watermarkBlocks
    {
      var swapped := group.GetSeqs(SWAPPED);
      WithStatusDistinct(group.seqs, SWAPPED);
      var res, p, tables, mapping, oob := MoveTables(pools, blockTables, swapped, CPU, GPU, numTotalGpuBlocks, numTotalCpuBlocks);
      if SwapInFits(group) {
        FitsNoShortage(pools, blockTables, group.seqs, SWAPPED, CPU, GPU, numTotalGpuBlocks, numTotalCpuBlocks,
                       res, p, tables, mapping, oob, group.NumSeqs(SWAPPED), watermarkBlocks);
      }
      pools, blockTables := p, tables;
      return res, mapping, oob;
    }

    /** Whether swap_out may go ahead: the CPU has a free block for each of the group's blocks. */
    predicate SwapOutFits(group: SequenceGroup): (ok: bool)
      reads this
      ensures ok ==> forall s :: s in group.seqs && !s.status.IsFinished() ==> s.seqId in blockTables
    {
      var blocks := UnfinishedBlocks(blockTables, group.seqs);
      blocks.Ok? && |blocks.value| <= |pools.cpu.free|
    }

    /** can_swap_out; KeyError when an unfinished sequence has no table. */
    method CanSwapOut(group: SequenceGroup) returns (r: Result<bool, ManagerError>)
      ensures r.Err? <==> UnfinishedBlocks(blockTables, group.seqs).Err?
      ensures r.Ok? ==> (r.value <==> SwapOutFits(group))
    {
      var blocks := GetPhysicalBlocks(group);
      if blocks.Err? {
        return Err(blocks.error);
      }
      return Ok(|blocks.value| <= GetNumFreeCpuBlocks());
    }

    /**
     * swap_out: the tables of the running sequences move from GPU blocks to CPU blocks
     * through one mapping, each GPU block is freed once per table entry, and the result maps
     * GPU block numbers to CPU block numbers.  When swap_out was allowed, no CPU allocation
     * fails.
     */
    method SwapOut(group: SequenceGroup)
      returns (r: Result<map<nat, nat>, ManagerError>, ghost m: map<PhysicalBlock, PhysicalBlock>, ghost outOfBlocks: bool)
      requires Valid() && DistinctIds(group.seqs)
      requires OnDevice(blockTables, group.GetSeqs(RUNNING), GPU)
      modifies this
      ensures Valid() && unchanged(this`computed, this`lastAccessed)
      ensures MoveOutcome(old(pools), old(blockTables), group.GetSeqs(RUNNING), GPU, CPU,
                          numTotalGpuBlocks, numTotalCpuBlocks, r, pools, blockTables, m, outOfBlocks)
      ensures old(SwapOutFits(group)) ==> !outOfBlocks
    {
      var running := group.GetSeqs(RUNNING);
      WithStatusDistinct(group.seqs, RUNNING);
      var res, p, tables, mapping, oob := MoveTables(pools, blockTables, running, GPU, CPU, numTotalGpuBlocks, numTotalCpuBlocks);
      if SwapOutFits(group) {
        FitsNoShortage(pools, blockTables, group.seqs, RUNNING, GPU, CPU, numTotalGpuBlocks, numTotalCpuBlocks,
                       res, p, tables, mapping, oob, 0, 0);
      }
      pools, blockTables := p, tables;
      return res, mapping, oob;
    }

    /**
     * free: nothing for a sequence without a table; otherwise each distinct block of its
     * table is freed once and the table is deleted (left in place when a free fails).
     */
    method Free(s: Sequence) returns (r: Result<(), ManagerError>)
      requires Valid()
      modifies this
      ensures Valid() && unchanged(this`computed, this`lastAccessed)
      ensures s.seqId !in old(blockTables) ==> r == Ok(()) && blockTables == old(blockTables) && pools == old(pools)
      ensures s.seqId in old(blockTables) ==>
        var res := FreeAll(old(pools), Dedup(old(blockTables)[s.seqId]));
        (res.Err? ==> r == Err(res.error) && blockTables == old(blockTables)) &&
        (res.Ok? ==> r == Ok(()) && pools == res.value && blockTables == old(blockTables) - {s.seqId})
      ensures s.seqId in old(blockTables) && Held(old(blockTables)[s.seqId], old(pools)) ==>
        r == Ok(()) &&
        forall b :: old(pools).Known(b) ==>
          pools.Known(b) && pools.Count(b) == old(pools).Count(b) - (if b in old(blockTables)[s.seqId] then 1 else 0)
    {
      if s.seqId !in blockTables {
        return Ok(());
      }
      var t := blockTables[s.seqId];
      if Held(t, pools) {
        FreeTable(pools, t, numTotalGpuBlocks, numTotalCpuBlocks);
      }
      var p;
      r, p := FreeBlocks(pools, Dedup(t), numTotalGpuBlocks, numTotalCpuBlocks);
      pools := p;
      if r.Ok? {
        blockTables := blockTables - {s.seqId};
      }
    }

    /**
     * reset: every table is freed (in no particular order) and then all tables are dropped;
     * a failing free stops it with the tables still in place.  On success each block has
     * lost one reference per table holding it, and success is certain when every block
     * has at least that many.
     */
    method Reset() returns (r: Result<(), ManagerError>)
      requires Valid()
      modifies this
      ensures Valid() && unchanged(this`computed, this`lastAccessed)
      ensures r.Err? ==> blockTables == old(blockTables)
      ensures r.Ok? ==>
        blockTables == map[] &&
        forall b :: old(pools).Known(b) ==>
          pools.Known(b) && pools.Count(b) == old(pools).Count(b) - HoldersIn(old(blockTables), old(blockTables).Keys, b)
      ensures (forall b :: old(pools).Known(b) ==> old(pools).Count(b) >= HoldersIn(old(blockTables), old(blockTables).Keys, b)) ==>
        r.Ok?
      ensures old(blockTables) == map[] ==> r == Ok(()) && pools == old(pools)
    {
      ghost var p0 := pools;
      ghost var tables := blockTables;
      ghost var enough := forall b :: p0.Known(b) ==> p0.Count(b) >= HoldersIn(tables, tables.Keys, b);
      var remaining := blockTables.Keys;
      assert tables.Keys - remaining == {};
      while remaining != {}
        invariant remaining <= blockTables.Keys && blockTables == tables
        invariant Valid() && unchanged(this`computed, this`lastAccessed)
        invariant tables == map[] ==> pools == p0
        invariant ResetInv(p0, tables, remaining, pools, enough)
        decreases remaining
      {
        assert exists id :: id in remaining by {
          if forall id :: id !in remaining {
            assert false;
          }
        }
        var id :| id in remaining;
        var t := blockTables[id];
        if enough {
          ResetStepHeld(p0, tables, remaining, id, pools);
          FreeTable(pools, t, numTotalGpuBlocks, numTotalCpuBlocks);
        }
        ghost var before := pools;
        var res, p := FreeBlocks(pools, Dedup(t), numTotalGpuBlocks, numTotalCpuBlocks);
        pools := p;
        if res.Err? {
          return res;
        }
        ResetStep(p0, tables, remaining, id, before, pools, enough);
        remaining := remaining - {id};
      }
      assert tables.Keys - remaining == tables.Keys;
      blockTables := map[];
      return Ok(());
    }

    /** get_block_table: the numbers of the sequence's blocks; KeyError without a table. */
    function GetBlockTable(s: Sequence): (r: Result<seq<nat>, ManagerError>)
      reads this
      ensures r.Err? <==> s.seqId !in blockTables
      ensures r.Ok? ==> r.value == BlockNumbers(blockTables[s.seqId])
    {
      if s.seqId !in blockTables then Err(KeyError) else Ok(BlockNumbers(blockTables[s.seqId]))
    }

    /** access_all_blocks_in_seq: every block of the sequence's table gets `accessTime`; KeyError without a table. */
    method AccessAllBlocksInSeq(s: Sequence, accessTime: real) returns (r: Result<(), ManagerError>)
      modifies this
      ensures pools == old(pools) && blockTables == old(blockTables) && computed == old(computed)
      ensures r.Err? <==> s.seqId !in blockTables
      ensures r.Err? ==> r.error == KeyError && lastAccessed == old(lastAccessed)
      ensures r.Ok? ==>
        (forall b :: b in lastAccessed <==> b in old(lastAccessed) || b in blockTables[s.seqId]) &&
        forall b :: b in lastAccessed ==>
          lastAccessed[b] == if b in blockTables[s.seqId] then accessTime else old(lastAccessed)[b]
    {
      if s.seqId !in blockTables {
        return Err(KeyError);
      }
      var t := blockTables[s.seqId];
      var times := lastAccessed;
      for k := 0 to |t|
        invariant forall b :: b in times <==> b in lastAccessed || b in t[..k]
        invariant forall b :: b in times ==> times[b] == if b in t[..k] then accessTime else lastAccessed[b]
      {
        assert t[..k + 1] == t[..k] + [t[k]];
        times := times[t[k] := accessTime];
      }
      assert t[..|t|] == t;
      lastAccessed := times;
      return Ok(());
    }

    /**
     * compute_last_full_block_in_seq: the block holding the sequence's last full block is
     * marked computed (see LastFullBlock); nothing else changes.
     */
    method ComputeLastFullBlockInSeq(s: Sequence) returns (r: Result<(), ManagerError>)
      requires blockSize > 0
      modifies this
      ensures pools == old(pools) && blockTables == old(blockTables) && lastAccessed == old(lastAccessed)
      ensures var full := LastFullBlock(blockTables, s, blockSize);
        (full.Err? ==> r == Err(full.error) && computed == old(computed)) &&
        (full.Ok? ==> r == Ok(()) && computed == old(computed) + (if full.value.Some? then {full.value.value} else {}))
    {
      if s.seqId !in blockTables {
        return Ok(());
      }
      var maxFullBlock := s.GetLen() / blockSize - 1;
      var t := blockTables[s.seqId];
      if maxFullBlock == -1 {
        return Ok(());
      }
      if maxFullBlock >= |t| {
        return Err(IndexError);
      }
      computed := computed + {t[maxFullBlock]};
      return Ok(());
    }

    /**
     * get_all_block_ids_till_computed: scanning the table from its end, the numbers of the
     * blocks up to the first computed one met; [] without a table or a computed block.
     */
    method GetAllBlockIdsTillComputed(s: Sequence) returns (ids: seq<nat>)
      ensures s.seqId !in blockTables ==> ids == []
      ensures s.seqId in blockTables ==> ids == TillComputed(blockTables[s.seqId], computed)
    {
      if s.seqId !in blockTables {
        return [];
      }
      var t := blockTables[s.seqId];
      var blockIdx := |t|;
      while blockIdx > 0
        invariant 0 <= blockIdx <= |t|
        invariant forall j :: blockIdx <= j < |t| ==> t[j] !in computed
      {
        blockIdx := blockIdx - 1;
        if t[blockIdx] in computed {
          return BlockNumbers(t[..blockIdx + 1]);
        }
      }
      return [];
    }

    /** The block ids till computed of each sequence, in order. */
    ghost function IdsLists(ss: seq<Sequence>): (lists: seq<seq<nat>>)
      reads this
      ensures |lists| == |ss|
    {
      seq(|ss|, k requires 0 <= k < |ss| reads this =>
        if ss[k].seqId in blockTables then TillComputed(blockTables[ss[k].seqId], computed) else [])
    }

    /**
     * get_common_computed_block_ids: [] unless caching is enabled; otherwise the longest
     * common prefix of the group's non-empty block ids till computed.
     */
    method GetCommonComputedBlockIds(group: SequenceGroup) returns (ids: seq<nat>)
      ensures !enableCaching ==> ids == []
      ensures enableCaching ==> ids == CommonPrefix(NonEmpty(IdsLists(group.seqs)))
    {
      if !enableCaching {
        return [];
      }
      var lists: seq<seq<nat>> := [];
      for k := 0 to |group.seqs|
        invariant lists == IdsLists(group.seqs[..k])
      {
        var l := GetAllBlockIdsTillComputed(group.seqs[k]);
        lists := lists + [l];
      }
      assert group.seqs[..|group.seqs|] == group.seqs;
      return CommonPrefix(NonEmpty(lists));
    }

    /**
     * mark_blocks_as_computed: with caching enabled, the last full block of each sequence of
     * the group is marked computed, in order, stopping at the first IndexError.
     */
    method MarkBlocksAsComputed(group: SequenceGroup) returns (r: Result<(), ManagerError>)
      requires blockSize > 0
      modifies this
      ensures pools == old(pools) && blockTables == old(blockTables) && lastAccessed == old(lastAccessed)
      ensures !enableCaching ==> r == Ok(()) && computed == old(computed)
      ensures enableCaching ==> computed >= old(computed)
      ensures enableCaching ==>
        (r.Ok? <==> forall k :: 0 <= k < |group.seqs| ==> LastFullBlock(blockTables, group.seqs[k], blockSize).Ok?)
      ensures enableCaching && r.Ok? ==>
        forall k :: 0 <= k < |group.seqs| && LastFullBlock(blockTables, group.seqs[k], blockSize).value.Some? ==>
          LastFullBlock(blockTables, group.seqs[k], blockSize).value.value in computed
    {
      if !enableCaching {
        return Ok(());
      }
      for k := 0 to |group.seqs|
        invariant pools == old(pools) && blockTables == old(blockTables) && lastAccessed == old(lastAccessed)
        invariant computed >= old(computed)
        invariant forall j :: 0 <= j < k ==> LastFullBlock(blockTables, group.seqs[j], blockSize).Ok?
        invariant forall j :: 0 <= j < k && LastFullBlock(blockTables, group.seqs[j], blockSize).value.Some? ==>
          LastFullBlock(blockTables, group.seqs[j], blockSize).value.value in computed
      {
        var step := ComputeLastFullBlockInSeq(group.seqs[k]);
        if step.Err? {
          return step;
        }
      }
      return Ok(());
    }
  }
}
