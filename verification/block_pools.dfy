/**
 * The per-device block allocators that vllm/core/block/block_space_manager.py calls
 * (`allocate`, `free`, `get_num_free_blocks` and the `ref_count` of a block).  The allocator
 * class itself is not part of this model; it is taken to be the uncached allocator: a free
 * list per device, created as 0, ..., n - 1, that hands out its last entry at count 1, and
 * a free that drops one reference and returns the block to the end of the list at count 0.
 */
module BlockPools {
  import opened Wrappers

  datatype Device = GPU | CPU

  /** A physical block: the device holding it and its number there. */
  datatype PhysicalBlock = PhysicalBlock(device: Device, blockNumber: nat)

  /** The errors of the block managers. */
  datatype ManagerError =
    AssertionError | KeyError | IndexError | ValueError | ZeroDivisionError | NotImplementedError | NoFreeBlocksError

  /** One device's allocator: the count of each of its block numbers and its free list. */
  datatype DevicePool = DevicePool(refCount: map<nat, int>, free: seq<nat>)

  /** The allocators of both devices. */
  datatype Pools = Pools(gpu: DevicePool, cpu: DevicePool)
  {
    function Of(d: Device): DevicePool
    {
      if d == GPU then gpu else cpu
    }

    function With(d: Device, pool: DevicePool): (p: Pools)
      ensures p.Of(d) == pool && forall e :: e != d ==> p.Of(e) == Of(e)
    {
      if d == GPU then this.(gpu := pool) else this.(cpu := pool)
    }

    /** Whether a block is one of the managed blocks. */
    predicate Known(b: PhysicalBlock)
    {
      b.blockNumber in Of(b.device).refCount
    }

    /** The `ref_count` of a managed block. */
    function Count(b: PhysicalBlock): int
      requires Known(b)
    {
      Of(b.device).refCount[b.blockNumber]
    }
  }

  /** No number appears twice in a free list. */
  ghost predicate NoDuplicates(free: seq<nat>)
  {
    forall i, j :: 0 <= i < j < |free| ==> free[i] != free[j]
  }

  /**
   * A device allocator over blocks 0, ..., n - 1: counts are non-negative, the free list
   * holds managed numbers without repeats, and a block is free exactly when its count is 0.
   */
  ghost predicate DeviceValid(pool: DevicePool, n: nat)
  {
    (forall i: nat :: i in pool.refCount <==> i < n) &&
    NoDuplicates(pool.free) &&
    (forall i :: i in pool.refCount ==> pool.refCount[i] >= 0 && (i in pool.free <==> pool.refCount[i] == 0)) &&
    (forall k :: 0 <= k < |pool.free| ==> pool.free[k] in pool.refCount)
  }

  ghost predicate PoolsValid(p: Pools, numGpu: nat, numCpu: nat)
  {
    DeviceValid(p.gpu, numGpu) && DeviceValid(p.cpu, numCpu)
  }

  /** Count 0 for each of the numbers 0, ..., n - 1. */
  function ZeroCounts(n: nat): (counts: map<nat, int>)
    ensures forall i: nat :: i in counts <==> i < n
    ensures forall i :: i in counts ==> counts[i] == 0
  {
    if n == 0 then map[] else ZeroCounts(n - 1)[n - 1 := 0]
  }

  /** A new allocator over n blocks: all free, at count 0, listed in order. */
  function InitialPool(n: nat): (pool: DevicePool)
    ensures DeviceValid(pool, n) && |pool.free| == n
  {
    var pool := DevicePool(ZeroCounts(n), seq(n, i => i));
    assert forall i :: i in pool.refCount ==> (i in pool.free <==> pool.refCount[i] == 0) by {
      forall i | i in pool.refCount
        ensures i in pool.free
      {
        assert pool.free[i] == i;
      }
    }
    pool
  }

  /** `allocate` on one device: ValueError when nothing is free, else the last free block at count 1. */
  function Allocate(pool: DevicePool): (r: Result<(nat, DevicePool), ManagerError>)
  {
    if pool.free == [] then Err(ValueError)
    else
      var i := pool.free[|pool.free| - 1];
      Ok((i, DevicePool(pool.refCount[i := 1], pool.free[..|pool.free| - 1])))
  }

  /** `free` on one device: ValueError (a double free) at count 0, else one reference less. */
  function Free(pool: DevicePool, i: nat): (r: Result<DevicePool, ManagerError>)
  {
    if i !in pool.refCount || pool.refCount[i] <= 0 then Err(ValueError)
    else
      var count := pool.refCount[i] - 1;
      Ok(DevicePool(pool.refCount[i := count], if count == 0 then pool.free + [i] else pool.free))
  }

  /** Allocation on a device of the pair. */
  function AllocateOn(p: Pools, d: Device): (r: Result<(PhysicalBlock, Pools), ManagerError>)
  {
    match Allocate(p.Of(d))
    case Err(e) => Err(e)
    case Ok((i, pool)) => Ok((PhysicalBlock(d, i), p.With(d, pool)))
  }

  /** A free of a block, on its own device's allocator. */
  function FreeBlock(p: Pools, b: PhysicalBlock): (r: Result<Pools, ManagerError>)
  {
    match Free(p.Of(b.device), b.blockNumber)
    case Err(e) => Err(e)
    case Ok(pool) => Ok(p.With(b.device, pool))
  }

  /** `block.ref_count += 1`. */
  function IncrBlock(p: Pools, b: PhysicalBlock): Pools
    requires p.Known(b)
  {
    var pool := p.Of(b.device);
    p.With(b.device, pool.(refCount := pool.refCount[b.blockNumber := pool.refCount[b.blockNumber] + 1]))
  }

  /** Every block of `blocks` is a managed block with at least one reference. */
  ghost predicate Held(blocks: seq<PhysicalBlock>, p: Pools)
  {
    forall k :: 0 <= k < |blocks| ==> p.Known(blocks[k]) && p.Count(blocks[k]) > 0
  }

  /** Allocation hands out a free block, now at count 1, and keeps the invariant. */
  lemma AllocateKeepsDeviceValid(pool: DevicePool, n: nat)
    requires DeviceValid(pool, n)
    ensures Allocate(pool).Err? <==> pool.free == []
    ensures Allocate(pool).Ok? ==>
      var (i, pool') := Allocate(pool).value;
      DeviceValid(pool', n) && i in pool.refCount && pool.refCount[i] == 0 && i in pool.free &&
      pool'.refCount == pool.refCount[i := 1] && pool'.free == pool.free[..|pool.free| - 1]
  {
    if pool.free != [] {
      var free := pool.free;
      var i := free[|free| - 1];
      var pool' := Allocate(pool).value.1;
      assert free == pool'.free + [i];
      forall j | j in pool'.refCount
        ensures j in pool'.free <==> pool'.refCount[j] == 0
      {
        if j != i {
          assert j in free <==> j in pool'.free;
        }
      }
    }
  }

  /** A free of a block with references drops one and keeps the invariant. */
  lemma FreeKeepsDeviceValid(pool: DevicePool, i: nat, n: nat)
    requires DeviceValid(pool, n)
    ensures Free(pool, i).Err? <==> i !in pool.refCount || pool.refCount[i] == 0
    ensures Free(pool, i).Ok? ==>
      DeviceValid(Free(pool, i).value, n) && Free(pool, i).value.refCount == pool.refCount[i := pool.refCount[i] - 1]
  {
    if i in pool.refCount && pool.refCount[i] > 0 {
      var pool' := Free(pool, i).value;
      assert i !in pool.free;
      if pool.refCount[i] == 1 {
        AppendFreshNoDuplicates(pool.free, i);
        FreedDeviceValid(pool, i, n);
      } else {
        assert pool'.free == pool.free;
      }
    }
  }

  /** A number not yet in a free list can be appended without a repeat. */
  lemma AppendFreshNoDuplicates(free: seq<nat>, i: nat)
    requires NoDuplicates(free) && i !in free
    ensures NoDuplicates(free + [i])
  {
    var free' := free + [i];
    forall a, b | 0 <= a < b < |free'|
      ensures free'[a] != free'[b]
    {
      assert free'[a] == free[a];
      if b < |free| {
        assert free'[b] == free[b];
      }
    }
  }

  /** The last reference to a block dropped: it joins the free list at count 0. */
  lemma FreedDeviceValid(pool: DevicePool, i: nat, n: nat)
    requires DeviceValid(pool, n) && i in pool.refCount && pool.refCount[i] == 1
    requires NoDuplicates(pool.free + [i])
    ensures DeviceValid(DevicePool(pool.refCount[i := 0], pool.free + [i]), n)
  {
    var pool' := DevicePool(pool.refCount[i := 0], pool.free + [i]);
    forall j | j in pool'.refCount
      ensures j in pool'.free <==> pool'.refCount[j] == 0
    {
      assert j in pool'.free <==> j in pool.free || j == i;
    }
    forall k | 0 <= k < |pool'.free|
      ensures pool'.free[k] in pool'.refCount
    {
      if k < |pool.free| {
        assert pool'.free[k] == pool.free[k];
      }
    }
  }

  lemma AllocateOnKeepsValid(p: Pools, d: Device, numGpu: nat, numCpu: nat)
    requires PoolsValid(p, numGpu, numCpu)
    ensures AllocateOn(p, d).Err? <==> p.Of(d).free == []
    ensures AllocateOn(p, d).Err? ==> AllocateOn(p, d).error == ValueError
    ensures AllocateOn(p, d).Ok? ==>
      var (b, p') := AllocateOn(p, d).value;
      PoolsValid(p', numGpu, numCpu) && b.device == d && p.Known(b) && p.Count(b) == 0 &&
      b.blockNumber in p.Of(d).free && p'.Known(b) && p'.Count(b) == 1 &&
      p'.Of(d).free == p.Of(d).free[..|p.Of(d).free| - 1] &&
      p'.Of(d).refCount == p.Of(d).refCount[b.blockNumber := 1] &&
      (forall e :: e != d ==> p'.Of(e) == p.Of(e))
  {
    AllocateKeepsDeviceValid(p.Of(d), if d == GPU then numGpu else numCpu);
  }

  lemma FreeBlockKeepsValid(p: Pools, b: PhysicalBlock, numGpu: nat, numCpu: nat)
    requires PoolsValid(p, numGpu, numCpu)
    ensures FreeBlock(p, b).Err? <==> !p.Known(b) || p.Count(b) == 0
    ensures FreeBlock(p, b).Err? ==> FreeBlock(p, b).error == ValueError
    ensures FreeBlock(p, b).Ok? ==>
      var p' := FreeBlock(p, b).value;
      PoolsValid(p', numGpu, numCpu) &&
      p'.Of(b.device).refCount == p.Of(b.device).refCount[b.blockNumber := p.Count(b) - 1] &&
      (forall e :: e != b.device ==> p'.Of(e) == p.Of(e))
  {
    FreeKeepsDeviceValid(p.Of(b.device), b.blockNumber, if b.device == GPU then numGpu else numCpu);
  }

  /** One more reference to a held block keeps the invariant. */
  lemma IncrKeepsValid(p: Pools, b: PhysicalBlock, numGpu: nat, numCpu: nat)
    requires PoolsValid(p, numGpu, numCpu) && p.Known(b) && p.Count(b) > 0
    ensures PoolsValid(IncrBlock(p, b), numGpu, numCpu)
    ensures IncrBlock(p, b).Count(b) == p.Count(b) + 1
  {
    var pool := p.Of(b.device);
    var pool' := IncrBlock(p, b).Of(b.device);
    assert pool'.free == pool.free;
  }

  /** Freeing the block just allocated gives back the allocator as it was. */
  lemma AllocateThenFree(pool: DevicePool, n: nat)
    requires DeviceValid(pool, n) && pool.free != []
    ensures var (i, pool') := Allocate(pool).value;
      Free(pool', i) == Ok(pool)
  {
    AllocateKeepsDeviceValid(pool, n);
    var (i, pool') := Allocate(pool).value;
    assert pool.free[..|pool.free| - 1] + [i] == pool.free;
    assert pool'.refCount[i := 0] == pool.refCount;
  }

  /** The blocks of `table`, each once, in order of first occurrence. */
  function Dedup(table: seq<PhysicalBlock>): (r: seq<PhysicalBlock>)
    ensures forall b :: b in r <==> b in table
    ensures forall i, j :: 0 <= i < j < |r| ==> r[i] != r[j]
  {
    if table == [] then []
    else
      var init := Dedup(table[..|table| - 1]);
      var last := table[|table| - 1];
      if last in init then init else init + [last]
  }

  /** Successive frees of `blocks`, stopping at the first error. */
  function FreeAll(p: Pools, blocks: seq<PhysicalBlock>): Result<Pools, ManagerError>
    decreases |blocks|
  {
    if blocks == [] then Ok(p)
    else match FreeBlock(p, blocks[0])
      case Err(e) => Err(e)
      case Ok(p') => FreeAll(p', blocks[1..])
  }

  /**
   * Freeing distinct held blocks succeeds, keeps the invariant and drops exactly one
   * reference from each of them.
   */
  lemma {:induction false} FreeAllDistinct(p: Pools, blocks: seq<PhysicalBlock>, numGpu: nat, numCpu: nat)
    requires PoolsValid(p, numGpu, numCpu) && Held(blocks, p)
    requires forall i, j :: 0 <= i < j < |blocks| ==> blocks[i] != blocks[j]
    ensures FreeAll(p, blocks).Ok?
    ensures PoolsValid(FreeAll(p, blocks).value, numGpu, numCpu)
    ensures forall b :: p.Known(b) ==>
      (FreeAll(p, blocks).value.Known(b) &&
       FreeAll(p, blocks).value.Count(b) == if b in blocks then p.Count(b) - 1 else p.Count(b))
    decreases |blocks|
  {
    if blocks != [] {
      FreeBlockKeepsValid(p, blocks[0], numGpu, numCpu);
      var p' := FreeBlock(p, blocks[0]).value;
      var rest := blocks[1..];
      assert Held(rest, p') by {
        forall k | 0 <= k < |rest|
          ensures p'.Known(rest[k]) && p'.Count(rest[k]) > 0
        {
          assert rest[k] == blocks[k + 1] && blocks[k + 1] != blocks[0];
        }
      }
      FreeAllDistinct(p', rest, numGpu, numCpu);
      assert FreeAll(p, blocks) == FreeAll(p', rest);
      forall b | p.Known(b)
        ensures FreeAll(p, blocks).value.Known(b) &&
          FreeAll(p, blocks).value.Count(b) == if b in blocks then p.Count(b) - 1 else p.Count(b)
      {
        FreeBlockCount(p, blocks[0], b);
        assert b in blocks <==> b == blocks[0] || b in rest;
        if b == blocks[0] {
          assert b !in rest;
        }
      }
    }
  }

  /** A free of distinct blocks that succeeds has taken exactly one reference from each of them. */
  lemma {:induction false} FreeAllOkCount(p: Pools, blocks: seq<PhysicalBlock>)
    requires FreeAll(p, blocks).Ok?
    requires forall i, j :: 0 <= i < j < |blocks| ==> blocks[i] != blocks[j]
    ensures forall b :: p.Known(b) ==>
      FreeAll(p, blocks).value.Known(b) &&
      FreeAll(p, blocks).value.Count(b) == p.Count(b) - (if b in blocks then 1 else 0)
    decreases |blocks|
  {
    if blocks != [] {
      var p' := FreeBlock(p, blocks[0]).value;
      var rest := blocks[1..];
      assert FreeAll(p, blocks) == FreeAll(p', rest);
      FreeAllOkCount(p', rest);
      forall b | p.Known(b)
        ensures FreeAll(p, blocks).value.Known(b) &&
          FreeAll(p, blocks).value.Count(b) == p.Count(b) - (if b in blocks then 1 else 0)
      {
        FreeBlockCount(p, blocks[0], b);
        assert b in blocks <==> b == blocks[0] || b in rest;
        if b == blocks[0] {
          forall k | 0 <= k < |rest|
            ensures rest[k] != b
          {
            assert rest[k] == blocks[k + 1];
          }
        }
      }
    }
  }

  /** A successful free changes the freed block's count and no other. */
  lemma FreeBlockCount(p: Pools, c: PhysicalBlock, b: PhysicalBlock)
    requires FreeBlock(p, c).Ok? && p.Known(b)
    ensures FreeBlock(p, c).value.Known(b)
    ensures FreeBlock(p, c).value.Count(b) == p.Count(b) - (if c == b then 1 else 0)
  {
    if c != b && c.device == b.device {
      assert c.blockNumber != b.blockNumber;
    }
  }

  /** The allocators after one `ref_count += 1` for each of the first n blocks of `table`, in order. */
  ghost function IncrPrefixBlocks(p: Pools, table: seq<PhysicalBlock>, n: nat): (r: Pools)
    requires n <= |table| && forall k :: 0 <= k < |table| ==> p.Known(table[k])
    ensures forall b :: p.Known(b) ==> r.Known(b)
    ensures r.gpu.free == p.gpu.free && r.cpu.free == p.cpu.free
    decreases n
  {
    if n == 0 then p
    else IncrBlock(IncrPrefixBlocks(p, table, n - 1), table[n - 1])
  }

  /** Incrementing held blocks keeps the invariant, and they stay held. */
  lemma {:induction false} IncrPrefixKeepsValid(p: Pools, table: seq<PhysicalBlock>, n: nat, numGpu: nat, numCpu: nat)
    requires PoolsValid(p, numGpu, numCpu) && n <= |table| && Held(table, p)
    ensures PoolsValid(IncrPrefixBlocks(p, table, n), numGpu, numCpu)
    ensures Held(table, IncrPrefixBlocks(p, table, n))
    decreases n
  {
    if n > 0 {
      IncrPrefixKeepsValid(p, table, n - 1, numGpu, numCpu);
      var before := IncrPrefixBlocks(p, table, n - 1);
      IncrKeepsValid(before, table[n - 1], numGpu, numCpu);
      IncrStaysHeld(before, table, table[n - 1]);
    }
  }

  lemma IncrStaysHeld(p: Pools, table: seq<PhysicalBlock>, b: PhysicalBlock)
    requires Held(table, p) && p.Known(b) && p.Count(b) > 0
    ensures Held(table, IncrBlock(p, b))
  {
    var p' := IncrBlock(p, b);
    forall k | 0 <= k < |table|
      ensures p'.Known(table[k]) && p'.Count(table[k]) > 0
    {
      var c := table[k];
      if c.device == b.device && c.blockNumber != b.blockNumber {
        assert p'.Of(c.device).refCount[c.blockNumber] == p.Of(c.device).refCount[c.blockNumber];
      }
    }
  }

  /** Counts after the first n increments: each block has gained its occurrences among them. */
  lemma {:induction false} IncrPrefixBlocksCount(p: Pools, table: seq<PhysicalBlock>, n: nat, b: PhysicalBlock)
    requires n <= |table| && forall k :: 0 <= k < |table| ==> p.Known(table[k])
    requires p.Known(b)
    ensures IncrPrefixBlocks(p, table, n).Count(b) == p.Count(b) + multiset(table[..n])[b]
    decreases n
  {
    if n > 0 {
      IncrPrefixBlocksCount(p, table, n - 1, b);
      var c := table[n - 1];
      PrefixCountStep(table, n, b);
      IncrBlockCount(IncrPrefixBlocks(p, table, n - 1), c, b);
    }
  }

  /** Lengthening a prefix by one element counts that element once more. */
  lemma PrefixCountStep<T>(s: seq<T>, n: nat, x: T)
    requires 0 < n <= |s|
    ensures multiset(s[..n])[x] == multiset(s[..n - 1])[x] + (if s[n - 1] == x then 1 else 0)
  {
    assert s[..n] == s[..n - 1] + [s[n - 1]];
  }

  /** `ref_count += 1` on one block changes that block's count and no other. */
  lemma IncrBlockCount(p: Pools, c: PhysicalBlock, b: PhysicalBlock)
    requires p.Known(c) && p.Known(b)
    ensures IncrBlock(p, c).Known(b)
    ensures IncrBlock(p, c).Count(b) == p.Count(b) + (if c == b then 1 else 0)
  {
    if c != b && c.device == b.device {
      assert c.blockNumber != b.blockNumber;
    }
  }

  /** The managed blocks are fixed by the invariant. */
  lemma KnownAllStable(p: Pools, p': Pools, numGpu: nat, numCpu: nat)
    requires PoolsValid(p, numGpu, numCpu) && PoolsValid(p', numGpu, numCpu)
    ensures forall b :: p.Known(b) <==> p'.Known(b)
  {
  }

  /** The managed blocks are fixed by the invariant. */
  lemma KnownStable(p: Pools, p': Pools, b: PhysicalBlock, numGpu: nat, numCpu: nat)
    requires PoolsValid(p, numGpu, numCpu) && PoolsValid(p', numGpu, numCpu)
    ensures p.Known(b) <==> p'.Known(b)
  {
  }

  /** Dropping repeats keeps a table held. */
  lemma DedupHeld(blocks: seq<PhysicalBlock>, p: Pools)
    requires Held(blocks, p)
    ensures Held(Dedup(blocks), p)
  {
    var d := Dedup(blocks);
    forall k | 0 <= k < |d|
      ensures p.Known(d[k]) && p.Count(d[k]) > 0
    {
      assert d[k] in blocks;
      var j :| 0 <= j < |blocks| && blocks[j] == d[k];
    }
  }
}
