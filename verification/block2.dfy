/**
 * The earlier block allocator of vllm/block2.py: a NaiveBlock whose append does nothing and
 * whose physical id can be reassigned, and a NaiveBlockAllocator over range(num_blocks)
 * without copy-on-write.  Its counter is the same RefCounter as vllm/core/block/common.py,
 * and its allocation and free steps are those of the later allocator
 * (NaiveBlockAllocation.AllocateNewStep and FreeIndexStep), with no copies recorded.
 */
module Block2 {
  import opened Wrappers
  import opened BlockCommon
  import NA = NaiveBlockAllocation

  /** `results` are the outcomes of successive _allocate_new_block calls through `states`. */
  ghost predicate AllocTrace(states: seq<NA.AllocState>, results: seq<Result<int, BlockError>>)
  {
    |states| == |results| + 1 &&
    forall k :: 0 <= k < |results| ==> NA.AllocateNewStep(states[k], states[k + 1], results[k])
  }

  /**
   * With n ids free, n allocations in a row all succeed and hand out n distinct free ids; the
   * allocator is then out of ids and the next allocation raises NoFreeBlocksError.
   */
  lemma {:induction false} AllocateUntilOom(states: seq<NA.AllocState>, results: seq<Result<int, BlockError>>,
                                            all: set<int>)
    requires AllocTrace(states, results) && NA.Inv(states[0], all) && |results| == |states[0].free|
    ensures forall k :: 0 <= k < |results| ==> results[k].Ok? && results[k].value in states[0].free
    ensures forall j, k :: 0 <= j < k < |results| ==> results[j].value != results[k].value
    ensures states[|results|].free == {} && NA.Inv(states[|results|], all)
    ensures forall s', r :: NA.AllocateNewStep(states[|results|], s', r) ==> r == Err(NoFreeBlocksError)
    decreases |results|
  {
    if |results| > 0 {
      NA.AllocatePreservesInv(states[0], states[1], all, results[0]);
      var tail := states[1..];
      assert AllocTrace(tail, results[1..]) by {
        forall k | 0 <= k < |results[1..]|
          ensures NA.AllocateNewStep(tail[k], tail[k + 1], results[1..][k])
        {
          assert NA.AllocateNewStep(states[k + 1], states[k + 2], results[k + 1]);
        }
      }
      AllocateUntilOom(tail, results[1..], all);
      forall k | 1 <= k < |results|
        ensures results[k].Ok? && results[k].value in states[1].free
      {
        assert results[k] == results[1..][k - 1];
      }
    }
  }

  /** NaiveBlock of vllm/block2.py: a copy of its token ids, its predecessor and its physical id. */
  class NaiveBlock {
    const prev: NaiveBlock?
    var tokenIds: seq<int>
    var physicalBlockIndex: Option<int>

    constructor(prev: NaiveBlock?, tokenIds: seq<int>, physicalBlockIndex: Option<int>)
      ensures this.prev == prev && this.tokenIds == tokenIds && this.physicalBlockIndex == physicalBlockIndex
    {
      this.prev := prev;
      this.tokenIds := tokenIds;
      this.physicalBlockIndex := physicalBlockIndex;
    }

    /** append_token_ids is a stub: the block keeps its tokens and id. */
    method AppendTokenIds(tokens: seq<int>)
      ensures unchanged(this)
    {
    }

    /** The physical_block_index setter. */
    method SetPhysicalBlockIndex(value: Option<int>)
      modifies this
      ensures physicalBlockIndex == value && tokenIds == old(tokenIds)
    {
      physicalBlockIndex := value;
    }
  }

  /** NaiveBlockAllocator of vllm/block2.py: the ids 0, ..., num_blocks - 1 and their counts. */
  class NaiveBlockAllocator {
    var freeBlockIndices: set<nat>
    const allBlockIndices: set<nat>
    const refcounter: RefCounter

    ghost function State(): NA.AllocState
      reads this, refcounter
    {
      NA.AllocState(freeBlockIndices, refcounter.refcounts, map[])
    }

    ghost predicate Valid()
      reads this, refcounter
    {
      NA.Inv(State(), allBlockIndices)
    }

    /** __init__: every id in range(num_blocks) is free with count 0; block_size is not kept. */
    constructor(numBlocks: int, blockSize: int)
      ensures allBlockIndices == NA.Range(numBlocks)
      ensures State() == NA.AllocState(NA.Range(numBlocks), map i | i in NA.Range(numBlocks) :: 0, map[])
      ensures |freeBlockIndices| == if numBlocks <= 0 then 0 else numBlocks
      ensures Valid() && fresh(refcounter)
    {
      var ids := NA.Range(numBlocks);
      freeBlockIndices := ids;
      allBlockIndices := ids;
      refcounter := new RefCounter(ids);
      RangeSize(numBlocks);
    }

    /** _allocate_new_block: NoFreeBlocksError when nothing is free, else a free id moves to count 1. */
    method AllocateNewBlock() returns (r: Result<int, BlockError>)
      requires Valid()
      modifies this, refcounter
      ensures Valid() && NA.AllocateNewStep(old(State()), State(), r)
    {
      if freeBlockIndices == {} {
        return Err(NoFreeBlocksError);
      }
      var blockIndex :| blockIndex in freeBlockIndices;
      var _ := refcounter.Incr(blockIndex);
      freeBlockIndices := freeBlockIndices - {blockIndex};
      return Ok(blockIndex);
    }

    /** allocate_mutable: an empty block after `prev` holding a newly allocated id. */
    method AllocateMutable(prev: NaiveBlock?) returns (r: Result<NaiveBlock, BlockError>)
      requires Valid()
      modifies this, refcounter
      ensures Valid()
      ensures r.Err? ==> r.error == NoFreeBlocksError && old(freeBlockIndices) == {} && State() == old(State())
      ensures r.Ok? ==>
        fresh(r.value) && r.value.prev == prev && r.value.tokenIds == [] &&
        r.value.physicalBlockIndex.Some? &&
        NA.AllocateNewStep(old(State()), State(), Ok(r.value.physicalBlockIndex.value))
    {
      var blockIndex := AllocateNewBlock();
      if blockIndex.Err? {
        return Err(blockIndex.error);
      }
      var block := new NaiveBlock(prev, [], Some(blockIndex.value));
      return Ok(block);
    }

    /**
     * allocate_immutable: allocate_mutable followed by the stub append, so the block comes
     * back without the given tokens.
     */
    method AllocateImmutable(prev: NaiveBlock?, tokenIds: seq<int>) returns (r: Result<NaiveBlock, BlockError>)
      requires Valid()
      modifies this, refcounter
      ensures Valid()
      ensures r.Err? ==> r.error == NoFreeBlocksError && old(freeBlockIndices) == {} && State() == old(State())
      ensures r.Ok? ==>
        fresh(r.value) && r.value.prev == prev && r.value.tokenIds == [] &&
        r.value.physicalBlockIndex.Some? &&
        NA.AllocateNewStep(old(State()), State(), Ok(r.value.physicalBlockIndex.value))
    {
      r := AllocateMutable(prev);
      if r.Ok? {
        r.value.AppendTokenIds(tokenIds);
      }
    }

    /**
     * free: the block's id is cleared first, then one reference to the old id is dropped
     * (an assertion failure for a block without an id or with a free id); the id is free
     * again when its count reaches 0.
     */
    method Free(block: NaiveBlock) returns (r: Result<(), BlockError>)
      requires Valid()
      modifies this, refcounter, block
      ensures Valid()
      ensures block.physicalBlockIndex == None && block.tokenIds == old(block.tokenIds)
      ensures old(block.physicalBlockIndex).None? ==> r == Err(AssertionError) && State() == old(State())
      ensures old(block.physicalBlockIndex).Some? ==>
        NA.FreeIndexStep(old(State()), State(), old(block.physicalBlockIndex).value, r)
    {
      var blockIndex := block.physicalBlockIndex;
      block.SetPhysicalBlockIndex(None);
      if blockIndex.None? {
        return Err(AssertionError);
      }
      var refcount := refcounter.Decr(blockIndex.value);
      if refcount.Err? {
        return Err(refcount.error);
      }
      if refcount.value == 0 {
        freeBlockIndices := freeBlockIndices + {blockIndex.value};
      }
      NA.FreeIndexPreservesInv(old(State()), State(), allBlockIndices, blockIndex.value, Ok(()));
      return Ok(());
    }
  }

  /** range(n) holds n ids. */
  lemma {:induction false} RangeSize(n: int)
    ensures |NA.Range(n)| == if n <= 0 then 0 else n
    decreases n
  {
    if n > 0 {
      RangeSize(n - 1);
      var below := NA.Range(n - 1);
      assert n - 1 !in below;
      assert NA.Range(n) == below + {n - 1};
    }
  }
}
