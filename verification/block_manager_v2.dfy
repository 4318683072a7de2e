/**
 * BlockSpaceManagerV2 of vllm/core/block_manager_v2.py.  Its BlockTable and
 * CpuGpuBlockAllocator (vllm/core/block/block_table.py and
 * vllm/core/block/cpu_gpu_block_allocator.py) are not part of this model: a table is the
 * value of its token ids and its physical block ids, holding one block per block_size tokens
 * rounded up, and the allocator is seen only through the ids it hands out and its count of
 * free GPU blocks, both of which are inputs of the operations that use them.
 */
module BlockManagerV2 {
  import opened Wrappers
  import opened Sequences
  import opened BlockPools
  import V1 = BlockSpaceManagerV1

  /** get_num_required_blocks: the number of blocks that hold `numTokens` tokens, rounded up. */
  function NumRequiredBlocks(numTokens: nat, blockSize: nat): (r: nat)
    requires blockSize > 0
    ensures numTokens <= r * blockSize
    ensures r == 0 || (r - 1) * blockSize < numTokens
  {
    if numTokens == 0 then 0 else 1 + NumRequiredBlocks(if numTokens <= blockSize then 0 else numTokens - blockSize, blockSize)
  }

  /** One more token needs at most one more block. */
  lemma {:induction false} OneMoreTokenOneMoreBlock(n: nat, blockSize: nat)
    requires blockSize > 0
    ensures NumRequiredBlocks(n, blockSize) <= NumRequiredBlocks(n + 1, blockSize) <= NumRequiredBlocks(n, blockSize) + 1
    decreases n
  {
    if n >= blockSize {
      OneMoreTokenOneMoreBlock(n - blockSize, blockSize);
      assert n + 1 - blockSize == n - blockSize + 1;
    }
  }

  /** The block ids as the table stores them, each one present. */
  function Placed(ids: seq<nat>): (r: seq<Option<nat>>)
    ensures |r| == |ids| && forall k :: 0 <= k < |ids| ==> r[k] == Some(ids[k])
  {
    seq(|ids|, k requires 0 <= k < |ids| => Some(ids[k]))
  }

  /** A block table: the token ids it holds and the physical id of each of its blocks. */
  datatype BlockTable = BlockTable(tokenIds: seq<int>, physicalBlockIds: seq<Option<nat>>)
  {
    /** num_full_slots: every appended token occupies one slot. */
    function NumFullSlots(): nat
    {
      |tokenIds|
    }

    /** The table holds exactly the blocks its tokens need, each with a physical id. */
    predicate Fits(blockSize: nat)
      requires blockSize > 0
    {
      |physicalBlockIds| == NumRequiredBlocks(|tokenIds|, blockSize) &&
      forall k :: 0 <= k < |physicalBlockIds| ==> physicalBlockIds[k].Some?
    }
  }

  /** The new blocks a table of `t.physicalBlockIds` needs once it holds `numTokens` tokens. */
  function NumNewBlocks(t: BlockTable, numTokens: nat, blockSize: nat): nat
    requires blockSize > 0
  {
    var required := NumRequiredBlocks(numTokens, blockSize);
    if required <= |t.physicalBlockIds| then 0 else required - |t.physicalBlockIds|
  }

  /**
   * append_slot on table `t` for sequence `s`: the tokens past num_full_slots are appended
   * (an assertion failure when there are none), the allocator handing out `newIds` for the
   * blocks they need (NoFreeBlocksError when it has too few).
   */
  function AppendStep(t: BlockTable, s: Sequence, newIds: seq<nat>, blockSize: nat): (r: Result<BlockTable, ManagerError>)
    requires blockSize > 0
    ensures r == Err(AssertionError) <==> |s.tokenIds| <= |t.tokenIds|
    ensures r == Err(NoFreeBlocksError) <==>
      |t.tokenIds| < |s.tokenIds| && |newIds| < NumNewBlocks(t, |s.tokenIds|, blockSize)
    ensures r.Ok? ==>
      |r.value.tokenIds| == |s.tokenIds| && t.tokenIds <= r.value.tokenIds &&
      t.physicalBlockIds <= r.value.physicalBlockIds &&
      r.value.tokenIds[|t.tokenIds|..] == s.tokenIds[|t.tokenIds|..]
    ensures r.Ok? && t.Fits(blockSize) ==> r.value.Fits(blockSize)
  {
    var unseen := if |t.tokenIds| <= |s.tokenIds| then s.tokenIds[|t.tokenIds|..] else [];
    if unseen == [] then Err(AssertionError)
    else
      var tokens := t.tokenIds + unseen;
      assert |tokens| == |s.tokenIds|;
      var need := NumNewBlocks(t, |tokens|, blockSize);
      if |newIds| < need then Err(NoFreeBlocksError)
      else
        var r := BlockTable(tokens, t.physicalBlockIds + Placed(newIds[..need]));
        assert r.tokenIds[|t.tokenIds|..] == unseen;
        assert t.Fits(blockSize) ==> r.Fits(blockSize) by {
          if t.Fits(blockSize) {
            NumRequiredMonotone(|t.tokenIds|, |tokens|, blockSize);
          }
        }
        Ok(r)
  }

  /** More tokens never need fewer blocks. */
  lemma {:induction false} NumRequiredMonotone(m: nat, n: nat, blockSize: nat)
    requires blockSize > 0 && m <= n
    ensures NumRequiredBlocks(m, blockSize) <= NumRequiredBlocks(n, blockSize)
    decreases n - m
  {
    if m < n {
      OneMoreTokenOneMoreBlock(m, blockSize);
      NumRequiredMonotone(m + 1, n, blockSize);
    }
  }

  /**
   * A table whose tokens are a proper prefix of the sequence's holds exactly the sequence's
   * tokens after append_slot.
   */
  lemma AppendCatchesUp(t: BlockTable, s: Sequence, newIds: seq<nat>, blockSize: nat)
    requires blockSize > 0
    requires t.tokenIds < s.tokenIds
    requires |newIds| >= NumNewBlocks(t, |s.tokenIds|, blockSize)
    ensures AppendStep(t, s, newIds, blockSize) == Ok(AppendStep(t, s, newIds, blockSize).value)
    ensures AppendStep(t, s, newIds, blockSize).value.tokenIds == s.tokenIds
  {
    var r := AppendStep(t, s, newIds, blockSize).value;
    assert r.tokenIds == r.tokenIds[..|t.tokenIds|] + r.tokenIds[|t.tokenIds|..];
    assert s.tokenIds == s.tokenIds[..|t.tokenIds|] + s.tokenIds[|t.tokenIds|..];
  }

  /**
   * can_append_slot's heuristic suffices: a fitting table that is one token behind its
   * sequence needs at most one new block to catch up.
   */
  lemma OneTokenAppendNeedsOneBlock(t: BlockTable, s: Sequence, blockSize: nat)
    requires blockSize > 0 && t.Fits(blockSize)
    requires |s.tokenIds| == |t.tokenIds| + 1
    ensures NumNewBlocks(t, |s.tokenIds|, blockSize) <= 1
  {
    OneMoreTokenOneMoreBlock(|t.tokenIds|, blockSize);
  }

  /** The ids of a table that get_block_table returns: all of them, or None if one is missing. */
  function PlacedIds(ids: seq<Option<nat>>): (r: Option<seq<nat>>)
    ensures r.Some? ==> |r.value| == |ids|
  {
    if ids == [] then Some([])
    else if ids[0].None? then None
    else
      var rest := PlacedIds(ids[1..]);
      if rest.None? then None else Some([ids[0].value] + rest.value)
  }

  /** The ids come back exactly when every block has one, and then they are the table's ids. */
  lemma {:induction false} PlacedIdsMeaning(ids: seq<Option<nat>>)
    ensures PlacedIds(ids).Some? <==> forall k :: 0 <= k < |ids| ==> ids[k].Some?
    ensures PlacedIds(ids).Some? ==> Placed(PlacedIds(ids).value) == ids
    decreases |ids|
  {
    if ids != [] && ids[0].Some? {
      var tail := ids[1..];
      PlacedIdsMeaning(tail);
      var rest := PlacedIds(tail);
      if rest.None? {
        var k :| 0 <= k < |tail| && tail[k].None?;
        assert ids[k + 1] == tail[k];
      } else {
        forall k | 1 <= k < |ids|
          ensures ids[k].Some?
        {
          assert ids[k] == tail[k - 1];
        }
        assert Placed([ids[0].value] + rest.value) == [ids[0]] + tail;
        assert [ids[0]] + tail == ids;
      }
    }
  }

  class BlockSpaceManagerV2 {
    const blockSize: nat
    const numTotalGpuBlocks: nat
    const numTotalCpuBlocks: nat
    const watermark: real
    const watermarkBlocks: nat
    /** Mapping from sequence id to block table. */
    var blockTables: map<int, BlockTable>

    ghost predicate Valid()
      reads this
    {
      blockSize > 0 && forall id :: id in blockTables ==> blockTables[id].Fits(blockSize)
    }

    /** __init__ once its assertions have passed: no sequence has a table. */
    constructor(blockSize: nat, numGpuBlocks: nat, numCpuBlocks: nat, watermark: real)
      requires blockSize > 0 && watermark >= 0.0
      ensures Valid()
      ensures this.blockSize == blockSize && numTotalGpuBlocks == numGpuBlocks && numTotalCpuBlocks == numCpuBlocks
      ensures this.watermark == watermark && watermarkBlocks == V1.WatermarkBlocks(watermark, numGpuBlocks)
      ensures blockTables == map[]
    {
      this.blockSize := blockSize;
      numTotalGpuBlocks := numGpuBlocks;
      numTotalCpuBlocks := numCpuBlocks;
      this.watermark := watermark;
      watermarkBlocks := V1.WatermarkBlocks(watermark, numGpuBlocks);
      blockTables := map[];
    }

    /**
     * __init__: a sliding window, a negative watermark and prefix caching are each an
     * assertion failure; otherwise the manager starts with no tables.
     */
    static method Create(blockSize: nat, numGpuBlocks: nat, numCpuBlocks: nat, watermark: real,
                         slidingWindow: Option<nat>, enableCaching: bool)
      returns (r: Result<BlockSpaceManagerV2, ManagerError>)
      requires blockSize > 0
      ensures r.Err? <==> slidingWindow.Some? || watermark < 0.0 || enableCaching
      ensures r.Err? ==> r.error == AssertionError
      ensures r.Ok? ==>
        fresh(r.value) && r.value.Valid() && r.value.blockTables == map[] &&
        r.value.blockSize == blockSize && r.value.numTotalGpuBlocks == numGpuBlocks &&
        r.value.watermarkBlocks == V1.WatermarkBlocks(watermark, numGpuBlocks)
    {
      if slidingWindow.Some? || watermark < 0.0 || enableCaching {
        return Err(AssertionError);
      }
      var m := new BlockSpaceManagerV2(blockSize, numGpuBlocks, numCpuBlocks, watermark);
      return Ok(m);
    }

    /**
     * can_allocate with `numFreeGpuBlocks` free on the GPU: the first waiting sequence's
     * tokens need their blocks rounded up; NEVER when even an empty GPU would drop below the
     * watermark, OK when the free blocks stay at or above it, else LATER.
     */
    function CanAllocate(group: SequenceGroup, numFreeGpuBlocks: nat): (r: Result<V1.AllocStatus, ManagerError>)
      reads this
      requires blockSize > 0
      ensures r.Err? <==> group.GetSeqs(WAITING) == []
      ensures r.Err? ==> r.error == IndexError
      ensures r.Ok? ==>
        var required := NumRequiredBlocks(|group.GetSeqs(WAITING)[0].tokenIds|, blockSize);
        (r.value == V1.NEVER <==> numTotalGpuBlocks < required + watermarkBlocks) &&
        (r.value == V1.OK <==> required + watermarkBlocks <= numTotalGpuBlocks && required + watermarkBlocks <= numFreeGpuBlocks)
    {
      var waiting := group.GetSeqs(WAITING);
      if waiting == [] then Err(IndexError)
      else
        var required := NumRequiredBlocks(|waiting[0].tokenIds|, blockSize);
        Ok(V1.AllocDecision(numTotalGpuBlocks, numFreeGpuBlocks, required, watermarkBlocks))
    }

    /** can_append_slot: at least one free GPU block per running sequence. */
    function CanAppendSlot(group: SequenceGroup, numFreeGpuBlocks: nat): (r: bool)
      ensures r <==> |group.GetSeqs(RUNNING)| <= numFreeGpuBlocks
    {
      group.NumSeqs(RUNNING) <= numFreeGpuBlocks
    }

    /**
     * allocate: an assertion failure when a waiting sequence already has a table, IndexError
     * without a waiting sequence, NoFreeBlocksError when the allocator hands out fewer ids
     * than the first waiting prompt needs; otherwise the first waiting sequence gets a table
     * of its tokens on the first of `newIds`, and every other waiting sequence a fork of it.
     */
    method Allocate(group: SequenceGroup, newIds: seq<nat>) returns (r: Result<(), ManagerError>)
      requires Valid()
      modifies this
      ensures Valid()
      ensures SeqIds(group.GetSeqs(WAITING)) * old(blockTables).Keys != {} ==>
        r == Err(AssertionError) && blockTables == old(blockTables)
      ensures SeqIds(group.GetSeqs(WAITING)) * old(blockTables).Keys == {} ==>
        var waiting := group.GetSeqs(WAITING);
        if waiting == [] then r == Err(IndexError) && blockTables == old(blockTables)
        else
          var required := NumRequiredBlocks(|waiting[0].tokenIds|, blockSize);
          if |newIds| < required then r == Err(NoFreeBlocksError) && blockTables == old(blockTables)
          else
            r == Ok(()) &&
            blockTables == Assigned(old(blockTables), waiting, BlockTable(waiting[0].tokenIds, Placed(newIds[..required])))
    {
      var waiting := group.GetSeqs(WAITING);
      if SeqIds(waiting) * blockTables.Keys != {} {
        return Err(AssertionError);
      }
      if waiting == [] {
        return Err(IndexError);
      }
      var required := NumRequiredBlocks(|waiting[0].tokenIds|, blockSize);
      if |newIds| < required {
        return Err(NoFreeBlocksError);
      }
      var table := BlockTable(waiting[0].tokenIds, Placed(newIds[..required]));
      ghost var base := blockTables;
      blockTables := blockTables[waiting[0].seqId := table];
      assert waiting[..1] == [waiting[0]];
      ForkToRest(base, waiting, table);
      return Ok(());
    }

    /** The loop of allocate over the other waiting sequences: each gets a fork of the table. */
    method ForkToRest(ghost base: map<int, BlockTable>, waiting: seq<Sequence>, table: BlockTable)
      requires Valid() && table.Fits(blockSize)
      requires waiting != [] && blockTables == Assigned(base, waiting[..1], table)
      modifies this
      ensures Valid()
      ensures blockTables == Assigned(base, waiting, table)
    {
      var j := 1;
      while j < |waiting|
        invariant 1 <= j <= |waiting|
        invariant blockTables == Assigned(base, waiting[..j], table)
        invariant Valid()
      {
        assert waiting[..j + 1][..j] == waiting[..j];
        blockTables := blockTables[waiting[j].seqId := table];
        j := j + 1;
      }
      assert waiting[..j] == waiting;
    }

    /**
     * append_slot: KeyError for a sequence without a table, else the table takes the tokens
     * past its full slots as AppendStep says; no copy-on-write is reported.
     */
    method AppendSlot(s: Sequence, newIds: seq<nat>) returns (r: Result<Option<(nat, nat)>, ManagerError>)
      requires Valid()
      modifies this
      ensures Valid()
      ensures s.seqId !in old(blockTables) ==> r == Err(KeyError) && blockTables == old(blockTables)
      ensures s.seqId in old(blockTables) ==>
        var step := AppendStep(old(blockTables)[s.seqId], s, newIds, blockSize);
        if step.Err? then r == Err(step.error) && blockTables == old(blockTables)
        else r == Ok(None) && blockTables == old(blockTables)[s.seqId := step.value]
    {
      if s.seqId !in blockTables {
        return Err(KeyError);
      }
      var step := AppendStep(blockTables[s.seqId], s, newIds, blockSize);
      if step.Err? {
        return Err(step.error);
      }
      blockTables := blockTables[s.seqId := step.value];
      return Ok(None);
    }

    /** free: nothing for a sequence without a table, else its table is dropped. */
    method Free(s: Sequence)
      requires Valid()
      modifies this
      ensures Valid()
      ensures s.seqId !in blockTables
      ensures forall id :: id != s.seqId ==> (id in blockTables <==> id in old(blockTables))
      ensures forall id :: id in blockTables ==> blockTables[id] == old(blockTables)[id]
    {
      if s.seqId !in blockTables {
        return;
      }
      blockTables := blockTables - {s.seqId};
    }

    /** fork: KeyError without a parent table, else the child gets a fork of the parent's table. */
    method Fork(parent: Sequence, child: Sequence) returns (r: Result<(), ManagerError>)
      requires Valid()
      modifies this
      ensures Valid()
      ensures parent.seqId !in old(blockTables) ==> r == Err(KeyError) && blockTables == old(blockTables)
      ensures parent.seqId in old(blockTables) ==>
        r == Ok(()) && blockTables == old(blockTables)[child.seqId := old(blockTables)[parent.seqId]]
    {
      if parent.seqId !in blockTables {
        return Err(KeyError);
      }
      blockTables := blockTables[child.seqId := blockTables[parent.seqId]];
      return Ok(());
    }

    /**
     * get_block_table: an assertion failure for a sequence without a table or for a table
     * with a block lacking its id, else the ids in order; a valid manager only fails for the
     * first reason.
     */
    method GetBlockTable(s: Sequence) returns (r: Result<seq<nat>, ManagerError>)
      ensures r.Err? ==> r.error == AssertionError
      ensures r.Ok? <==> s.seqId in blockTables && forall k :: 0 <= k < |blockTables[s.seqId].physicalBlockIds| ==>
        blockTables[s.seqId].physicalBlockIds[k].Some?
      ensures r.Ok? ==> Placed(r.value) == blockTables[s.seqId].physicalBlockIds
      ensures Valid() ==> (r.Ok? <==> s.seqId in blockTables)
    {
      if s.seqId !in blockTables {
        return Err(AssertionError);
      }
      var ids := PlacedIds(blockTables[s.seqId].physicalBlockIds);
      PlacedIdsMeaning(blockTables[s.seqId].physicalBlockIds);
      if ids.None? {
        return Err(AssertionError);
      }
      return Ok(ids.value);
    }

    /** can_swap_in: swapping is not implemented, so never. */
    function CanSwapIn(group: SequenceGroup): (r: bool)
      ensures !r
    {
      false
    }

    /** can_swap_out: swapping is not implemented, so never. */
    function CanSwapOut(group: SequenceGroup): (r: bool)
      ensures !r
    {
      false
    }

    /** swap_in raises NotImplementedError. */
    method SwapIn(group: SequenceGroup) returns (r: Result<map<nat, nat>, ManagerError>)
      ensures r == Err(NotImplementedError)
    {
      return Err(NotImplementedError);
    }

    /** swap_out raises NotImplementedError. */
    method SwapOut(group: SequenceGroup) returns (r: Result<map<nat, nat>, ManagerError>)
      ensures r == Err(NotImplementedError)
    {
      return Err(NotImplementedError);
    }
  }

  /**
   * Both managers decide can_allocate by the same watermark rule: with the same GPU size,
   * watermark and free count, and no sliding window in the first, a prompt whose logical
   * blocks are its tokens rounded up to blocks gets the same answer from each.
   */
  lemma SameRuleAsV1(m1: V1.BlockSpaceManager, m2: BlockSpaceManagerV2, group: SequenceGroup)
    requires m2.blockSize > 0 && m1.blockSlidingWindow.None?
    requires m1.numTotalGpuBlocks == m2.numTotalGpuBlocks && m1.watermarkBlocks == m2.watermarkBlocks
    requires group.GetSeqs(WAITING) != [] ==>
      group.GetSeqs(WAITING)[0].numLogicalBlocks == NumRequiredBlocks(|group.GetSeqs(WAITING)[0].tokenIds|, m2.blockSize)
    ensures m1.CanAllocate(group) == m2.CanAllocate(group, m1.GetNumFreeGpuBlocks())
  {
  }
}
