/**
 * The naive KV-cache block allocator of vllm/core/block/naive_block.py, its blocks, the
 * copy-on-write tracker and the chain walk of vllm/core/block/common.py.
 *
 * The allocator's state is a free set, the shared RefCounter's table and the recorded
 * copy-on-writes.  Its invariant: an id is free exactly when its count is 0.
 */
module NaiveBlockAllocation {
  import opened Wrappers
  import opened BlockCommon

  /** Allocator state: free ids, reference counts, copy-on-write sources to destinations. */
  datatype AllocState = AllocState(free: set<int>, counts: map<int, int>, cows: map<int, seq<int>>)

  /** The allocator invariant over the ids it manages. */
  ghost predicate Inv(s: AllocState, all: set<int>)
  {
    s.counts.Keys == all && s.free <= all &&
    forall i :: i in all ==> s.counts[i] >= 0 && (i in s.free <==> s.counts[i] == 0)
  }

  /** Ids some block holds. */
  ghost function UsedIds(s: AllocState, all: set<int>): set<int>
    requires s.counts.Keys == all
  {
    set i | i in all && s.counts[i] > 0
  }

  /** The free ids and the used ids split the managed ids. */
  lemma FreePlusUsed(s: AllocState, all: set<int>)
    requires Inv(s, all)
    ensures |s.free| + |UsedIds(s, all)| == |all|
  {
    forall i | i in all
      ensures i in UsedIds(s, all) <==> i !in s.free
    {
    }
    assert UsedIds(s, all) == all - s.free;
    assert all == s.free + (all - s.free);
  }

  /** _allocate_new_block: NoFreeBlocksError when nothing is free, else one free id gets count + 1. */
  ghost predicate AllocateNewStep(s: AllocState, s': AllocState, r: Result<int, BlockError>)
  {
    if s.free == {} then r == Err(NoFreeBlocksError) && s' == s
    else
      r.Ok? && r.value in s.free && r.value in s.counts &&
      s' == AllocState(s.free - {r.value}, s.counts[r.value := s.counts[r.value] + 1], s.cows)
  }

  /** _free_block_index: decr, and the id returns to the free set when its count reaches 0. */
  ghost predicate FreeIndexStep(s: AllocState, s': AllocState, blockIndex: int, r: Result<(), BlockError>)
  {
    match DecrCounts(s.counts, blockIndex)
    case Err(e) => r == Err(e) && s' == s
    case Ok((count, counts')) =>
      r == Ok(()) &&
      s' == AllocState(if count == 0 then s.free + {blockIndex} else s.free, counts', s.cows)
  }

  /** Destinations recorded for `src` with `dst` appended (a defaultdict(list) append). */
  function CowAppend(cows: map<int, seq<int>>, src: int, dst: int): (r: map<int, seq<int>>)
    ensures src in r && r[src] == (if src in cows then cows[src] else []) + [dst]
    ensures forall k :: k in cows && k != src ==> k in r && r[k] == cows[k]
    ensures r.Keys == cows.Keys + {src}
  {
    cows[src := (if src in cows then cows[src] else []) + [dst]]
  }

  /**
   * cow_if_not_appendable: a shared id (count > 1) loses one reference and is replaced by
   * a fresh id, recorded as src -> dst; an exclusively held id is kept; an unknown or
   * free id is an assertion failure.
   */
  ghost predicate CowStep(s: AllocState, s': AllocState, blockIndex: int, r: Result<int, BlockError>)
  {
    if blockIndex !in s.counts || s.counts[blockIndex] == 0 then r == Err(AssertionError) && s' == s
    else if s.counts[blockIndex] == 1 then r == Ok(blockIndex) && s' == s
    else
      var mid := s.(counts := s.counts[blockIndex := s.counts[blockIndex] - 1]);
      AllocateNewStep(mid, s'.(cows := s.cows), r) &&
      s'.cows == (if r.Ok? then CowAppend(s.cows, blockIndex, r.value) else s.cows)
  }

  lemma AllocatePreservesInv(s: AllocState, s': AllocState, all: set<int>, r: Result<int, BlockError>)
    requires Inv(s, all) && AllocateNewStep(s, s', r)
    ensures Inv(s', all)
    ensures r.Ok? ==> s.counts[r.value] == 0 && s'.counts[r.value] == 1 && |s'.free| == |s.free| - 1
  {
    if r.Ok? {
      assert forall i :: i in all ==> (i in s.free <==> s.counts[i] == 0);
      var rest := s.free - {r.value};
      assert s.free == rest + {r.value} && r.value !in rest;
      assert |rest + {r.value}| == |rest| + 1;
    }
  }

  lemma FreeIndexPreservesInv(s: AllocState, s': AllocState, all: set<int>, blockIndex: int, r: Result<(), BlockError>)
    requires Inv(s, all) && FreeIndexStep(s, s', blockIndex, r)
    ensures Inv(s', all)
    ensures r.Ok? <==> blockIndex in all && s.counts[blockIndex] > 0
  {
  }

  lemma CowPreservesInv(s: AllocState, s': AllocState, all: set<int>, blockIndex: int, r: Result<int, BlockError>)
    requires Inv(s, all) && CowStep(s, s', blockIndex, r)
    ensures Inv(s', all)
    ensures r.Ok? && r.value != blockIndex ==>
      s.counts[blockIndex] > 1 && s'.counts[blockIndex] == s.counts[blockIndex] - 1 && s'.counts[r.value] == 1
  {
    if blockIndex in s.counts && s.counts[blockIndex] > 1 {
      var mid := s.(counts := s.counts[blockIndex := s.counts[blockIndex] - 1]);
      assert Inv(mid, all);
      AllocatePreservesInv(mid, s'.(cows := s.cows), all, r);
    }
  }

  /** One more reference to an id that is already held keeps the invariant. */
  lemma IncrUsedKeepsInv(s: AllocState, all: set<int>, blockIndex: int)
    requires Inv(s, all) && blockIndex in all && s.counts[blockIndex] > 0
    ensures Inv(s.(counts := s.counts[blockIndex := s.counts[blockIndex] + 1]), all)
  {
  }

  /** One more reference to each of some held ids keeps the invariant. */
  lemma IncrAllKeepsInv(s: AllocState, all: set<int>, ids: seq<int>)
    requires Inv(s, all)
    requires forall m :: 0 <= m < |ids| ==> ids[m] in all && s.counts[ids[m]] > 0
    ensures Inv(s.(counts := IncrAll(s.counts, ids)), all)
  {
    var counts' := IncrAll(s.counts, ids);
    forall i | i in all
      ensures counts'[i] >= 0 && (i in s.free <==> counts'[i] == 0)
    {
      IncrAllCount(s.counts, ids, i);
      if i in multiset(ids) {
        var m :| 0 <= m < |ids| && ids[m] == i;
      }
    }
  }

  /**
   * One step of fork on the count table, for a source block holding `block` (its id and
   * token ids): the table after the step and whether fork goes on.  `incr` refuses an
   * unmapped or unknown id (or a negative count) and changes nothing; otherwise the count
   * goes up first, and the step still fails when it reached 1 (a freed block) or when the
   * tokens do not fit the copy's append.
   */
  function ForkStep(counts: map<int, int>, block: (Option<int>, seq<int>), blockSize: int): (r: (map<int, int>, bool))
    ensures r.0.Keys == counts.Keys
  {
    var id := block.0;
    if id.None? || id.value !in counts || counts[id.value] < 0 then (counts, false)
    else (counts[id.value := counts[id.value] + 1], counts[id.value] != 0 && |block.1| <= blockSize)
  }

  /** fork's loop on the count table: the steps in chain order, stopping at the first that fails. */
  function ForkSteps(counts: map<int, int>, blocks: seq<(Option<int>, seq<int>)>, blockSize: int): (r: (map<int, int>, bool))
    ensures r.0.Keys == counts.Keys
    decreases |blocks|
  {
    if blocks == [] then (counts, true)
    else
      var step := ForkStep(counts, blocks[0], blockSize);
      if step.1 then ForkSteps(step.0, blocks[1..], blockSize) else step
  }

  /** Every block holds a managed id with a positive count, and its tokens fit a block. */
  predicate ForkableContents(counts: map<int, int>, blocks: seq<(Option<int>, seq<int>)>, blockSize: int)
  {
    forall k :: 0 <= k < |blocks| ==>
      blocks[k].0.Some? && blocks[k].0.value in counts && counts[blocks[k].0.value] > 0 && |blocks[k].1| <= blockSize
  }

  /** The ids of blocks that all hold one. */
  ghost function Ids(blocks: seq<(Option<int>, seq<int>)>): (ids: seq<int>)
    requires forall k :: 0 <= k < |blocks| ==> blocks[k].0.Some?
    ensures |ids| == |blocks| && forall k :: 0 <= k < |blocks| ==> ids[k] == blocks[k].0.value
  {
    seq(|blocks|, k requires 0 <= k < |blocks| => blocks[k].0.value)
  }

  /** Incrementing `i` first and then `ids` is incrementing `[i] + ids`. */
  lemma IncrAllCons(counts: map<int, int>, i: int, ids: seq<int>)
    requires i in counts && forall k :: 0 <= k < |ids| ==> ids[k] in counts
    ensures IncrAll(counts[i := counts[i] + 1], ids) == IncrAll(counts, [i] + ids)
  {
    var counts' := counts[i := counts[i] + 1];
    var a, b := IncrAll(counts', ids), IncrAll(counts, [i] + ids);
    forall j | j in counts
      ensures a[j] == b[j]
    {
      IncrAllCount(counts', ids, j);
      IncrAllCount(counts, [i] + ids, j);
      assert multiset([i] + ids) == multiset([i]) + multiset(ids);
    }
  }

  /** After k blocks that can be forked, fork goes on from the counts with their ids incremented. */
  lemma {:induction false} ForkStepsPrefix(counts: map<int, int>, blocks: seq<(Option<int>, seq<int>)>, k: nat, blockSize: int)
    requires k <= |blocks| && ForkableContents(counts, blocks[..k], blockSize)
    ensures ForkSteps(counts, blocks, blockSize) == ForkSteps(IncrAll(counts, Ids(blocks[..k])), blocks[k..], blockSize)
    decreases k
  {
    if k == 0 {
      assert blocks[0..] == blocks;
    } else {
      assert blocks[..k][0] == blocks[0];
      var i := blocks[0].0.value;
      var counts' := counts[i := counts[i] + 1];
      assert ForkStep(counts, blocks[0], blockSize) == (counts', true);
      var rest := blocks[1..];
      var next := rest[..k - 1];
      assert ForkableContents(counts', next, blockSize) by {
        forall m | 0 <= m < k - 1
          ensures next[m].0.Some? && next[m].0.value in counts' && counts'[next[m].0.value] > 0
          ensures |next[m].1| <= blockSize
        {
          assert next[m] == blocks[..k][m + 1];
          var j := next[m].0.value;
          assert j in counts && counts[j] > 0;
          assert counts'[j] >= counts[j];
        }
      }
      ForkStepsPrefix(counts', rest, k - 1, blockSize);
      assert rest[k - 1..] == blocks[k..];
      IncrAllCons(counts, i, Ids(rest[..k - 1]));
      assert [i] + Ids(rest[..k - 1]) == Ids(blocks[..k]);
    }
  }

  /** A fork that completes only ever incremented ids with a positive count, for blocks that fit. */
  lemma {:induction false} ForkStepsOkForkable(counts: map<int, int>, blocks: seq<(Option<int>, seq<int>)>, blockSize: int)
    requires ForkSteps(counts, blocks, blockSize).1
    ensures ForkableContents(counts, blocks, blockSize)
    decreases |blocks|
  {
    if blocks != [] {
      var step := ForkStep(counts, blocks[0], blockSize);
      var rest := blocks[1..];
      ForkStepsOkForkable(step.0, rest, blockSize);
      forall m | 0 <= m < |blocks|
        ensures blocks[m].0.Some? && blocks[m].0.value in counts && counts[blocks[m].0.value] > 0 && |blocks[m].1| <= blockSize
      {
        if m > 0 {
          assert blocks[m] == rest[m - 1];
        }
      }
    }
  }

  /**
   * fork completes exactly when every block holds a managed id with a positive count and
   * its tokens fit; it then adds one reference per occurrence of each id.
   */
  lemma ForkStepsOk(counts: map<int, int>, blocks: seq<(Option<int>, seq<int>)>, blockSize: int)
    ensures ForkSteps(counts, blocks, blockSize).1 <==> ForkableContents(counts, blocks, blockSize)
    ensures ForkableContents(counts, blocks, blockSize) ==>
      ForkSteps(counts, blocks, blockSize).0 == IncrAll(counts, Ids(blocks))
  {
    if ForkSteps(counts, blocks, blockSize).1 {
      ForkStepsOkForkable(counts, blocks, blockSize);
    }
    if ForkableContents(counts, blocks, blockSize) {
      assert blocks[..|blocks|] == blocks;
      ForkStepsPrefix(counts, blocks, |blocks|, blockSize);
      assert blocks[|blocks|..] == [];
    }
  }

  /**
   * When the first k blocks can be forked and block k cannot, fork stops at block k and
   * leaves the table as that failing step does, the first k ids already incremented.
   */
  lemma ForkStepsFailAt(counts: map<int, int>, blocks: seq<(Option<int>, seq<int>)>, k: nat, blockSize: int)
    requires k < |blocks| && ForkableContents(counts, blocks[..k], blockSize)
    requires !ForkStep(IncrAll(counts, Ids(blocks[..k])), blocks[k], blockSize).1
    ensures ForkSteps(counts, blocks, blockSize) == ForkStep(IncrAll(counts, Ids(blocks[..k])), blocks[k], blockSize)
  {
    ForkStepsPrefix(counts, blocks, k, blockSize);
    assert blocks[k..][0] == blocks[k];
  }

  /**
   * Forking a chain whose block k holds a freed id (count 0), after k blocks that can be
   * forked: fork fails, but only after incrementing the ids of blocks 0, ..., k.  The freed
   * id is left at count 1 while it is still in the free set, so the allocator invariant
   * is broken.
   */
  lemma ForkFreedBlock(s: AllocState, all: set<int>, blocks: seq<(Option<int>, seq<int>)>, k: nat, blockSize: int)
    requires Inv(s, all) && k < |blocks| && ForkableContents(s.counts, blocks[..k], blockSize)
    requires blocks[k].0.Some? && blocks[k].0.value in all && s.counts[blocks[k].0.value] == 0
    ensures var run := ForkSteps(s.counts, blocks, blockSize);
      !run.1 && run.0 == IncrAll(s.counts, Ids(blocks[..k + 1])) &&
      blocks[k].0.value in s.free && run.0[blocks[k].0.value] == 1 &&
      !Inv(s.(counts := run.0), all)
  {
    var i := blocks[k].0.value;
    var before := Ids(blocks[..k]);
    var counts := IncrAll(s.counts, before);
    IncrAllCount(s.counts, before, i);
    forall m | 0 <= m < |before|
      ensures before[m] != i
    {
      assert blocks[..k][m] == blocks[m];
    }
    assert ForkStep(counts, blocks[k], blockSize) == (counts[i := 1], false);
    ForkStepsFailAt(s.counts, blocks, k, blockSize);
    var after := Ids(blocks[..k + 1]);
    assert after == before + [i];
    forall j | j in s.counts
      ensures counts[i := 1][j] == IncrAll(s.counts, after)[j]
    {
      IncrAllCount(s.counts, before, j);
      IncrAllCount(s.counts, after, j);
      assert multiset(after) == multiset(before) + multiset([i]);
    }
  }

  /**
   * With nothing free, freeing the only reference to an id and allocating again hands out
   * that same id and leaves the allocator as it was.
   */
  lemma FreeThenAllocateSameId(s0: AllocState, s1: AllocState, s2: AllocState, all: set<int>,
                               blockIndex: int, r1: Result<(), BlockError>, r2: Result<int, BlockError>)
    requires Inv(s0, all) && s0.free == {} && blockIndex in all && s0.counts[blockIndex] == 1
    requires FreeIndexStep(s0, s1, blockIndex, r1) && AllocateNewStep(s1, s2, r2)
    ensures r1 == Ok(()) && s1.free == {blockIndex}
    ensures r2 == Ok(blockIndex) && s2 == s0
  {
    assert s0.counts[blockIndex := 0][blockIndex := 1] == s0.counts;
  }

  /**
   * A KV-cache block: its token ids, its physical id (None once freed) and the block
   * before it in its sequence.  `depth` counts the blocks before it.
   */
  class NaiveBlock {
    const prev: NaiveBlock?
    ghost const depth: nat
    var tokenIds: seq<int>
    const blockSize: int
    var physicalBlockIndex: Option<int>
    const allocator: NaiveBlockAllocator

    /** The chain of predecessors is finite. */
    ghost predicate ChainOk()
      decreases depth
    {
      if prev == null then depth == 0 else depth == prev.depth + 1 && prev.ChainOk()
    }

    /** __init__: the token ids are appended to an empty block, so they must fit. */
    constructor(prev: NaiveBlock?, tokenIds: seq<int>, blockSize: int, allocator: NaiveBlockAllocator,
                physicalBlockIndex: Option<int>)
      requires prev != null ==> prev.ChainOk()
      requires |tokenIds| <= blockSize
      ensures this.prev == prev && this.tokenIds == tokenIds && this.blockSize == blockSize
      ensures this.allocator == allocator && this.physicalBlockIndex == physicalBlockIndex
      ensures depth == (if prev == null then 0 else prev.depth + 1) && ChainOk()
    {
      this.prev := prev;
      this.depth := if prev == null then 0 else prev.depth + 1;
      this.blockSize := blockSize;
      this.allocator := allocator;
      this.physicalBlockIndex := physicalBlockIndex;
      this.tokenIds := tokenIds;
    }

    function NumEmptySlots(): (n: int)
      reads this
    {
      blockSize - |tokenIds|
    }

    /** is_full: no empty slot left. */
    function IsFull(): (full: bool)
      reads this
      ensures full <==> |tokenIds| == blockSize
    {
      NumEmptySlots() == 0
    }

    /** _append_token_ids_no_cow: appends when the tokens fit in the empty slots. */
    method AppendTokenIdsNoCow(tokens: seq<int>) returns (r: Result<(), BlockError>)
      modifies this
      ensures physicalBlockIndex == old(physicalBlockIndex)
      ensures |old(tokenIds)| + |tokens| <= blockSize ==> r == Ok(()) && tokenIds == old(tokenIds) + tokens
      ensures |old(tokenIds)| + |tokens| > blockSize ==> r == Err(AssertionError) && tokenIds == old(tokenIds)
    {
      if !(NumEmptySlots() >= |tokens|) {
        return Err(AssertionError);
      }
      tokenIds := tokenIds + tokens;
      return Ok(());
    }

    /**
     * append_token_ids: appends, then, if the block holds a physical id, replaces that id
     * by the allocator's copy-on-write decision.
     */
    method AppendTokenIds(tokens: seq<int>) returns (r: Result<(), BlockError>)
      requires allocator.Valid()
      modifies this, allocator, allocator.refcounter
      ensures allocator.Valid()
      ensures |old(tokenIds)| + |tokens| > blockSize ==>
        r == Err(AssertionError) && tokenIds == old(tokenIds) &&
        physicalBlockIndex == old(physicalBlockIndex) && allocator.State() == old(allocator.State())
      ensures |old(tokenIds)| + |tokens| <= blockSize ==>
        tokenIds == old(tokenIds) + tokens &&
        match old(physicalBlockIndex)
        case None => r == Ok(()) && physicalBlockIndex == None && allocator.State() == old(allocator.State())
        case Some(i) =>
          exists cow: Result<int, BlockError> ::
            CowStep(old(allocator.State()), allocator.State(), i, cow) &&
            (cow.Ok? ==> r == Ok(()) && physicalBlockIndex == Some(cow.value)) &&
            (cow.Err? ==> r == Err(cow.error) && physicalBlockIndex == old(physicalBlockIndex))
    {
      r := AppendTokenIdsNoCow(tokens);
      if r.Err? {
        return;
      }
      if physicalBlockIndex.Some? {
        var cow := allocator.CowIfNotAppendable(physicalBlockIndex.value);
        if cow.Err? {
          return Err(cow.error);
        }
        physicalBlockIndex := Some(cow.value);
      }
    }
  }

  /** `chain` is a sequence of blocks, oldest first, each linked to the one before it. */
  ghost predicate Linked(chain: seq<NaiveBlock>)
    decreases |chain|
  {
    |chain| > 0 && chain[|chain| - 1].ChainOk() &&
    if |chain| == 1 then chain[0].prev == null
    else chain[|chain| - 1].prev == chain[|chain| - 2] && Linked(chain[..|chain| - 1])
  }

  /**
   * get_all_blocks_recursively: the chain ending in `last`, oldest first.
   */
  function AllBlocks(last: NaiveBlock): (chain: seq<NaiveBlock>)
    requires last.ChainOk()
    ensures |chain| == last.depth + 1 && chain[|chain| - 1] == last
    decreases last.depth
  {
    if last.prev == null then [last] else AllBlocks(last.prev) + [last]
  }

  /** The walk starts at a block without predecessor and follows the `prev` links. */
  lemma {:induction false} AllBlocksLinked(last: NaiveBlock)
    requires last.ChainOk()
    ensures Linked(AllBlocks(last))
    decreases last.depth
  {
    if last.prev != null {
      AllBlocksLinked(last.prev);
      var before := AllBlocks(last.prev);
      assert (before + [last])[..|before|] == before;
    }
  }

  /** A linked chain is exactly the chain get_all_blocks_recursively walks from its last block. */
  lemma {:induction false} LinkedIsAllBlocks(chain: seq<NaiveBlock>)
    requires Linked(chain)
    ensures AllBlocks(chain[|chain| - 1]) == chain
    decreases |chain|
  {
    if |chain| > 1 {
      var init := chain[..|chain| - 1];
      LinkedIsAllBlocks(init);
      assert chain == init + [chain[|chain| - 1]];
    }
  }

  /** The physical id and token ids of each block, in order. */
  function Contents(blocks: seq<NaiveBlock>): (r: seq<(Option<int>, seq<int>)>)
    reads blocks
    ensures |r| == |blocks|
    decreases |blocks|
  {
    if blocks == [] then []
    else Contents(blocks[..|blocks| - 1]) + [(blocks[|blocks| - 1].physicalBlockIndex, blocks[|blocks| - 1].tokenIds)]
  }

  lemma {:induction false} ContentsAt(blocks: seq<NaiveBlock>, k: int)
    requires 0 <= k < |blocks|
    ensures Contents(blocks)[k] == (blocks[k].physicalBlockIndex, blocks[k].tokenIds)
    decreases |blocks|
  {
    if k < |blocks| - 1 {
      ContentsAt(blocks[..|blocks| - 1], k);
    }
  }

  /** Blocks whose fields match `contents` entry by entry have exactly those contents. */
  lemma ContentsOfFields(blocks: seq<NaiveBlock>, contents: seq<(Option<int>, seq<int>)>)
    requires |blocks| == |contents|
    requires forall m :: 0 <= m < |blocks| ==> (blocks[m].physicalBlockIndex, blocks[m].tokenIds) == contents[m]
    ensures Contents(blocks) == contents
  {
    forall m | 0 <= m < |blocks|
      ensures Contents(blocks)[m] == contents[m]
    {
      ContentsAt(blocks, m);
    }
  }

  /** The ids 0, ..., n - 1. */
  function Range(n: int): (ids: set<nat>)
    ensures forall i :: i in ids <==> 0 <= i < n
    decreases n
  {
    if n <= 0 then {} else Range(n - 1) + {n - 1}
  }

  /** The ids an allocator manages: the given ids, or range(num_blocks) when none are given. */
  function InitialIds(numBlocks: int, blockIds: Option<seq<nat>>): (ids: set<nat>)
    ensures forall i :: i in ids <==> if blockIds.Some? then i in blockIds.value else 0 <= i < numBlocks
  {
    if blockIds.Some? then (set i | i in blockIds.value) else Range(numBlocks)
  }

  class NaiveBlockAllocator {
    var freeBlockIndices: set<nat>
    const allBlockIndices: set<nat>
    const refcounter: RefCounter
    const blockSize: int
    var copyOnWrites: map<int, seq<int>>

    ghost function State(): AllocState
      reads this, refcounter
    {
      AllocState(freeBlockIndices, refcounter.refcounts, copyOnWrites)
    }

    ghost predicate Valid()
      reads this, refcounter
    {
      Inv(State(), allBlockIndices)
    }

    /** __init__: ids are block_ids, or range(num_blocks) when none are given; all free at count 0. */
    constructor(numBlocks: int, blockSize: int, blockIds: Option<seq<nat>>)
      ensures var ids := InitialIds(numBlocks, blockIds);
        allBlockIndices == ids && State() == AllocState(ids, map i | i in ids :: 0, map[])
      ensures this.blockSize == blockSize && fresh(refcounter)
      ensures Valid()
    {
      var ids := InitialIds(numBlocks, blockIds);
      freeBlockIndices := ids;
      allBlockIndices := ids;
      refcounter := new RefCounter(ids);
      this.blockSize := blockSize;
      copyOnWrites := map[];
    }

    /** get_num_free_blocks; free plus used ids make up all ids. */
    function GetNumFreeBlocks(): (n: int)
      reads this, refcounter
      requires Valid()
      ensures n + |UsedIds(State(), allBlockIndices)| == |allBlockIndices|
    {
      FreePlusUsed(State(), allBlockIndices);
      |freeBlockIndices|
    }

    method AllocateNewBlock() returns (r: Result<int, BlockError>)
      requires Valid()
      modifies this, refcounter
      ensures Valid() && AllocateNewStep(old(State()), State(), r)
    {
      if freeBlockIndices == {} {
        return Err(NoFreeBlocksError);
      }
      var blockIndex :| blockIndex in freeBlockIndices;
      var _ := refcounter.Incr(blockIndex);
      freeBlockIndices := freeBlockIndices - {blockIndex};
      return Ok(blockIndex);
    }

    method FreeBlockIndex(blockIndex: int) returns (r: Result<(), BlockError>)
      requires Valid()
      modifies this, refcounter
      ensures Valid() && FreeIndexStep(old(State()), State(), blockIndex, r)
    {
      var refcount := refcounter.Decr(blockIndex);
      if refcount.Err? {
        return Err(refcount.error);
      }
      if refcount.value == 0 {
        freeBlockIndices := freeBlockIndices + {blockIndex};
      }
      return Ok(());
    }

    /** allocate_mutable: an empty block after `prev` holding a freshly allocated id. */
    method AllocateMutable(prev: NaiveBlock?) returns (r: Result<NaiveBlock, BlockError>)
      requires Valid() && (prev != null ==> prev.ChainOk()) && 0 <= blockSize
      modifies this, refcounter
      ensures Valid()
      ensures r.Err? ==> r.error == NoFreeBlocksError && old(freeBlockIndices) == {} && State() == old(State())
      ensures r.Ok? ==>
        fresh(r.value) && r.value.prev == prev && r.value.tokenIds == [] && r.value.ChainOk() &&
        r.value.blockSize == blockSize && r.value.allocator == this &&
        r.value.physicalBlockIndex.Some? &&
        AllocateNewStep(old(State()), State(), Ok(r.value.physicalBlockIndex.value))
    {
      var blockIndex := AllocateNewBlock();
      if blockIndex.Err? {
        return Err(blockIndex.error);
      }
      var block := new NaiveBlock(prev, [], blockSize, this, Some(blockIndex.value));
      return Ok(block);
    }

    /**
     * allocate_immutable: allocate_mutable, then append the tokens.  The new id has count 1,
     * so the append never copies: exactly one free id is consumed.
     */
    method AllocateImmutable(prev: NaiveBlock?, tokenIds: seq<int>) returns (r: Result<NaiveBlock, BlockError>)
      requires Valid() && (prev != null ==> prev.ChainOk()) && 0 <= blockSize
      modifies this, refcounter
      ensures Valid()
      ensures old(freeBlockIndices) == {} ==> r == Err(NoFreeBlocksError) && State() == old(State())
      ensures old(freeBlockIndices) != {} ==>
        exists i :: AllocateNewStep(old(State()), State(), Ok(i)) &&
          (|tokenIds| <= blockSize ==>
             r.Ok? && r.value.prev == prev && r.value.tokenIds == tokenIds && r.value.physicalBlockIndex == Some(i)) &&
          (|tokenIds| > blockSize ==> r == Err(AssertionError))
    {
      r := AllocateMutable(prev);
      if r.Err? {
        return;
      }
      var block := r.value;
      ghost var afterAlloc := State();
      ghost var blockIndex := block.physicalBlockIndex.value;
      AllocatePreservesInv(old(State()), afterAlloc, allBlockIndices, Ok(blockIndex));
      var appended := block.AppendTokenIds(tokenIds);
      assert State() == afterAlloc;
      assert AllocateNewStep(old(State()), State(), Ok(blockIndex));
      if appended.Err? {
        return Err(appended.error);
      }
    }

    /** free: clears the block's id, then drops one reference to it. */
    method Free(block: NaiveBlock) returns (r: Result<(), BlockError>)
      requires Valid()
      modifies this, refcounter, block
      ensures Valid()
      ensures block.physicalBlockIndex == None && block.tokenIds == old(block.tokenIds)
      ensures old(block.physicalBlockIndex).None? ==> r == Err(AssertionError) && State() == old(State())
      ensures old(block.physicalBlockIndex).Some? ==>
        FreeIndexStep(old(State()), State(), old(block.physicalBlockIndex).value, r)
    {
      var blockIndex := block.physicalBlockIndex;
      block.physicalBlockIndex := None;
      if blockIndex.None? {
        return Err(AssertionError);
      }
      r := FreeBlockIndex(blockIndex.value);
    }

    /**
     * fork: for each block of the chain, oldest first, one more reference to its id and a
     * new block with the same id and token ids after the previous copy.  A block that is
     * unmapped, unknown, freed or overfull stops it with an AssertionError, after the
     * increments made so far (ForkStepsFailAt, ForkFreedBlock); the invariant is only
     * promised when fork completes.
     */
    method Fork(lastBlock: NaiveBlock) returns (r: Result<seq<NaiveBlock>, BlockError>)
      requires Valid() && lastBlock.ChainOk()
      modifies refcounter
      ensures freeBlockIndices == old(freeBlockIndices)
      ensures var contents := old(Contents(AllBlocks(lastBlock)));
        refcounter.refcounts == ForkSteps(old(refcounter.refcounts), contents, blockSize).0 &&
        (r.Ok? <==> ForkableContents(old(refcounter.refcounts), contents, blockSize))
      ensures r.Err? ==> r.error == AssertionError
      ensures r.Ok? ==>
        Valid() &&
        refcounter.refcounts == IncrAll(old(refcounter.refcounts), Ids(old(Contents(AllBlocks(lastBlock))))) &&
        Contents(r.value) == old(Contents(AllBlocks(lastBlock))) &&
        (forall k :: 0 <= k < |r.value| ==>
           fresh(r.value[k]) && r.value[k].blockSize == blockSize && r.value[k].allocator == this) &&
        |r.value| > 0 && r.value[|r.value| - 1].ChainOk() && AllBlocks(r.value[|r.value| - 1]) == r.value
    {
      var sourceBlocks := AllBlocks(lastBlock);
      ghost var contents := Contents(sourceBlocks);
      ghost var counts0 := refcounter.refcounts;
      forall m | 0 <= m < |sourceBlocks|
        ensures (sourceBlocks[m].physicalBlockIndex, sourceBlocks[m].tokenIds) == contents[m]
      {
        ContentsAt(sourceBlocks, m);
      }
      r := ForkBlocks(sourceBlocks, contents);
      ForkStepsOk(counts0, contents, blockSize);
      if r.Ok? {
        IncrAllKeepsInv(old(State()), allBlockIndices, Ids(contents));
        ContentsOfFields(r.value, contents);
      }
    }

    /**
     * fork as its assertion intends: a chain holding an unmapped, unknown or freed block,
     * or a block whose tokens do not fit, is refused before any count changes, so the
     * invariant holds on every path.
     */
    method ForkChecked(lastBlock: NaiveBlock) returns (r: Result<seq<NaiveBlock>, BlockError>)
      requires Valid() && lastBlock.ChainOk()
      modifies refcounter
      ensures Valid() && freeBlockIndices == old(freeBlockIndices)
      ensures r.Ok? <==> ForkableContents(old(refcounter.refcounts), old(Contents(AllBlocks(lastBlock))), blockSize)
      ensures r.Err? ==> r.error == AssertionError && refcounter.refcounts == old(refcounter.refcounts)
      ensures r.Ok? ==>
        refcounter.refcounts == IncrAll(old(refcounter.refcounts), Ids(old(Contents(AllBlocks(lastBlock))))) &&
        Contents(r.value) == old(Contents(AllBlocks(lastBlock)))
    {
      if !ForkableContents(refcounter.refcounts, Contents(AllBlocks(lastBlock)), blockSize) {
        return Err(AssertionError);
      }
      r := Fork(lastBlock);
    }

    /**
     * The copies fork has made: a chain ending in `last` whose blocks hold, in order, the
     * ids and token ids of the first entries of `contents`.
     */
    ghost predicate CopiedChain(forked: seq<NaiveBlock>, last: NaiveBlock?, contents: seq<(Option<int>, seq<int>)>)
      reads forked
    {
      |forked| <= |contents| &&
      (last == null ==> forked == []) &&
      (last != null ==> last.ChainOk() && AllBlocks(last) == forked) &&
      forall m :: 0 <= m < |forked| ==>
        (forked[m].physicalBlockIndex, forked[m].tokenIds) == contents[m] &&
        forked[m].blockSize == blockSize && forked[m].allocator == this
    }

    /**
     * One step of fork: incr the block's id (which fails for None or an unknown id), the
     * assertion that the count is not 1, then the copy after `prevBlock`, whose __init__
     * asserts that the tokens fit.
     */
    method ForkOne(ghost forked: seq<NaiveBlock>, prevBlock: NaiveBlock?, block: NaiveBlock,
                   ghost contents: seq<(Option<int>, seq<int>)>)
      returns (r: Result<NaiveBlock, BlockError>)
      requires CopiedChain(forked, prevBlock, contents) && |forked| < |contents|
      requires (block.physicalBlockIndex, block.tokenIds) == contents[|forked|]
      modifies refcounter
      ensures var step := ForkStep(old(refcounter.refcounts), contents[|forked|], blockSize);
        refcounter.refcounts == step.0 && (r.Ok? <==> step.1)
      ensures r.Err? ==> r.error == AssertionError
      ensures r.Ok? ==> fresh(r.value) && CopiedChain(forked + [r.value], r.value, contents)
    {
      if block.physicalBlockIndex.None? {
        return Err(AssertionError);
      }
      var refcount := refcounter.Incr(block.physicalBlockIndex.value);
      if refcount.Err? {
        return Err(refcount.error);
      }
      if refcount.value == 1 {
        return Err(AssertionError);
      }
      if |block.tokenIds| > blockSize {
        return Err(AssertionError);
      }
      var newBlock := new NaiveBlock(prevBlock, block.tokenIds, blockSize, this, block.physicalBlockIndex);
      assert AllBlocks(newBlock) == forked + [newBlock];
      return Ok(newBlock);
    }

    /** The loop of fork over the source chain, stopping at the first step that fails. */
    method ForkBlocks(sourceBlocks: seq<NaiveBlock>, ghost contents: seq<(Option<int>, seq<int>)>)
      returns (r: Result<seq<NaiveBlock>, BlockError>)
      requires |contents| == |sourceBlocks|
      requires forall m :: 0 <= m < |sourceBlocks| ==>
        (sourceBlocks[m].physicalBlockIndex, sourceBlocks[m].tokenIds) == contents[m]
      modifies refcounter
      ensures var run := ForkSteps(old(refcounter.refcounts), contents, blockSize);
        refcounter.refcounts == run.0 && (r.Ok? <==> run.1)
      ensures r.Err? ==> r.error == AssertionError
      ensures r.Ok? ==>
        |r.value| == |contents| && CopiedChain(r.value, if r.value == [] then null else r.value[|r.value| - 1], contents) &&
        forall m :: 0 <= m < |r.value| ==> fresh(r.value[m])
    {
      ghost var counts0 := refcounter.refcounts;
      var forked: seq<NaiveBlock> := [];
      var prevBlock: NaiveBlock? := null;
      var k := 0;
      while k < |sourceBlocks|
        invariant 0 <= k <= |sourceBlocks| && |forked| == k
        invariant ForkSteps(counts0, contents, blockSize) == ForkSteps(refcounter.refcounts, contents[k..], blockSize)
        invariant CopiedChain(forked, prevBlock, contents)
        invariant prevBlock == if forked == [] then null else forked[|forked| - 1]
        invariant forall m :: 0 <= m < k ==> fresh(forked[m])
      {
        var block := ForkOne(forked, prevBlock, sourceBlocks[k], contents);
        assert contents[k..][0] == contents[k] && contents[k..][1..] == contents[k + 1..];
        if block.Err? {
          return Err(block.error);
        }
        forked := forked + [block.value];
        prevBlock := block.value;
        k := k + 1;
      }
      assert contents[k..] == [];
      return Ok(forked);
    }

    /** _copy_on_write: drop one reference to `src`, allocate a new id and record src -> dst. */
    method CopyOnWrite(src: int) returns (r: Result<int, BlockError>)
      requires Valid() && src in allBlockIndices && refcounter.refcounts[src] > 1
      modifies this, refcounter
      ensures Valid() && CowStep(old(State()), State(), src, r)
    {
      var freed := FreeBlockIndex(src);
      r := AllocateNewBlock();
      if r.Err? {
        return;
      }
      copyOnWrites := CowAppend(copyOnWrites, src, r.value);
    }

    /** cow_if_not_appendable: keep an exclusively held id, copy a shared one. */
    method CowIfNotAppendable(blockIndex: int) returns (r: Result<int, BlockError>)
      requires Valid()
      modifies this, refcounter
      ensures Valid() && CowStep(old(State()), State(), blockIndex, r)
    {
      var refcount := refcounter.Get(blockIndex);
      if refcount.Err? || refcount.value == 0 {
        return Err(AssertionError);
      }
      r := Ok(blockIndex);
      if refcount.value > 1 {
        r := CopyOnWrite(blockIndex);
      }
    }
  }

  /**
   * CopyOnWriteTracker (vllm/core/block/common.py): records the copies made when a shared
   * block is about to be appended to.  A block's `block_id` is its physical id.
   */
  class CopyOnWriteTracker {
    var copyOnWrites: map<int, seq<int>>
    const refcounter: RefCounter
    const allocator: NaiveBlockAllocator

    constructor(refcounter: RefCounter, allocator: NaiveBlockAllocator)
      ensures copyOnWrites == map[] && this.refcounter == refcounter && this.allocator == allocator
    {
      copyOnWrites := map[];
      this.refcounter := refcounter;
      this.allocator := allocator;
    }

    /**
     * cow_block_if_not_appendable: None for a block without an id; the same id when it is
     * held once; for a shared id, the block is freed, a new block after the same
     * predecessor is allocated and src -> new id is recorded.
     */
    method CowBlockIfNotAppendable(block: NaiveBlock) returns (r: Result<Option<int>, BlockError>)
      requires allocator.Valid() && refcounter == allocator.refcounter && 0 <= allocator.blockSize
      requires block.prev != null ==> block.prev.ChainOk()
      modifies this, allocator, refcounter, block
      ensures allocator.Valid()
      ensures match old(block.physicalBlockIndex)
        case None =>
          r == Ok(None) && allocator.State() == old(allocator.State()) && copyOnWrites == old(copyOnWrites)
        case Some(i) =>
          if i !in old(refcounter.refcounts) || old(refcounter.refcounts)[i] == 0 then
            r == Err(AssertionError) && allocator.State() == old(allocator.State()) &&
            copyOnWrites == old(copyOnWrites) && block.physicalBlockIndex == Some(i)
          else if old(refcounter.refcounts)[i] == 1 then
            r == Ok(Some(i)) && allocator.State() == old(allocator.State()) &&
            copyOnWrites == old(copyOnWrites) && block.physicalBlockIndex == Some(i)
          else
            block.physicalBlockIndex == None &&
            var mid := old(allocator.State()).(counts := old(refcounter.refcounts)[i := old(refcounter.refcounts)[i] - 1]);
            if mid.free == {} then
              r == Err(NoFreeBlocksError) && allocator.State() == mid && copyOnWrites == old(copyOnWrites)
            else
              r.Ok? && r.value.Some? && AllocateNewStep(mid, allocator.State(), Ok(r.value.value)) &&
              copyOnWrites == CowAppend(old(copyOnWrites), i, r.value.value)
    {
      var blockIndex := block.physicalBlockIndex;
      if blockIndex.None? {
        return Ok(None);
      }
      var refcount := refcounter.Get(blockIndex.value);
      if refcount.Err? || refcount.value == 0 {
        return Err(AssertionError);
      }
      if refcount.value > 1 {
        var srcBlockIndex := blockIndex.value;
        var _ := allocator.Free(block);
        var newBlock := allocator.AllocateMutable(block.prev);
        if newBlock.Err? {
          return Err(newBlock.error);
        }
        blockIndex := newBlock.value.physicalBlockIndex;
        copyOnWrites := CowAppend(copyOnWrites, srcBlockIndex, blockIndex.value);
      }
      return Ok(blockIndex);
    }

    /** clear_cows: hands back every recorded copy and forgets them. */
    method ClearCows() returns (cows: map<int, seq<int>>)
      modifies this
      ensures cows == old(copyOnWrites) && copyOnWrites == map[]
    {
      cows := copyOnWrites;
      copyOnWrites := map[];
    }
  }
}
