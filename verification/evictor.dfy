/**
 * The LRU evictor of vllm/core/block/evictor.py.  Its free table is an insertion-ordered
 * dictionary from content hash to block; here it is a sequence of blocks in iteration
 * order whose content hashes are pairwise distinct (the key of each entry is the hash its
 * block carries).
 */
module Evictor {
  import opened Wrappers
  import opened BlockCommon

  datatype EvictionPolicy = LRU

  /** A freed block: its content hash, how many tokens it hashes, and when it was last used. */
  datatype EvictorBlock = EvictorBlock(contentHash: int, numHashedTokens: int, lastAccessed: int)

  /** No two entries share a content hash (the table is keyed by hash). */
  ghost predicate DistinctHashes(table: seq<EvictorBlock>)
  {
    forall i, j :: 0 <= i < j < |table| ==> table[i].contentHash != table[j].contentHash
  }

  /** Whether `h` is a key of the table. */
  predicate HasHash(table: seq<EvictorBlock>, h: int)
  {
    exists k :: 0 <= k < |table| && table[k].contentHash == h
  }

  /**
   * `table[h] = block` on an ordered dictionary: an existing key keeps its position and gets
   * the new block; a new key goes to the end.
   */
  function Put(table: seq<EvictorBlock>, block: EvictorBlock): (r: seq<EvictorBlock>)
    ensures forall k :: 0 <= k < |table| && table[k].contentHash == block.contentHash && DistinctHashes(table) ==>
      r == table[k := block]
    ensures !HasHash(table, block.contentHash) ==> r == table + [block]
  {
    if table == [] then [block]
    else if table[0].contentHash == block.contentHash then [block] + table[1..]
    else [table[0]] + Put(table[1..], block)
  }

  /** `table.pop(h)`: the table without the entry keyed `h`; the others keep their order. */
  function Pop(table: seq<EvictorBlock>, h: int): (r: seq<EvictorBlock>)
    ensures forall k :: 0 <= k < |table| && table[k].contentHash == h && DistinctHashes(table) ==>
      r == table[..k] + table[k + 1..]
    ensures !HasHash(table, h) ==> r == table
  {
    if table == [] then []
    else if table[0].contentHash == h then table[1..]
    else [table[0]] + Pop(table[1..], h)
  }

  /** Adding keeps the hashes distinct. */
  lemma PutKeepsDistinct(table: seq<EvictorBlock>, block: EvictorBlock)
    requires DistinctHashes(table)
    ensures DistinctHashes(Put(table, block))
  {
    if HasHash(table, block.contentHash) {
      var k :| 0 <= k < |table| && table[k].contentHash == block.contentHash;
      assert Put(table, block) == table[k := block];
    }
  }

  /** Where a popped table's entries come from: entries before the popped one stay, later ones move up. */
  lemma PopIndices(table: seq<EvictorBlock>, h: int, k: int)
    requires DistinctHashes(table) && 0 <= k < |table| && table[k].contentHash == h
    ensures |Pop(table, h)| == |table| - 1
    ensures forall i :: 0 <= i < |table| - 1 ==> Pop(table, h)[i] == table[if i < k then i else i + 1]
  {
    assert Pop(table, h) == table[..k] + table[k + 1..];
  }

  /** Popping keeps the hashes distinct, removes exactly the popped key and shrinks an entry. */
  lemma PopKeepsDistinct(table: seq<EvictorBlock>, h: int)
    requires DistinctHashes(table)
    ensures DistinctHashes(Pop(table, h))
    ensures forall x :: HasHash(Pop(table, h), x) <==> HasHash(table, x) && x != h
    ensures |Pop(table, h)| == if HasHash(table, h) then |table| - 1 else |table|
  {
    if HasHash(table, h) {
      var k :| 0 <= k < |table| && table[k].contentHash == h;
      PopIndices(table, h, k);
      PopDistinct(table, h, k);
      forall x | HasHash(table, x) && x != h
        ensures HasHash(Pop(table, h), x)
      {
        PopKeepsOther(table, h, k, x);
      }
    }
  }

  lemma PopDistinct(table: seq<EvictorBlock>, h: int, k: int)
    requires DistinctHashes(table) && 0 <= k < |table| && table[k].contentHash == h
    ensures DistinctHashes(Pop(table, h))
  {
    PopIndices(table, h, k);
    var r := Pop(table, h);
    forall i, j | 0 <= i < j < |r|
      ensures r[i].contentHash != r[j].contentHash
    {
      assert r[i] == table[if i < k then i else i + 1];
      assert r[j] == table[if j < k then j else j + 1];
    }
  }

  lemma PopKeepsOther(table: seq<EvictorBlock>, h: int, k: int, x: int)
    requires DistinctHashes(table) && 0 <= k < |table| && table[k].contentHash == h
    requires HasHash(table, x) && x != h
    ensures HasHash(Pop(table, h), x)
  {
    PopIndices(table, h, k);
    var r := Pop(table, h);
    var m :| 0 <= m < |table| && table[m].contentHash == x;
    if m < k {
      assert r[m] == table[m];
    } else {
      assert r[m - 1] == table[m];
    }
  }

  /**
   * The scan of evict from position k, holding `best`: stop at the first block used later
   * than `best`; otherwise a block with more hashed tokens than `best` replaces it.
   */
  function ScanFrom(table: seq<EvictorBlock>, best: EvictorBlock, k: nat): (r: EvictorBlock)
    requires k <= |table|
    ensures r == best || r in table[k..]
    decreases |table| - k
  {
    if k == |table| then best
    else if best.lastAccessed < table[k].lastAccessed then best
    else ScanFrom(table, if best.numHashedTokens < table[k].numHashedTokens then table[k] else best, k + 1)
  }

  /** The block evict picks: the scan over the whole table, starting from its first block. */
  function Victim(table: seq<EvictorBlock>): (r: EvictorBlock)
    requires |table| > 0
    ensures r in table
  {
    ScanFrom(table, table[0], 0)
  }

  /** Blocks in non-decreasing order of last use, as the callers keep the table. */
  ghost predicate SortedByLastAccess(table: seq<EvictorBlock>)
  {
    forall i, j :: 0 <= i <= j < |table| ==> table[i].lastAccessed <= table[j].lastAccessed
  }

  /**
   * The victim at position j among the least recently used blocks: it has the most hashed
   * tokens among them, and every earlier one of them has strictly fewer.
   */
  ghost predicate LruChoice(table: seq<EvictorBlock>, j: int)
    requires |table| > 0
  {
    0 <= j < |table| && table[j].lastAccessed == table[0].lastAccessed &&
    forall i :: 0 <= i < |table| && table[i].lastAccessed == table[0].lastAccessed ==>
      table[i].numHashedTokens <= table[j].numHashedTokens &&
      (i < j ==> table[i].numHashedTokens < table[j].numHashedTokens)
  }

  lemma {:induction false} ScanFromSorted(table: seq<EvictorBlock>, j: nat, k: nat) returns (j': nat)
    requires SortedByLastAccess(table) && 0 <= j < k <= |table|
    requires forall i :: 0 <= i < k ==> table[i].lastAccessed == table[0].lastAccessed
    requires forall i :: 0 <= i < k ==>
      table[i].numHashedTokens <= table[j].numHashedTokens &&
      (i < j ==> table[i].numHashedTokens < table[j].numHashedTokens)
    ensures LruChoice(table, j') && ScanFrom(table, table[j], k) == table[j']
    decreases |table| - k
  {
    if k == |table| {
      j' := j;
    } else if table[j].lastAccessed < table[k].lastAccessed {
      j' := j;
      forall i | k <= i < |table|
        ensures table[i].lastAccessed != table[0].lastAccessed
      {
        assert table[k].lastAccessed <= table[i].lastAccessed;
      }
    } else {
      assert table[0].lastAccessed <= table[k].lastAccessed;
      var next := if table[j].numHashedTokens < table[k].numHashedTokens then k else j;
      j' := ScanFromSorted(table, next, k + 1);
    }
  }

  /**
   * On a table ordered by last use, evict picks among the least recently used blocks the
   * first one with the most hashed tokens.
   */
  lemma VictimOfSorted(table: seq<EvictorBlock>) returns (j: nat)
    requires |table| > 0 && SortedByLastAccess(table)
    ensures LruChoice(table, j) && Victim(table) == table[j]
  {
    j := ScanFromSorted(table, 0, 1);
  }

  /** The victim is never used later than the first block of the table. */
  lemma {:induction false} ScanNotLater(table: seq<EvictorBlock>, best: EvictorBlock, k: nat)
    requires k <= |table|
    ensures ScanFrom(table, best, k).lastAccessed <= best.lastAccessed
    decreases |table| - k
  {
    if k < |table| && !(best.lastAccessed < table[k].lastAccessed) {
      ScanNotLater(table, if best.numHashedTokens < table[k].numHashedTokens then table[k] else best, k + 1);
    }
  }

  class LRUEvictor {
    var freeTable: seq<EvictorBlock>

    ghost predicate Valid()
      reads this
    {
      DistinctHashes(freeTable)
    }

    constructor()
      ensures freeTable == [] && Valid()
    {
      freeTable := [];
    }

    /** __contains__. */
    predicate Contains(contentHash: int)
      reads this
    {
      HasHash(freeTable, contentHash)
    }

    /** num_blocks: the number of entries. */
    function NumBlocks(): (n: nat)
      reads this
      ensures n == |freeTable|
    {
      |freeTable|
    }

    /**
     * evict: ValueError on an empty table; otherwise the scan's victim is popped and its
     * hash returned, so exactly that hash leaves the table.
     */
    method Evict() returns (r: Result<int, BlockError>)
      requires Valid()
      modifies this
      ensures Valid()
      ensures r.Err? <==> old(freeTable) == []
      ensures r.Err? ==> r.error == ValueError && freeTable == old(freeTable)
      ensures r.Ok? ==> r.value == Victim(old(freeTable)).contentHash && freeTable == Pop(old(freeTable), r.value)
      ensures r.Ok? ==> HasHash(old(freeTable), r.value) && !Contains(r.value) && |freeTable| == |old(freeTable)| - 1
    {
      if |freeTable| == 0 {
        return Err(ValueError);
      }
      var evictedBlock := freeTable[0];
      var k := 0;
      while k < |freeTable|
        invariant 0 <= k <= |freeTable|
        invariant ScanFrom(freeTable, evictedBlock, k) == Victim(freeTable)
      {
        var block := freeTable[k];
        if evictedBlock.lastAccessed < block.lastAccessed {
          break;
        }
        if evictedBlock.numHashedTokens < block.numHashedTokens {
          evictedBlock := block;
        }
        k := k + 1;
      }
      var h := evictedBlock.contentHash;
      PopKeepsDistinct(freeTable, h);
      assert HasHash(freeTable, h) by {
        var m :| 0 <= m < |freeTable| && freeTable[m] == evictedBlock;
      }
      freeTable := Pop(freeTable, h);
      return Ok(h);
    }

    /** add: the hash now maps to the new block; a new hash is appended, an old one keeps its place. */
    method Add(contentHash: int, numHashedTokens: int, lastAccessed: int)
      requires Valid()
      modifies this
      ensures Valid() && freeTable == Put(old(freeTable), EvictorBlock(contentHash, numHashedTokens, lastAccessed))
      ensures Contains(contentHash)
      ensures |freeTable| == if old(Contains(contentHash)) then |old(freeTable)| else |old(freeTable)| + 1
    {
      var block := EvictorBlock(contentHash, numHashedTokens, lastAccessed);
      PutKeepsDistinct(freeTable, block);
      ghost var before := freeTable;
      freeTable := Put(freeTable, block);
      if HasHash(before, contentHash) {
        var k :| 0 <= k < |before| && before[k].contentHash == contentHash;
        assert freeTable[k] == block;
      } else {
        assert freeTable[|before|] == block;
      }
    }

    /** remove: ValueError for an absent hash; otherwise only that hash leaves. */
    method Remove(contentHash: int) returns (r: Result<(), BlockError>)
      requires Valid()
      modifies this
      ensures Valid()
      ensures r.Err? <==> !old(Contains(contentHash))
      ensures r.Err? ==> r.error == ValueError && freeTable == old(freeTable)
      ensures r.Ok? ==> freeTable == Pop(old(freeTable), contentHash) && |freeTable| == |old(freeTable)| - 1
      ensures forall x :: Contains(x) <==> old(Contains(x)) && x != contentHash
    {
      if !HasHash(freeTable, contentHash) {
        return Err(ValueError);
      }
      PopKeepsDistinct(freeTable, contentHash);
      freeTable := Pop(freeTable, contentHash);
      return Ok(());
    }
  }

  /** make_evictor: the LRU policy gives an empty LRU evictor. */
  method MakeEvictor(policy: EvictionPolicy) returns (evictor: LRUEvictor)
    ensures fresh(evictor) && evictor.freeTable == [] && evictor.Valid()
  {
    match policy
    case LRU => evictor := new LRUEvictor();
  }
}
