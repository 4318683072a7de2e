/**
 * Reference counting of physical KV-cache blocks (vllm/core/block/common.py, also copied
 * in vllm/block2.py).  A failed Python `assert` or a raised error is an `Err` value; the
 * counts are untouched on every error path.
 */
module BlockCommon {
  import opened Wrappers

  /** The exceptions the block code raises. */
  datatype BlockError = AssertionError | ValueError | NoFreeBlocksError

  /** Result of `incr` on a count table: the new count and the new table. */
  function IncrCounts(counts: map<int, int>, blockIndex: int): (r: Result<(int, map<int, int>), BlockError>)
  {
    if blockIndex !in counts || counts[blockIndex] < 0 then Err(AssertionError)
    else Ok((counts[blockIndex] + 1, counts[blockIndex := counts[blockIndex] + 1]))
  }

  /** Result of `decr` on a count table: the new count and the new table. */
  function DecrCounts(counts: map<int, int>, blockIndex: int): (r: Result<(int, map<int, int>), BlockError>)
  {
    if blockIndex !in counts || counts[blockIndex] <= 0 then Err(AssertionError)
    else Ok((counts[blockIndex] - 1, counts[blockIndex := counts[blockIndex] - 1]))
  }

  /** `decr` undoes `incr`: it returns the count `incr` started from and restores the table. */
  lemma DecrUndoesIncr(counts: map<int, int>, blockIndex: int)
    requires IncrCounts(counts, blockIndex).Ok?
    ensures DecrCounts(IncrCounts(counts, blockIndex).value.1, blockIndex) == Ok((counts[blockIndex], counts))
  {
    var after := IncrCounts(counts, blockIndex).value.1;
    assert after[blockIndex := after[blockIndex] - 1] == counts;
  }

  /** Results of `n` successive `incr` calls on one index, and the table they leave. */
  function IncrRun(counts: map<int, int>, blockIndex: int, n: nat): Result<(seq<int>, map<int, int>), BlockError>
  {
    if n == 0 then Ok(([], counts))
    else match IncrRun(counts, blockIndex, n - 1)
      case Err(e) => Err(e)
      case Ok((values, table)) =>
        match IncrCounts(table, blockIndex)
        case Err(e) => Err(e)
        case Ok((v, table')) => Ok((values + [v], table'))
  }

  /** Results of `n` successive `decr` calls on one index, and the table they leave. */
  function DecrRun(counts: map<int, int>, blockIndex: int, n: nat): Result<(seq<int>, map<int, int>), BlockError>
  {
    if n == 0 then Ok(([], counts))
    else match DecrRun(counts, blockIndex, n - 1)
      case Err(e) => Err(e)
      case Ok((values, table)) =>
        match DecrCounts(table, blockIndex)
        case Err(e) => Err(e)
        case Ok((v, table')) => Ok((values + [v], table'))
  }

  /** Starting from count c, n incrs return c + 1, ..., c + n and leave count c + n. */
  lemma {:induction false} IncrRunCounts(counts: map<int, int>, blockIndex: int, n: nat)
    requires blockIndex in counts && counts[blockIndex] >= 0
    ensures IncrRun(counts, blockIndex, n).Ok?
    ensures var r := IncrRun(counts, blockIndex, n).value;
      r.0 == seq(n, k => counts[blockIndex] + k + 1) && r.1 == counts[blockIndex := counts[blockIndex] + n]
  {
    if n > 0 {
      IncrRunCounts(counts, blockIndex, n - 1);
      var r := IncrRun(counts, blockIndex, n - 1).value;
      assert r.1[blockIndex := r.1[blockIndex] + 1] == counts[blockIndex := counts[blockIndex] + n];
    }
  }

  /** Starting from count c, n <= c decrs return c - 1, ..., c - n and leave count c - n. */
  lemma {:induction false} DecrRunCounts(counts: map<int, int>, blockIndex: int, n: nat)
    requires blockIndex in counts && counts[blockIndex] >= n
    ensures DecrRun(counts, blockIndex, n).Ok?
    ensures var r := DecrRun(counts, blockIndex, n).value;
      r.0 == seq(n, k => counts[blockIndex] - k - 1) && r.1 == counts[blockIndex := counts[blockIndex] - n]
  {
    if n > 0 {
      DecrRunCounts(counts, blockIndex, n - 1);
      var r := DecrRun(counts, blockIndex, n - 1).value;
      assert r.1[blockIndex := r.1[blockIndex] - 1] == counts[blockIndex := counts[blockIndex] - n];
    }
  }

  /**
   * A fresh counter incremented n times on one index returns 1, ..., n; n decrs then return
   * n - 1, ..., 0, and one more decr is an assertion failure.
   */
  lemma IncrThenDecrRun(indices: set<int>, blockIndex: int, n: nat)
    requires blockIndex in indices
    ensures var initial := map i | i in indices :: 0;
      IncrRun(initial, blockIndex, n).Ok? &&
      IncrRun(initial, blockIndex, n).value.0 == seq(n, k => k + 1) &&
      var up := IncrRun(initial, blockIndex, n).value.1;
      DecrRun(up, blockIndex, n).Ok? &&
      DecrRun(up, blockIndex, n).value.0 == seq(n, k => n - k - 1) &&
      DecrCounts(DecrRun(up, blockIndex, n).value.1, blockIndex) == Err(AssertionError)
  {
    var initial := map i | i in indices :: 0;
    IncrRunCounts(initial, blockIndex, n);
    var up := IncrRun(initial, blockIndex, n).value.1;
    DecrRunCounts(up, blockIndex, n);
  }

  /** The table after one `incr` for each of the first `n` elements of `ids`, in order. */
  ghost function IncrPrefix<K>(counts: map<K, int>, ids: seq<K>, n: nat): (r: map<K, int>)
    requires n <= |ids| && forall k :: 0 <= k < |ids| ==> ids[k] in counts
    ensures r.Keys == counts.Keys
    decreases n
  {
    if n == 0 then counts
    else
      var before := IncrPrefix(counts, ids, n - 1);
      before[ids[n - 1] := before[ids[n - 1]] + 1]
  }

  /** The table after one `incr` per element of `ids`, in order. */
  ghost function IncrAll<K>(counts: map<K, int>, ids: seq<K>): (r: map<K, int>)
    requires forall k :: 0 <= k < |ids| ==> ids[k] in counts
    ensures r.Keys == counts.Keys
  {
    IncrPrefix(counts, ids, |ids|)
  }

  /** After the first `n` incrs, each count has grown by the occurrences of its index among them. */
  lemma {:induction false} IncrPrefixCount<K>(counts: map<K, int>, ids: seq<K>, n: nat, i: K)
    requires n <= |ids| && forall k :: 0 <= k < |ids| ==> ids[k] in counts
    requires i in counts
    ensures IncrPrefix(counts, ids, n)[i] == counts[i] + multiset(ids[..n])[i]
    decreases n
  {
    if n > 0 {
      IncrPrefixCount(counts, ids, n - 1, i);
      assert ids[..n] == ids[..n - 1] + [ids[n - 1]];
    }
  }

  /** After the run, each count has grown by the number of times its index occurs in `ids`. */
  lemma IncrAllCount<K>(counts: map<K, int>, ids: seq<K>, i: K)
    requires forall k :: 0 <= k < |ids| ==> ids[k] in counts
    requires i in counts
    ensures IncrAll(counts, ids)[i] == counts[i] + multiset(ids)[i]
  {
    IncrPrefixCount(counts, ids, |ids|, i);
    assert ids[..|ids|] == ids;
  }

  /** RefCounter: a count per block index, created at 0 for every (deduplicated) index. */
  class RefCounter {
    var refcounts: map<int, int>

    ghost predicate Valid()
      reads this
    {
      forall i :: i in refcounts ==> refcounts[i] >= 0
    }

    constructor(allBlockIndices: set<int>)
      ensures refcounts == map i | i in allBlockIndices :: 0
      ensures Valid()
    {
      refcounts := map i | i in allBlockIndices :: 0;
    }

    /** incr: the index must be known and its count non-negative; returns the count after adding one. */
    method Incr(blockIndex: int) returns (r: Result<int, BlockError>)
      modifies this
      ensures (blockIndex in old(refcounts) && old(refcounts)[blockIndex] >= 0) <==> r.Ok?
      ensures r.Ok? ==> r.value == old(refcounts)[blockIndex] + 1 &&
                        refcounts == old(refcounts)[blockIndex := r.value]
      ensures r.Err? ==> r.error == AssertionError && refcounts == old(refcounts)
      ensures old(Valid()) ==> Valid()
    {
      if blockIndex !in refcounts {
        return Err(AssertionError);
      }
      var preIncrRefcount := refcounts[blockIndex];
      if !(preIncrRefcount >= 0) {
        return Err(AssertionError);
      }
      var postIncrRefcount := preIncrRefcount + 1;
      refcounts := refcounts[blockIndex := postIncrRefcount];
      return Ok(postIncrRefcount);
    }

    /** decr: the index must be known and its count positive; returns the count after subtracting one. */
    method Decr(blockIndex: int) returns (r: Result<int, BlockError>)
      modifies this
      ensures (blockIndex in old(refcounts) && old(refcounts)[blockIndex] > 0) <==> r.Ok?
      ensures r.Ok? ==> r.value == old(refcounts)[blockIndex] - 1 &&
                        refcounts == old(refcounts)[blockIndex := r.value]
      ensures r.Err? ==> r.error == AssertionError && refcounts == old(refcounts)
      ensures old(Valid()) ==> Valid()
    {
      if blockIndex !in refcounts {
        return Err(AssertionError);
      }
      var refcount := refcounts[blockIndex];
      if !(refcount > 0) {
        return Err(AssertionError);
      }
      refcount := refcount - 1;
      refcounts := refcounts[blockIndex := refcount];
      return Ok(refcount);
    }

    /** get: the stored count of a known index. */
    function Get(blockIndex: int): (r: Result<int, BlockError>)
      reads this
      ensures r.Ok? <==> blockIndex in refcounts
      ensures r.Ok? ==> r.value == refcounts[blockIndex]
    {
      if blockIndex in refcounts then Ok(refcounts[blockIndex]) else Err(AssertionError)
    }

    method AsReadonly() returns (view: ReadOnlyRefCounter)
      ensures view.refcounter == this
    {
      view := new ReadOnlyRefCounter(this);
    }
  }

  /** A view of a RefCounter that only reads it. */
  class ReadOnlyRefCounter {
    const refcounter: RefCounter

    constructor(refcounter: RefCounter)
      ensures this.refcounter == refcounter
    {
      this.refcounter := refcounter;
    }

    method Incr(blockIndex: int) returns (r: Result<int, BlockError>)
      ensures r == Err(ValueError)
    {
      return Err(ValueError);
    }

    method Decr(blockIndex: int) returns (r: Result<int, BlockError>)
      ensures r == Err(ValueError)
    {
      return Err(ValueError);
    }

    function Get(blockIndex: int): (r: Result<int, BlockError>)
      reads refcounter
      ensures r == refcounter.Get(blockIndex)
    {
      refcounter.Get(blockIndex)
    }
  }
}
