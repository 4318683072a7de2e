/**
 * The shape and dispatch arithmetic of vllm/model_executor/layers/attention.py: the
 * checks PagedAttention makes when it is built, the rule that picks the PagedAttention V1
 * or V2 kernel for a decoding step, the relative-position matrix and padded buffer behind
 * the ALiBi bias, and the preconditions and output copy of single-query flash attention.
 * The attention computations themselves (softmax, xformers, flash-attn and the paged
 * attention kernels) are not part of this model.
 */
module Attention {
  import opened Wrappers
  import opened Arith

  /** The head sizes the PagedAttention kernels are compiled for. */
  const SupportedHeadSizes: seq<nat> := [64, 80, 96, 112, 128, 256]

  /** The number of context tokens one V2 partition covers (PARTITION_SIZE of the launcher). */
  const PartitionSize: nat := 512

  datatype AttentionError =
    | ZeroDivision                  // a `%` or `//` by zero
    | AssertionFailed               // a failed `assert` in the layer
    | HeadSizeNotSupported(headSize: nat)
    | BlockSizeTooSmall             // flash attention needs block_size >= 32
    | AlibiNotSupported             // flash attention takes no ALiBi slopes
    | NotSingleQuery                // single-query attention is for decoding only
    | ShapeMismatch                 // `copy_` between tensors of different row counts

  // ---------------------------------------------------------------- PagedAttention.__init__

  /** The configuration a PagedAttention layer keeps after construction. */
  datatype PagedAttention = PagedAttention(
    numHeads: nat,
    headSize: nat,
    scale: real,
    numKvHeads: nat,
    numQueriesPerKv: nat,
    alibiSlopes: Option<seq<real>>,
    slidingWindow: Option<nat>)

  /**
   * PagedAttention.__init__: num_kv_heads defaults to num_heads, num_heads must be a
   * multiple of it (an assertion, a division by zero when it is 0), each key/value head
   * serves num_heads / num_kv_heads query heads, and the head size must be one the kernels
   * support.
   */
  function NewPagedAttention(numHeads: nat, headSize: nat, scale: real, numKvHeads: Option<nat>,
                             alibiSlopes: Option<seq<real>>, slidingWindow: Option<nat>)
    : (r: Result<PagedAttention, AttentionError>)
    ensures var kv := if numKvHeads.None? then numHeads else numKvHeads.value;
            && (r == Err(ZeroDivision) <==> kv == 0)
            && (r == Err(AssertionFailed) <==> kv > 0 && numHeads % kv != 0)
            && (r == Err(HeadSizeNotSupported(headSize)) <==>
                  kv > 0 && numHeads % kv == 0 && headSize !in SupportedHeadSizes)
            && (r.Ok? <==> kv > 0 && numHeads % kv == 0 && headSize in SupportedHeadSizes)
    ensures r.Ok? ==> r.value.numHeads == numHeads && r.value.headSize == headSize
                      && r.value.numKvHeads == (if numKvHeads.None? then numHeads else numKvHeads.value)
                      && r.value.numQueriesPerKv * r.value.numKvHeads == numHeads
                      && r.value.alibiSlopes == alibiSlopes && r.value.slidingWindow == slidingWindow
  {
    var kv := if numKvHeads.None? then numHeads else numKvHeads.value;
    if kv == 0 then Err(ZeroDivision)
    else if numHeads % kv != 0 then Err(AssertionFailed)
    else if headSize !in SupportedHeadSizes then Err(HeadSizeNotSupported(headSize))
    else
      DivMod(numHeads, kv);
      Ok(PagedAttention(numHeads, headSize, scale, kv, numHeads / kv, alibiSlopes, slidingWindow))
  }

  /** Without num_kv_heads the layer is plain multi-head attention: one query head per key/value head. */
  lemma DefaultIsMultiHead(numHeads: nat, headSize: nat, scale: real, alibiSlopes: Option<seq<real>>,
                           slidingWindow: Option<nat>)
    requires numHeads > 0 && headSize in SupportedHeadSizes
    ensures var r := NewPagedAttention(numHeads, headSize, scale, None, alibiSlopes, slidingWindow);
            r.Ok? && r.value.numKvHeads == numHeads && r.value.numQueriesPerKv == 1
  {
    var r := NewPagedAttention(numHeads, headSize, scale, None, alibiSlopes, slidingWindow);
    MulMonoStrict(r.value.numQueriesPerKv, 2, numHeads);
  }

  /**
   * Query heads are grouped onto key/value heads: query head h uses key/value head
   * h / num_queries_per_kv, which exists, and each key/value head serves exactly the
   * num_queries_per_kv consecutive query heads that map to it.
   */
  lemma QueryHeadsGroupOntoKvHeads(layer: PagedAttention, h: nat, kvHead: nat)
    requires layer.numQueriesPerKv * layer.numKvHeads == layer.numHeads && layer.numKvHeads > 0
    requires h < layer.numHeads
    ensures layer.numQueriesPerKv > 0
    ensures h / layer.numQueriesPerKv < layer.numKvHeads
    ensures h / layer.numQueriesPerKv == kvHead <==>
            kvHead * layer.numQueriesPerKv <= h < (kvHead + 1) * layer.numQueriesPerKv
  {
    var q := layer.numQueriesPerKv;
    assert q > 0;
    DivBelow(h, q, layer.numKvHeads);
    DivBounds(h, q);
    if kvHead * q <= h < (kvHead + 1) * q {
      DivModUnique(h, q, kvHead, h - kvHead * q);
    }
  }

  // ---------------------------------------------------------------- _paged_attention

  /** The number of V2 partitions for the longest context: ceil(max_context_len / 512). */
  function MaxNumPartitions(maxContextLen: nat): (p: nat)
    ensures p * PartitionSize >= maxContextLen
    ensures maxContextLen > 0 ==> (p - 1) * PartitionSize < maxContextLen
    ensures p == 0 <==> maxContextLen == 0
  {
    CeilDiv(maxContextLen, PartitionSize)
  }

  /** Every context position falls in one of the partitions. */
  lemma PartitionOfPosition(maxContextLen: nat, pos: nat)
    requires pos < maxContextLen
    ensures pos / PartitionSize < MaxNumPartitions(maxContextLen)
  {
    DivBelow(pos, PartitionSize, MaxNumPartitions(maxContextLen));
  }

  datatype Kernel = V1 | V2

  /**
   * The PagedAttention kernel for a decoding step: V1 when the longest context is at most
   * 8192 tokens and either fits one partition or the batch has more than 512
   * (sequence, head) pairs; otherwise V2, which asserts that a partition is a whole number
   * of cache blocks.
   */
  function PagedAttentionKernel(maxContextLen: nat, numSeqs: nat, numHeads: nat, blockSize: nat)
    : (r: Result<Kernel, AttentionError>)
    ensures var useV1 := maxContextLen <= 8192 && (MaxNumPartitions(maxContextLen) == 1 || numSeqs * numHeads > 512);
            && (r == Ok(V1) <==> useV1)
            && (r == Ok(V2) <==> !useV1 && blockSize > 0 && PartitionSize % blockSize == 0)
            && (r == Err(ZeroDivision) <==> !useV1 && blockSize == 0)
            && (r == Err(AssertionFailed) <==> !useV1 && blockSize > 0 && PartitionSize % blockSize != 0)
  {
    var useV1 := maxContextLen <= 8192 && (MaxNumPartitions(maxContextLen) == 1 || numSeqs * numHeads > 512);
    if useV1 then Ok(V1)
    else if blockSize == 0 then Err(ZeroDivision)
    else if PartitionSize % blockSize != 0 then Err(AssertionFailed)
    else Ok(V2)
  }

  /** A context of one partition always runs V1, whatever the batch. */
  lemma OnePartitionRunsV1(maxContextLen: nat, numSeqs: nat, numHeads: nat, blockSize: nat)
    requires 0 < maxContextLen <= PartitionSize
    ensures PagedAttentionKernel(maxContextLen, numSeqs, numHeads, blockSize) == Ok(V1)
  {
  }

  /** A context longer than 8192 tokens never runs V1. */
  lemma LongContextNeverV1(maxContextLen: nat, numSeqs: nat, numHeads: nat, blockSize: nat)
    requires maxContextLen > 8192
    ensures PagedAttentionKernel(maxContextLen, numSeqs, numHeads, blockSize) != Ok(V1)
  {
  }

  /** The shape of V2's per-partition scratch output: [num_seqs, num_heads, partitions, head_size]. */
  function V2TmpOutputShape(numSeqs: nat, numHeads: nat, maxContextLen: nat, headSize: nat): (shape: seq<nat>)
    ensures |shape| == 4 && shape[0] == numSeqs && shape[1] == numHeads && shape[3] == headSize
    ensures shape[2] * PartitionSize >= maxContextLen
  {
    [numSeqs, numHeads, MaxNumPartitions(maxContextLen), headSize]
  }

  // ---------------------------------------------------------------- _make_alibi_bias

  /** The relative position matrix: entry [i][j] is key position j minus query position i. */
  function RelativePositions(seqLen: nat): (m: seq<seq<int>>)
    ensures |m| == seqLen && forall i :: 0 <= i < seqLen ==> |m[i]| == seqLen
    ensures forall i, j :: 0 <= i < seqLen && 0 <= j < seqLen ==> m[i][j] == j - i
  {
    seq(seqLen, i requires 0 <= i < seqLen => seq(seqLen, j requires 0 <= j < seqLen => j - i))
  }

  /**
   * The bias is zero on the diagonal, antisymmetric, and never positive where the causal
   * mask lets query i see key j (j <= i), so positive slopes penalise distant keys.
   */
  lemma RelativePositionsCausal(seqLen: nat, i: nat, j: nat)
    requires i < seqLen && j < seqLen
    ensures var m := RelativePositions(seqLen);
            m[i][i] == 0 && m[i][j] == -m[j][i] && (j <= i ==> m[i][j] <= 0)
  {
  }

  /** The width of the buffer the bias is sliced from: seq_len rounded up to a multiple of 8. */
  function PaddedLen(seqLen: nat): (w: nat)
    ensures w % 8 == 0 && seqLen <= w < seqLen + 8
  {
    DivBounds(seqLen + 7, 8);
    (seqLen + 7) / 8 * 8
  }

  /** No smaller multiple of 8 holds seq_len. */
  lemma PaddedLenLeast(seqLen: nat, w: nat)
    requires w % 8 == 0 && seqLen <= w
    ensures PaddedLen(seqLen) <= w
  {
    var p := PaddedLen(seqLen);
    DivMod(w, 8);
    DivMod(p, 8);
  }

  /**
   * Copying the relative positions into the first seq_len columns of an uninitialised
   * [seq_len, padded_len] buffer: row i keeps the buffer's padding columns.
   */
  function CopyIntoPadded(buffer: seq<seq<int>>, seqLen: nat): (b: seq<seq<int>>)
    requires |buffer| == seqLen && forall i :: 0 <= i < seqLen ==> |buffer[i]| == PaddedLen(seqLen)
    ensures |b| == seqLen
    ensures forall i :: 0 <= i < seqLen ==> |b[i]| == PaddedLen(seqLen)
    ensures forall i, j :: 0 <= i < seqLen && seqLen <= j < PaddedLen(seqLen) ==> b[i][j] == buffer[i][j]
  {
    var rel := RelativePositions(seqLen);
    assert seqLen <= PaddedLen(seqLen);
    seq(seqLen, i requires 0 <= i < seqLen => rel[i] + buffer[i][seqLen..])
  }

  /** The slice [:, :seq_len] of a padded buffer. */
  function SliceColumns(b: seq<seq<int>>, seqLen: nat): (v: seq<seq<int>>)
    requires forall i :: 0 <= i < |b| ==> |b[i]| >= seqLen
    ensures |v| == |b| && forall i :: 0 <= i < |b| ==> v[i] == b[i][..seqLen]
  {
    seq(|b|, i requires 0 <= i < |b| => b[i][..seqLen])
  }

  /** The sliced view of the padded buffer is exactly the relative position matrix, whatever the buffer held. */
  lemma PaddedSliceIsRelativePositions(buffer: seq<seq<int>>, seqLen: nat)
    requires |buffer| == seqLen && forall i :: 0 <= i < seqLen ==> |buffer[i]| == PaddedLen(seqLen)
    ensures SliceColumns(CopyIntoPadded(buffer, seqLen), seqLen) == RelativePositions(seqLen)
  {
    var b := CopyIntoPadded(buffer, seqLen);
    var rel := RelativePositions(seqLen);
    forall i | 0 <= i < seqLen
      ensures b[i][..seqLen] == rel[i]
    {
      assert b[i] == rel[i] + buffer[i][seqLen..];
    }
  }

  /**
   * The shape of the bias: [batch, heads, seq_len, seq_len], with the heads dimension split
   * into [num_kv_heads, heads per kv head] when the layer groups its query heads.
   * `unflatten` fails when the split does not multiply back to the number of heads.
   */
  function AlibiBiasShape(numHeads: nat, numKvHeads: nat, batchSize: nat, seqLen: nat)
    : (r: Result<seq<nat>, AttentionError>)
    ensures numHeads == numKvHeads ==> r == Ok([batchSize, numHeads, seqLen, seqLen])
    ensures numHeads != numKvHeads ==>
              (r == Err(ZeroDivision) <==> numKvHeads == 0)
              && (r.Ok? <==> numKvHeads > 0 && numHeads % numKvHeads == 0)
              && (r.Ok? ==> |r.value| == 5 && r.value[1] * r.value[2] == numHeads
                            && r.value[0] == batchSize && r.value[1] == numKvHeads
                            && r.value[3] == seqLen && r.value[4] == seqLen)
  {
    if numHeads == numKvHeads then Ok([batchSize, numHeads, seqLen, seqLen])
    else if numKvHeads == 0 then Err(ZeroDivision)
    else if (numHeads / numKvHeads) * numKvHeads != numHeads then Err(ShapeMismatch)
    else Ok([batchSize, numKvHeads, numHeads / numKvHeads, seqLen, seqLen])
  }

  /** The bias of head h between query i and key j: the head's slope times the relative position. */
  function AlibiBias(slopes: seq<real>, h: nat, i: nat, j: nat): (b: real)
    requires h < |slopes|
    ensures slopes[h] >= 0.0 && j <= i ==> b <= 0.0
    ensures i == j ==> b == 0.0
  {
    slopes[h] * ((j - i) as real)
  }

  /** The grouped layout addresses every head: head h sits at [h / per][h % per] and back. */
  lemma GroupedHeadIndex(numHeads: nat, numKvHeads: nat, h: nat)
    requires numKvHeads > 0 && numHeads % numKvHeads == 0 && h < numHeads
    ensures var per := numHeads / numKvHeads;
            per > 0 && h / per < numKvHeads && h % per < per && (h / per) * per + h % per == h
  {
    var per := numHeads / numKvHeads;
    DivMod(numHeads, numKvHeads);
    assert per * numKvHeads == numHeads;
    assert per > 0;
    DivBelow(h, per, numKvHeads);
    DivMod(h, per);
  }

  // ---------------------------------------------------------------- flash_single_query_cached_kv_attention

  /**
   * The checks of single-query flash attention, in order: cache blocks of at least 32
   * slots, no ALiBi slopes, one query per sequence.  On success the number of output rows,
   * batch_size * seqlen.
   */
  function FlashSingleQueryTokens(blockSize: nat, hasAlibi: bool, batchSize: nat, seqLen: nat)
    : (r: Result<nat, AttentionError>)
    ensures r == Err(BlockSizeTooSmall) <==> blockSize < 32
    ensures r == Err(AlibiNotSupported) <==> blockSize >= 32 && hasAlibi
    ensures r == Err(NotSingleQuery) <==> blockSize >= 32 && !hasAlibi && seqLen != 1
    ensures r.Ok? <==> blockSize >= 32 && !hasAlibi && seqLen == 1
    ensures r.Ok? ==> r.value == batchSize
  {
    if blockSize < 32 then Err(BlockSizeTooSmall)
    else if hasAlibi then Err(AlibiNotSupported)
    else if seqLen != 1 then Err(NotSingleQuery)
    else Ok(batchSize * seqLen)
  }

  /**
   * The copy of the kernel's rows into a possibly padded output tensor: only the first
   * num_tokens rows are overwritten, and the copy fails when the output has fewer rows.
   */
  function CopyValidRows<T>(output: seq<T>, out: seq<T>): (r: Result<seq<T>, AttentionError>)
    ensures r.Ok? <==> |out| <= |output|
    ensures r.Ok? ==> |r.value| == |output| && r.value[..|out|] == out && r.value[|out|..] == output[|out|..]
  {
    if |out| > |output| then Err(ShapeMismatch)
    else Ok(out + output[|out|..])
  }

  /** Copying into an output of exactly num_tokens rows replaces it; padding rows survive otherwise. */
  lemma CopyValidRowsPadding<T>(output: seq<T>, out: seq<T>, row: nat)
    requires |out| <= row < |output|
    ensures CopyValidRows(output, out).value[row] == output[row]
  {
    var r := CopyValidRows(output, out).value;
    assert r[row] == r[|out|..][row - |out|];
  }
}
