/**
 * The bookkeeping of vllm/worker/spec_decode/spec_decode_worker.py: how the GPU cache is
 * split between the draft (proposer) and target (scorer) models, when a step speculates,
 * how the accepted tokens of speculative and non-speculative sequence groups are put back
 * into batch order, and how the per-step sampler outputs are built from them.  The draft
 * and target models, the scorer and the rejection sampler are not part of this model: their
 * results are inputs.
 */
module SpecDecode {
  import opened Wrappers

  datatype SpecDecodeError =
    | ZeroDivision      // both cache block sizes are 0
    | AssertionFailed   // a failed `assert`

  // ---------------------------------------------------------------- cache split

  /**
   * split_num_cache_blocks_evenly: the number of blocks each model gets so that both
   * together use no more cache than the target model alone could.  The source divides in
   * floating point and truncates; here the quotient is exact and floored.
   */
  function SplitNumCacheBlocksEvenly(scorerBlockBytes: nat, proposerBlockBytes: nat, totalNumGpuBlocks: nat)
    : (r: Result<nat, SpecDecodeError>)
    ensures r.Err? <==> proposerBlockBytes + scorerBlockBytes == 0
    ensures r.Ok? ==> r.value <= totalNumGpuBlocks
    ensures r.Ok? ==> r.value * (proposerBlockBytes + scorerBlockBytes) <= totalNumGpuBlocks * scorerBlockBytes
                      < (r.value + 1) * (proposerBlockBytes + scorerBlockBytes)
  {
    var both := proposerBlockBytes + scorerBlockBytes;
    if both == 0 then Err(ZeroDivision)
    else
      var n := totalNumGpuBlocks * scorerBlockBytes / both;
      SplitBounds(scorerBlockBytes, proposerBlockBytes, totalNumGpuBlocks);
      Ok(n)
  }

  lemma SplitBounds(scorer: nat, proposer: nat, total: nat)
    requires proposer + scorer > 0
    ensures var n := total * scorer / (proposer + scorer);
            n <= total && n * (proposer + scorer) <= total * scorer < (n + 1) * (proposer + scorer)
  {
    var both := proposer + scorer;
    var n := total * scorer / both;
    assert total * scorer <= total * both;
  }

  /**
   * Both models fit: the blocks each gets, at their own block sizes, take no more bytes
   * than the target model's share alone, and one block more each would not.
   */
  lemma SplitFitsBothModels(scorerBlockBytes: nat, proposerBlockBytes: nat, totalNumGpuBlocks: nat)
    requires proposerBlockBytes + scorerBlockBytes > 0
    ensures var n := SplitNumCacheBlocksEvenly(scorerBlockBytes, proposerBlockBytes, totalNumGpuBlocks).value;
            n * scorerBlockBytes + n * proposerBlockBytes <= totalNumGpuBlocks * scorerBlockBytes
            && (n + 1) * scorerBlockBytes + (n + 1) * proposerBlockBytes > totalNumGpuBlocks * scorerBlockBytes
  {
    var n := SplitNumCacheBlocksEvenly(scorerBlockBytes, proposerBlockBytes, totalNumGpuBlocks).value;
    assert n * (proposerBlockBytes + scorerBlockBytes) == n * scorerBlockBytes + n * proposerBlockBytes;
    assert (n + 1) * (proposerBlockBytes + scorerBlockBytes)
           == (n + 1) * scorerBlockBytes + (n + 1) * proposerBlockBytes;
  }

  /** profile_num_available_blocks: the target's CPU blocks, and the split of its GPU blocks. */
  function ProfileNumAvailableBlocks(numGpuBlocks: nat, numCpuBlocks: nat, scorerBlockBytes: nat,
                                     proposerBlockBytes: nat): (r: Result<(nat, nat), SpecDecodeError>)
    ensures r.Ok? <==> proposerBlockBytes + scorerBlockBytes > 0
    ensures r.Ok? ==> r.value.0 <= numGpuBlocks && r.value.1 == numCpuBlocks
  {
    var split := SplitNumCacheBlocksEvenly(scorerBlockBytes, proposerBlockBytes, numGpuBlocks);
    if split.Err? then Err(split.error) else Ok((split.value, numCpuBlocks))
  }

  /** _vocab_size: the draft and target vocabularies must agree. */
  function VocabSize(proposerVocabSize: int, scorerVocabSize: int): (r: Result<int, SpecDecodeError>)
    ensures r.Ok? <==> proposerVocabSize == scorerVocabSize
    ensures r.Ok? ==> r.value == proposerVocabSize && r.value == scorerVocabSize
  {
    if proposerVocabSize == scorerVocabSize then Ok(proposerVocabSize) else Err(AssertionFailed)
  }

  // ---------------------------------------------------------------- batch order

  predicate Increasing(s: seq<nat>)
  {
    forall i, j :: 0 <= i < j < |s| ==> s[i] < s[j]
  }

  /**
   * The positions of the batch whose proposal length is non-zero (`spec` true) or zero
   * (`spec` false), in increasing order.
   */
  function IndicesWhere(proposalLens: seq<int>, spec: bool): (r: seq<nat>)
    ensures |r| <= |proposalLens|
    ensures forall j :: 0 <= j < |r| ==> r[j] < |proposalLens| && (proposalLens[r[j]] != 0) == spec
  {
    if proposalLens == [] then []
    else
      var n := |proposalLens| - 1;
      var init := IndicesWhere(proposalLens[..n], spec);
      init + (if (proposalLens[n] != 0) == spec then [n] else [])
  }

  /** The selection names every position of its kind, in increasing order. */
  lemma {:induction false} IndicesWhereComplete(proposalLens: seq<int>, spec: bool)
    ensures forall i :: 0 <= i < |proposalLens| && (proposalLens[i] != 0) == spec ==> i in IndicesWhere(proposalLens, spec)
    ensures Increasing(IndicesWhere(proposalLens, spec))
    decreases |proposalLens|
  {
    if proposalLens != [] {
      var n := |proposalLens| - 1;
      IndicesWhereComplete(proposalLens[..n], spec);
      var init := IndicesWhere(proposalLens[..n], spec);
      var r := IndicesWhere(proposalLens, spec);
      assert r == init + (if (proposalLens[n] != 0) == spec then [n] else []);
      forall i | 0 <= i < |proposalLens| && (proposalLens[i] != 0) == spec
        ensures i in r
      {
        if i < n {
          assert proposalLens[..n][i] == proposalLens[i];
          assert i in init;
        }
      }
    }
  }

  /** spec_indices: the sequence groups that received a proposal. */
  function SpecIndices(proposalLens: seq<int>): (r: seq<nat>)
    ensures forall j :: 0 <= j < |r| ==> r[j] < |proposalLens| && proposalLens[r[j]] != 0
  {
    IndicesWhere(proposalLens, true)
  }

  /** non_spec_indices: the sequence groups that did not. */
  function NonSpecIndices(proposalLens: seq<int>): (r: seq<nat>)
    ensures forall j :: 0 <= j < |r| ==> r[j] < |proposalLens| && proposalLens[r[j]] == 0
  {
    IndicesWhere(proposalLens, false)
  }

  /** original_indices: speculative groups first, then the others. */
  function OriginalIndices(proposalLens: seq<int>): (r: seq<nat>)
    ensures |r| == |proposalLens|
    ensures forall j :: 0 <= j < |r| ==> r[j] < |proposalLens|
  {
    IndicesPartition(proposalLens);
    SpecIndices(proposalLens) + NonSpecIndices(proposalLens)
  }

  /** A list of positions below n that names each of them once. */
  predicate IsPermutation(s: seq<nat>, n: nat)
  {
    |s| == n && (forall j :: 0 <= j < |s| ==> s[j] < n) && forall i, j :: 0 <= i < j < |s| ==> s[i] != s[j]
  }

  /** Both index lists together name every group exactly once. */
  lemma {:induction false} IndicesPartition(proposalLens: seq<int>)
    ensures |SpecIndices(proposalLens)| + |NonSpecIndices(proposalLens)| == |proposalLens|
    ensures forall i :: 0 <= i < |proposalLens| ==> (i in SpecIndices(proposalLens) <==> i !in NonSpecIndices(proposalLens))
    decreases |proposalLens|
  {
    IndicesWhereComplete(proposalLens, true);
    IndicesWhereComplete(proposalLens, false);
    if proposalLens != [] {
      IndicesPartition(proposalLens[..|proposalLens| - 1]);
    }
  }

  /** original_indices is a permutation of the batch positions. */
  lemma OriginalIndicesPermutation(proposalLens: seq<int>)
    ensures IsPermutation(OriginalIndices(proposalLens), |proposalLens|)
  {
    IndicesPartition(proposalLens);
    IndicesWhereComplete(proposalLens, true);
    IndicesWhereComplete(proposalLens, false);
    var spec, nonSpec := SpecIndices(proposalLens), NonSpecIndices(proposalLens);
    var o := OriginalIndices(proposalLens);
    forall i, j | 0 <= i < j < |o|
      ensures o[i] != o[j]
    {
      if j < |spec| || i >= |spec| {
      } else {
        assert o[i] in spec && o[j] == nonSpec[j - |spec|];
      }
    }
  }

  /** Selecting from a longer batch extends the selection from its prefix. */
  lemma {:induction false} IndicesPrefix(proposalLens: seq<int>, m: nat, spec: bool)
    requires m <= |proposalLens|
    ensures IndicesWhere(proposalLens[..m], spec) <= IndicesWhere(proposalLens, spec)
    decreases |proposalLens|
  {
    if m < |proposalLens| {
      var n := |proposalLens| - 1;
      assert proposalLens[..n][..m] == proposalLens[..m];
      IndicesPrefix(proposalLens[..n], m, spec);
    } else {
      assert proposalLens[..m] == proposalLens;
    }
  }

  /** The place of group i in its index list: the number of groups of its kind before it. */
  function Rank(proposalLens: seq<int>, i: nat): nat
    requires i < |proposalLens|
  {
    |IndicesWhere(proposalLens[..i], proposalLens[i] != 0)|
  }

  /** Group i sits at its rank in its index list, and nowhere else. */
  lemma RankIsPosition(proposalLens: seq<int>, i: nat, p: nat)
    requires i < |proposalLens|
    ensures var r := IndicesWhere(proposalLens, proposalLens[i] != 0);
            Rank(proposalLens, i) < |r| && r[Rank(proposalLens, i)] == i
            && (p < |r| && r[p] == i ==> p == Rank(proposalLens, i))
  {
    var spec := proposalLens[i] != 0;
    var r := IndicesWhere(proposalLens, spec);
    IndicesWhereComplete(proposalLens, spec);
    IndicesPrefix(proposalLens, i + 1, spec);
    assert proposalLens[..i + 1][..i] == proposalLens[..i];
  }

  // ---------------------------------------------------------------- _verify_tokens

  /**
   * The row of a group that was not speculated on: its scored token, then -1 for each of
   * the k speculative positions (expand to width k + 1, then overwrite columns 1..).
   */
  function NonSpecRow(scoredTokens: seq<int>, k: nat): (row: seq<int>)
    requires |scoredTokens| >= 1
    ensures |row| == k + 1 && row[0] == scoredTokens[0]
    ensures forall c :: 1 <= c <= k ==> row[c] == -1
  {
    [scoredTokens[0]] + seq(k, _ => -1)
  }

  /**
   * The row the result holds for group i: the rejection sampler's row for it if it was
   * speculated on, otherwise its non-speculative row.
   */
  function ExpectedRow(proposalLens: seq<int>, scoredTokens: seq<seq<int>>, accepted: seq<seq<int>>, k: nat, i: nat)
    : seq<int>
    requires |scoredTokens| == |proposalLens| && forall g :: 0 <= g < |scoredTokens| ==> |scoredTokens[g]| >= 1
    requires |accepted| == |SpecIndices(proposalLens)|
    requires i < |proposalLens|
  {
    RankIsPosition(proposalLens, i, 0);
    if proposalLens[i] != 0 then accepted[Rank(proposalLens, i)] else NonSpecRow(scoredTokens[i], k)
  }

  /**
   * _verify_tokens after rejection sampling: the accepted rows of the speculative groups and
   * the padded rows of the others are concatenated, then written back in place so that row
   * original_indices[j] receives concatenated row j.  The result holds each group's own row
   * at the group's position.
   */
  method VerifyTokens(proposalLens: seq<int>, scoredTokens: seq<seq<int>>, accepted: seq<seq<int>>, k: nat)
    returns (result: array<seq<int>>)
    requires |scoredTokens| == |proposalLens|
    requires forall g :: 0 <= g < |scoredTokens| ==> |scoredTokens[g]| == 1 || |scoredTokens[g]| == k + 1
    requires |accepted| == |SpecIndices(proposalLens)|
    ensures fresh(result) && result.Length == |proposalLens|
    ensures forall i :: 0 <= i < |proposalLens| ==>
              result[i] == ExpectedRow(proposalLens, scoredTokens, accepted, k, i)
  {
    var spec, nonSpec := SpecIndices(proposalLens), NonSpecIndices(proposalLens);
    var originalIndices := spec + nonSpec;
    OriginalIndicesPermutation(proposalLens);
    var nonSpecRows := seq(|nonSpec|, q requires 0 <= q < |nonSpec| => NonSpecRow(scoredTokens[nonSpec[q]], k));
    var rows := accepted + nonSpecRows;
    result := new seq<int>[|rows|](j requires 0 <= j < |rows| => rows[j]);
    Scatter(result, originalIndices);
    PlacedRows(proposalLens, scoredTokens, accepted, k, result[..]);
  }

  /**
   * The in-place write-back `t[order] = t.clone()`: row j of the array as it was lands at
   * position order[j].
   */
  method Scatter<T>(a: array<T>, order: seq<nat>)
    requires IsPermutation(order, a.Length)
    modifies a
    ensures forall j :: 0 <= j < |order| ==> a[order[j]] == old(a[j])
  {
    var snapshot := a[..];
    for j := 0 to |order|
      invariant forall j' :: 0 <= j' < j ==> a[order[j']] == snapshot[j']
    {
      a[order[j]] := snapshot[j];
    }
  }

  /**
   * Writing concatenated row j at position original_indices[j] puts each group's own row at
   * the group's position.
   */
  lemma PlacedRows(proposalLens: seq<int>, scoredTokens: seq<seq<int>>, accepted: seq<seq<int>>, k: nat,
                   result: seq<seq<int>>)
    requires |scoredTokens| == |proposalLens| && forall g :: 0 <= g < |scoredTokens| ==> |scoredTokens[g]| >= 1
    requires |accepted| == |SpecIndices(proposalLens)|
    requires |result| == |proposalLens|
    requires var o := OriginalIndices(proposalLens);
             var nonSpec := NonSpecIndices(proposalLens);
             var rows := accepted + seq(|nonSpec|, q requires 0 <= q < |nonSpec| => NonSpecRow(scoredTokens[nonSpec[q]], k));
             |o| == |rows| && forall j :: 0 <= j < |o| ==> o[j] < |result| && result[o[j]] == rows[j]
    ensures forall i :: 0 <= i < |proposalLens| ==> result[i] == ExpectedRow(proposalLens, scoredTokens, accepted, k, i)
  {
    var spec, nonSpec := SpecIndices(proposalLens), NonSpecIndices(proposalLens);
    var o := OriginalIndices(proposalLens);
    var rows := accepted + seq(|nonSpec|, q requires 0 <= q < |nonSpec| => NonSpecRow(scoredTokens[nonSpec[q]], k));
    forall i | 0 <= i < |proposalLens|
      ensures result[i] == ExpectedRow(proposalLens, scoredTokens, accepted, k, i)
    {
      RankIsPosition(proposalLens, i, 0);
      var p := Rank(proposalLens, i);
      if proposalLens[i] != 0 {
        assert o[p] == i && rows[p] == accepted[p];
      } else {
        var j := |spec| + p;
        assert nonSpec[p] == i;
        assert o[j] == nonSpec[p];
        assert rows[j] == NonSpecRow(scoredTokens[i], k);
      }
    }
  }

  // ---------------------------------------------------------------- sampler outputs

  datatype SequenceOutput = SequenceOutput(parentSeqId: int, outputToken: int, logprobs: map<int, real>)

  datatype SequenceGroupOutput = SequenceGroupOutput(samples: seq<SequenceOutput>)

  datatype SamplerOutput = SamplerOutput(outputs: seq<SequenceGroupOutput>)

  /** The columns of a [batch, width] token tensor: one list of tokens per step. */
  function Transpose(rows: seq<seq<int>>, width: nat): (steps: seq<seq<int>>)
    requires forall i :: 0 <= i < |rows| ==> |rows[i]| == width
    ensures |steps| == width
    ensures forall s :: 0 <= s < width ==> |steps[s]| == |rows| && forall i :: 0 <= i < |rows| ==> steps[s][i] == rows[i][s]
  {
    seq(width, s requires 0 <= s < width => seq(|rows|, i requires 0 <= i < |rows| => rows[i][s]))
  }

  /** A step in which no sequence produced a token. */
  predicate AllPadding(tokens: seq<int>)
  {
    forall j :: 0 <= j < |tokens| ==> tokens[j] == -1
  }

  /**
   * The output of one step: one group output per (token, seq id) pair, holding a single
   * sample whose log-probability map gives the token 0.0.
   */
  function StepOutput(tokens: seq<int>, seqIds: seq<int>): (out: SamplerOutput)
    ensures |out.outputs| == if |tokens| < |seqIds| then |tokens| else |seqIds|
    ensures forall j :: 0 <= j < |out.outputs| ==>
              out.outputs[j].samples == [SequenceOutput(seqIds[j], tokens[j], map[tokens[j] := 0.0])]
  {
    var n := if |tokens| < |seqIds| then |tokens| else |seqIds|;
    SamplerOutput(seq(n, j requires 0 <= j < n =>
      SequenceGroupOutput([SequenceOutput(seqIds[j], tokens[j], map[tokens[j] := 0.0])])))
  }

  /**
   * The outputs of the steps up to, and not including, the first step in which every token
   * is -1.
   */
  function OutputList(steps: seq<seq<int>>, seqIds: seq<int>): (r: seq<SamplerOutput>)
    ensures |r| <= |steps|
  {
    if steps == [] || AllPadding(steps[0]) then []
    else [StepOutput(steps[0], seqIds)] + OutputList(steps[1..], seqIds)
  }

  /**
   * Output s is the output of step s, every step before the end of the list has a token,
   * and the list ends at the last step or at a step with no token.
   */
  lemma {:induction false} OutputListSteps(steps: seq<seq<int>>, seqIds: seq<int>)
    ensures var r := OutputList(steps, seqIds);
            (forall s :: 0 <= s < |r| ==> !AllPadding(steps[s]) && r[s] == StepOutput(steps[s], seqIds))
            && (|r| < |steps| ==> AllPadding(steps[|r|]))
    decreases |steps|
  {
    if steps != [] && !AllPadding(steps[0]) {
      OutputListSteps(steps[1..], seqIds);
      var r := OutputList(steps, seqIds);
      var tail := OutputList(steps[1..], seqIds);
      forall s | 1 <= s < |r|
        ensures !AllPadding(steps[s]) && r[s] == StepOutput(steps[s], seqIds)
      {
        assert r[s] == tail[s - 1] && steps[1..][s - 1] == steps[s];
      }
      if |r| < |steps| {
        assert steps[1..][|tail|] == steps[|r|];
      }
    }
  }

  /** The steps after the first all-padding step produce no output, whatever they hold. */
  lemma {:induction false} OutputListStopsAtPadding(steps: seq<seq<int>>, rest: seq<seq<int>>, pad: seq<int>, seqIds: seq<int>)
    requires AllPadding(pad) && forall s :: 0 <= s < |steps| ==> !AllPadding(steps[s])
    ensures OutputList(steps + [pad] + rest, seqIds) == OutputList(steps, seqIds)
    ensures |OutputList(steps, seqIds)| == |steps|
    decreases |steps|
  {
    if steps == [] {
      assert (steps + [pad] + rest)[0] == pad;
    } else {
      assert (steps + [pad] + rest)[1..] == steps[1..] + [pad] + rest;
      OutputListStopsAtPadding(steps[1..], rest, pad, seqIds);
    }
  }

  /**
   * _create_output_sampler_list: walk the steps of the accepted token ids, stop at the first
   * step with no token, and emit one output per step.  The optional rejection-sampling
   * metrics attached to the first output are not modelled.
   */
  method CreateOutputSamplerList(seqIds: seq<int>, acceptedTokenIds: seq<seq<int>>, k: nat)
    returns (samplerOutputList: seq<SamplerOutput>)
    requires forall i :: 0 <= i < |acceptedTokenIds| ==> |acceptedTokenIds[i]| == k + 1
    ensures samplerOutputList == OutputList(Transpose(acceptedTokenIds, k + 1), seqIds)
    ensures |samplerOutputList| <= k + 1
  {
    var steps := Transpose(acceptedTokenIds, k + 1);
    samplerOutputList := OutputsOfSteps(steps, seqIds);
  }

  /** The loop of _create_output_sampler_list over the steps. */
  method OutputsOfSteps(steps: seq<seq<int>>, seqIds: seq<int>) returns (samplerOutputList: seq<SamplerOutput>)
    ensures samplerOutputList == OutputList(steps, seqIds)
  {
    samplerOutputList := [];
    var s := 0;
    while s < |steps|
      invariant s <= |steps|
      invariant OutputList(steps, seqIds) == samplerOutputList + OutputList(steps[s..], seqIds)
    {
      var tokenIdsByStep := steps[s];
      if AllPadding(tokenIdsByStep) {
        OutputListAtPadding(steps, s, seqIds, samplerOutputList);
        return;
      }
      var stepOutput := CreateStepOutput(tokenIdsByStep, seqIds);
      OutputListNext(steps, s, seqIds, samplerOutputList);
      samplerOutputList := samplerOutputList + [stepOutput];
      s := s + 1;
    }
    OutputListAtEnd(steps, s, seqIds, samplerOutputList);
  }

  /**
   * The inner loop of _create_output_sampler_list: one group output per (token, seq id)
   * pair of a step.
   */
  method CreateStepOutput(tokenIdsByStep: seq<int>, seqIds: seq<int>) returns (out: SamplerOutput)
    ensures out == StepOutput(tokenIdsByStep, seqIds)
  {
    var stepOutputTokenIds := [];
    var j := 0;
    while j < |tokenIdsByStep| && j < |seqIds|
      invariant j <= |tokenIdsByStep| && j <= |seqIds|
      invariant stepOutputTokenIds == StepOutput(tokenIdsByStep[..j], seqIds[..j]).outputs
    {
      var tokenId := tokenIdsByStep[j];
      StepOutputSnoc(tokenIdsByStep, seqIds, j);
      stepOutputTokenIds := stepOutputTokenIds
        + [SequenceGroupOutput([SequenceOutput(seqIds[j], tokenId, map[tokenId := 0.0])])];
      j := j + 1;
    }
    StepOutputWhole(tokenIdsByStep, seqIds, j);
    out := SamplerOutput(stepOutputTokenIds);
  }

  /** One more (token, seq id) pair adds one group output. */
  lemma StepOutputSnoc(tokens: seq<int>, seqIds: seq<int>, j: nat)
    requires j < |tokens| && j < |seqIds|
    ensures StepOutput(tokens[..j + 1], seqIds[..j + 1]).outputs
            == StepOutput(tokens[..j], seqIds[..j]).outputs
               + [SequenceGroupOutput([SequenceOutput(seqIds[j], tokens[j], map[tokens[j] := 0.0])])]
  {
  }

  /** The zip stops at the shorter list. */
  lemma StepOutputWhole(tokens: seq<int>, seqIds: seq<int>, j: nat)
    requires j <= |tokens| && j <= |seqIds| && (j == |tokens| || j == |seqIds|)
    ensures StepOutput(tokens[..j], seqIds[..j]) == StepOutput(tokens, seqIds)
  {
  }

  /** A step with no token ends the walk: the outputs so far are all of them. */
  lemma OutputListAtPadding(steps: seq<seq<int>>, s: nat, seqIds: seq<int>, done: seq<SamplerOutput>)
    requires s < |steps| && AllPadding(steps[s])
    requires OutputList(steps, seqIds) == done + OutputList(steps[s..], seqIds)
    ensures OutputList(steps, seqIds) == done
  {
    assert steps[s..][0] == steps[s];
    assert done + [] == done;
  }

  /** A step with a token contributes its output and the walk goes on. */
  lemma OutputListNext(steps: seq<seq<int>>, s: nat, seqIds: seq<int>, done: seq<SamplerOutput>)
    requires s < |steps| && !AllPadding(steps[s])
    requires OutputList(steps, seqIds) == done + OutputList(steps[s..], seqIds)
    ensures OutputList(steps, seqIds) == (done + [StepOutput(steps[s], seqIds)]) + OutputList(steps[s + 1..], seqIds)
  {
    assert steps[s..][1..] == steps[s + 1..];
    assert OutputList(steps[s..], seqIds) == [StepOutput(steps[s], seqIds)] + OutputList(steps[s + 1..], seqIds);
  }

  /** Past the last step the walk has emitted everything. */
  lemma OutputListAtEnd(steps: seq<seq<int>>, s: nat, seqIds: seq<int>, done: seq<SamplerOutput>)
    requires s == |steps|
    requires OutputList(steps, seqIds) == done + OutputList(steps[s..], seqIds)
    ensures OutputList(steps, seqIds) == done
  {
    assert steps[s..] == [];
    assert done + [] == done;
  }

  // ---------------------------------------------------------------- execute_model

  /** execute_model speculates only with a positive number of tokens and a non-empty batch. */
  predicate Speculates(numSpecTokens: nat, batchSize: nat)
  {
    !(numSpecTokens == 0 || batchSize == 0)
  }

  /**
   * execute_model, with the draft and target workers' results as inputs: without
   * speculation the target's output for the batch is the single output; otherwise the
   * accepted tokens (rejection sampler rows for the speculated groups, the target's tokens
   * for the others) are put in batch order and turned into per-step outputs.
   */
  method ExecuteModel(seqIds: seq<int>, numSpecTokens: nat, noSpecOutput: SamplerOutput,
                      proposalLens: seq<int>, scoredTokens: seq<seq<int>>, accepted: seq<seq<int>>)
    returns (outputs: seq<SamplerOutput>)
    requires |scoredTokens| == |proposalLens|
    requires forall g :: 0 <= g < |scoredTokens| ==> |scoredTokens[g]| == 1 || |scoredTokens[g]| == numSpecTokens + 1
    requires |accepted| == |SpecIndices(proposalLens)|
    requires forall p :: 0 <= p < |accepted| ==> |accepted[p]| == numSpecTokens + 1
    ensures !Speculates(numSpecTokens, |proposalLens|) ==> outputs == [noSpecOutput]
    ensures Speculates(numSpecTokens, |proposalLens|) ==>
              outputs == OutputList(Transpose(ExpectedRows(proposalLens, scoredTokens, accepted, numSpecTokens),
                                              numSpecTokens + 1), seqIds)
  {
    var k := numSpecTokens;
    if k == 0 || |proposalLens| == 0 {
      return [noSpecOutput];
    }
    var acceptedTokenIds := VerifyTokens(proposalLens, scoredTokens, accepted, k);
    var rows := acceptedTokenIds[..];
    assert rows == ExpectedRows(proposalLens, scoredTokens, accepted, k);
    outputs := CreateOutputSamplerList(seqIds, rows, k);
  }

  /** The accepted token ids in batch order. */
  function ExpectedRows(proposalLens: seq<int>, scoredTokens: seq<seq<int>>, accepted: seq<seq<int>>, k: nat)
    : (rows: seq<seq<int>>)
    requires |scoredTokens| == |proposalLens| && forall g :: 0 <= g < |scoredTokens| ==> |scoredTokens[g]| >= 1
    requires |accepted| == |SpecIndices(proposalLens)|
    ensures |rows| == |proposalLens|
    ensures (forall p :: 0 <= p < |accepted| ==> |accepted[p]| == k + 1) ==> forall i :: 0 <= i < |rows| ==> |rows[i]| == k + 1
  {
    ExpectedRowWidths(proposalLens, scoredTokens, accepted, k);
    seq(|proposalLens|, i requires 0 <= i < |proposalLens| => ExpectedRow(proposalLens, scoredTokens, accepted, k, i))
  }

  /** Every row in batch order has width k + 1 when the rejection sampler's rows do. */
  lemma ExpectedRowWidths(proposalLens: seq<int>, scoredTokens: seq<seq<int>>, accepted: seq<seq<int>>, k: nat)
    requires |scoredTokens| == |proposalLens| && forall g :: 0 <= g < |scoredTokens| ==> |scoredTokens[g]| >= 1
    requires |accepted| == |SpecIndices(proposalLens)|
    ensures (forall p :: 0 <= p < |accepted| ==> |accepted[p]| == k + 1) ==>
            forall i :: 0 <= i < |proposalLens| ==> |ExpectedRow(proposalLens, scoredTokens, accepted, k, i)| == k + 1
  {
    forall i | 0 <= i < |proposalLens|
      ensures (forall p :: 0 <= p < |accepted| ==> |accepted[p]| == k + 1) ==>
              |ExpectedRow(proposalLens, scoredTokens, accepted, k, i)| == k + 1
    {
      RankIsPosition(proposalLens, i, 0);
    }
  }

  /**
   * A group that was not speculated on contributes its scored token at the first step and
   * no token at any later step.
   */
  lemma NonSpecTokenOnlyFirst(proposalLens: seq<int>, scoredTokens: seq<seq<int>>, accepted: seq<seq<int>>, k: nat, i: nat)
    requires |scoredTokens| == |proposalLens| && forall g :: 0 <= g < |scoredTokens| ==> |scoredTokens[g]| >= 1
    requires |accepted| == |SpecIndices(proposalLens)|
    requires i < |proposalLens| && proposalLens[i] == 0
    ensures var row := ExpectedRows(proposalLens, scoredTokens, accepted, k)[i];
            row[0] == scoredTokens[i][0] && forall s :: 1 <= s <= k ==> row[s] == -1
  {
  }
}
