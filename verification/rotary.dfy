/**
 * The SYCL rotary-position-embedding kernel of csrc/pos_encoding_kernels.dp.cpp.
 *
 * Query and key tensors are flat buffers of reals (exact arithmetic stands in for the
 * floating-point scalar type).  Every token owns a run of heads starting at
 * `token * stride`; every head owns `headSize` consecutive elements whose first
 * `rotDim` elements are rotated pair by pair with the cos/sin row of the token's
 * position.  The work-items of a work-group (the "lanes") run one after the other.
 */
module RotaryEmbedding {

  // ---------------------------------------------------------------------------
  // Integer facts the index arithmetic relies on
  // ---------------------------------------------------------------------------

  lemma {:induction false} MulAtLeast(a: int, e: int)
    requires a >= 1 && e >= 0
    ensures a * e >= e
  {
    if a > 1 { MulAtLeast(a - 1, e); }
  }

  /** Euclidean division has exactly one quotient/remainder pair. */
  lemma DivModUnique(a: int, l: int, q: int, m: int)
    requires 0 < l && 0 <= m < l && a == q * l + m
    ensures a / l == q && a % l == m
  {
    var q', m' := a / l, a % l;
    assert q' * l + m' == a;
    if q' > q { assert (q' - q) * l == m - m'; MulAtLeast(q' - q, l); assert false; }
    else if q' < q { assert (q - q') * l == m' - m; MulAtLeast(q - q', l); assert false; }
  }

  /** Head `head` of `numHeads` heads of `size` elements fits inside the run. */
  lemma HeadFits(numHeads: int, size: int, head: int)
    requires 0 <= head < numHeads && 0 <= size
    ensures 0 <= head * size && head * size + size <= numHeads * size
  {
    if head > 0 { MulAtLeast(head, size); }
    assert numHeads * size - head * size == (numHeads - head) * size;
    MulAtLeast(numHeads - head, size);
  }

  /** Two residues below `l` that agree modulo `l` inside one window of width `l` coincide. */
  lemma SameResidue(k: int, i: int, l: int)
    requires 0 < l && 0 <= i <= k < i + l && k % l == i % l
    ensures k == i
  {
    var qk, qi := k / l, i / l;
    if qk > qi { assert (qk - qi) * l == k - i; MulAtLeast(qk - qi, l); assert false; }
    else if qk < qi { assert (qi - qk) * l == i - k; MulAtLeast(qi - qk, l); assert false; }
  }

  lemma ModStep(i: int, l: int)
    requires 0 < l && 0 <= i
    ensures (i + l) % l == i % l
  {
    DivModUnique(i + l, l, i / l + 1, i % l);
  }

  lemma ModAtMost(k: int, l: int)
    requires 0 < l && 0 <= k
    ensures k % l <= k
  {
    if k < l { DivModUnique(k, l, 0, k); }
  }

  /**
   * The kernel's decomposition i |-> (i / embedDim, i % embedDim) is a bijection between
   * [0, numHeads * embedDim) and heads x rot_offsets, inverted by (h, r) |-> h * embedDim + r.
   */
  lemma HeadOffsetBijection(numHeads: int, embedDim: int, i: int, head: int, rotOffset: int)
    requires 0 <= numHeads && 0 <= embedDim
    ensures 0 <= i < numHeads * embedDim ==>
      0 <= i / embedDim < numHeads && 0 <= i % embedDim < embedDim &&
      (i / embedDim) * embedDim + i % embedDim == i
    ensures 0 <= head < numHeads && 0 <= rotOffset < embedDim ==>
      0 <= head * embedDim + rotOffset < numHeads * embedDim &&
      (head * embedDim + rotOffset) / embedDim == head &&
      (head * embedDim + rotOffset) % embedDim == rotOffset
  {
    if 0 <= i < numHeads * embedDim {
      DecomposeIndex(i, embedDim, numHeads);
    }
    if 0 <= head < numHeads && 0 <= rotOffset < embedDim {
      HeadFits(numHeads, embedDim, head);
      DivModUnique(head * embedDim + rotOffset, embedDim, head, rotOffset);
    }
  }

  lemma DecomposeIndex(i: int, embedDim: int, numHeads: int)
    requires 0 <= numHeads && 0 <= embedDim && 0 <= i < numHeads * embedDim
    ensures 0 < embedDim
    ensures 0 <= i / embedDim < numHeads && 0 <= i % embedDim < embedDim
    ensures (i / embedDim) * embedDim + i % embedDim == i
  {
    if embedDim == 0 { assert false; }
    var q := i / embedDim;
    if q >= numHeads {
      MulAtLeast(q - numHeads + 1, embedDim);
      assert false;
    }
  }

  // ---------------------------------------------------------------------------
  // Pairing of one rotation step (apply_rotary_embedding)
  // ---------------------------------------------------------------------------

  /**
   * Offsets, inside one head, of the two elements rotated for `rotOffset`:
   * GPT-NeoX pairs the two halves (r, embedDim + r), GPT-J neighbours (2r, 2r + 1).
   */
  function PairOffsets(isNeox: bool, rotOffset: int, embedDim: int): (p: (int, int))
    requires 0 <= rotOffset < embedDim
    ensures 0 <= p.0 < p.1 < 2 * embedDim
    ensures isNeox ==> p == (rotOffset, embedDim + rotOffset)
    ensures !isNeox ==> p == (2 * rotOffset, 2 * rotOffset + 1)
  {
    if isNeox then (rotOffset, embedDim + rotOffset)
    else (2 * rotOffset, 2 * rotOffset + 1)
  }

  /** Index into the cos and sin rows read for `rotOffset`; both layouts read index `rotOffset`. */
  function CosSinIndex(isNeox: bool, rotOffset: int, embedDim: int): (c: int)
    requires 0 <= rotOffset < embedDim
    ensures c == rotOffset
  {
    var xIndex := PairOffsets(isNeox, rotOffset, embedDim).0;
    if isNeox then xIndex else xIndex / 2
  }

  /** The rot_offset whose pair contains head offset `offset` (< rot_dim). */
  function PairRotOffset(isNeox: bool, offset: int, embedDim: int): (r: int)
    requires 0 <= offset < 2 * embedDim
    ensures 0 <= r < embedDim
    ensures offset == PairOffsets(isNeox, r, embedDim).0 || offset == PairOffsets(isNeox, r, embedDim).1
  {
    if isNeox then (if offset < embedDim then offset else offset - embedDim)
    else offset / 2
  }

  /** Each element of a pair is owned by that pair's rot_offset and no other. */
  lemma PairOwner(isNeox: bool, rotOffset: int, embedDim: int)
    requires 0 <= rotOffset < embedDim
    ensures PairRotOffset(isNeox, PairOffsets(isNeox, rotOffset, embedDim).0, embedDim) == rotOffset
    ensures PairRotOffset(isNeox, PairOffsets(isNeox, rotOffset, embedDim).1, embedDim) == rotOffset
  {
  }

  /** Distinct rot_offsets rotate disjoint pairs, so each rotated element is written once. */
  lemma PairsDisjoint(isNeox: bool, r1: int, r2: int, embedDim: int)
    requires 0 <= r1 < embedDim && 0 <= r2 < embedDim && r1 != r2
    ensures var p1, p2 := PairOffsets(isNeox, r1, embedDim), PairOffsets(isNeox, r2, embedDim);
      p1.0 != p2.0 && p1.0 != p2.1 && p1.1 != p2.0 && p1.1 != p2.1
  {
    PairOwner(isNeox, r1, embedDim);
    PairOwner(isNeox, r2, embedDim);
  }

  /** The rotation of one pair: (x cos - y sin, y cos + x sin). */
  function Rotate(x: real, y: real, cos: real, sin: real): (real, real)
  {
    (x * cos - y * sin, y * cos + x * sin)
  }

  /** With cos^2 + sin^2 = 1 a rotation keeps the squared norm of the pair. */
  lemma NormPreserved(x: real, y: real, cos: real, sin: real)
    requires cos * cos + sin * sin == 1.0
    ensures var p := Rotate(x, y, cos, sin);
      p.0 * p.0 + p.1 * p.1 == x * x + y * y
  {
    var p := Rotate(x, y, cos, sin);
    calc {
      p.0 * p.0 + p.1 * p.1;
      (x * x + y * y) * (cos * cos + sin * sin);
      x * x + y * y;
    }
  }

  /**
   * The value element `offset` of the head starting at `headBase` in `s` holds once the
   * whole head is rotated: rotated elements take their pair's rotation, computed from the
   * values before the rotation; elements at offset >= rot_dim keep their value.
   */
  function RotatedValue(s: seq<real>, headBase: int, cosRow: seq<real>, sinRow: seq<real>,
                        embedDim: int, isNeox: bool, offset: int): real
    requires 0 <= headBase && 0 <= offset && headBase + offset < |s| && headBase + 2 * embedDim <= |s|
    requires 0 <= embedDim <= |cosRow| && embedDim <= |sinRow|
  {
    if offset >= 2 * embedDim then s[headBase + offset]
    else
      var r := PairRotOffset(isNeox, offset, embedDim);
      var p := PairOffsets(isNeox, r, embedDim);
      var rotated := Rotate(s[headBase + p.0], s[headBase + p.1], cosRow[r], sinRow[r]);
      if offset == p.0 then rotated.0 else rotated.1
  }

  /** A rotated value only depends on its own element and the other element of its pair. */
  lemma RotatedValueFrame(s1: seq<real>, s2: seq<real>, headBase: int, cosRow: seq<real>, sinRow: seq<real>,
                          embedDim: int, isNeox: bool, offset: int)
    requires 0 <= headBase && 0 <= offset && headBase + offset < |s1| && headBase + 2 * embedDim <= |s1|
    requires |s1| == |s2| && 0 <= embedDim <= |cosRow| && embedDim <= |sinRow|
    requires s1[headBase + offset] == s2[headBase + offset]
    requires offset < 2 * embedDim ==>
      var p := PairOffsets(isNeox, PairRotOffset(isNeox, offset, embedDim), embedDim);
      s1[headBase + p.0] == s2[headBase + p.0] && s1[headBase + p.1] == s2[headBase + p.1]
    ensures RotatedValue(s1, headBase, cosRow, sinRow, embedDim, isNeox, offset)
         == RotatedValue(s2, headBase, cosRow, sinRow, embedDim, isNeox, offset)
  {
  }

  /** One head rotated as a whole; elements past rot_dim are left as they were. */
  function RotatedHead(head: seq<real>, cosRow: seq<real>, sinRow: seq<real>, embedDim: int, isNeox: bool): (r: seq<real>)
    requires 0 <= embedDim && 2 * embedDim <= |head| && embedDim <= |cosRow| && embedDim <= |sinRow|
    ensures |r| == |head|
    ensures forall o :: 2 * embedDim <= o < |head| ==> r[o] == head[o]
  {
    seq(|head|, o requires 0 <= o < |head| => RotatedValue(head, 0, cosRow, sinRow, embedDim, isNeox, o))
  }

  /** Offset, in the GPT-NeoX layout, of the element the GPT-J layout holds at offset `o` < rot_dim. */
  function InterleaveSource(o: int, embedDim: int): (i: int)
    requires 0 <= o < 2 * embedDim
    ensures 0 <= i < 2 * embedDim
  {
    if o % 2 == 0 then o / 2 else embedDim + o / 2
  }

  /** Offsets 2r and 2r + 1 of the GPT-J layout come from offsets r and embedDim + r. */
  lemma InterleaveSourcePairs(embedDim: int)
    requires 0 <= embedDim
    ensures forall r :: 0 <= r < embedDim ==>
      InterleaveSource(2 * r, embedDim) == r && InterleaveSource(2 * r + 1, embedDim) == embedDim + r
  {
  }

  /** GPT-J layout of a head given in GPT-NeoX layout: element r goes to 2r, element embedDim + r to 2r + 1. */
  function Interleave(v: seq<real>, embedDim: int): (w: seq<real>)
    requires 0 <= embedDim && 2 * embedDim <= |v|
    ensures |w| == |v|
    ensures forall r :: 0 <= r < embedDim ==> w[2 * r] == v[r] && w[2 * r + 1] == v[embedDim + r]
    ensures forall o :: 2 * embedDim <= o < |v| ==> w[o] == v[o]
  {
    InterleaveSourcePairs(embedDim);
    seq(|v|, o requires 0 <= o < |v| => if o < 2 * embedDim then v[InterleaveSource(o, embedDim)] else v[o])
  }

  /**
   * The two pairings describe the same rotation on differently laid out heads:
   * rotating the interleaved head GPT-J style gives the interleaving of the GPT-NeoX result.
   */
  lemma GptjIsInterleavedNeox(v: seq<real>, cosRow: seq<real>, sinRow: seq<real>, embedDim: int)
    requires 0 <= embedDim && 2 * embedDim <= |v| && embedDim <= |cosRow| && embedDim <= |sinRow|
    ensures RotatedHead(Interleave(v, embedDim), cosRow, sinRow, embedDim, false)
         == Interleave(RotatedHead(v, cosRow, sinRow, embedDim, true), embedDim)
  {
    var lhs := RotatedHead(Interleave(v, embedDim), cosRow, sinRow, embedDim, false);
    var rhs := Interleave(RotatedHead(v, cosRow, sinRow, embedDim, true), embedDim);
    forall o | 0 <= o < |v|
      ensures lhs[o] == rhs[o]
    {
      if o < 2 * embedDim {
        var r, odd := HalfSplit(o, embedDim);
        InterleavedEntries(v, cosRow, sinRow, embedDim, r);
        if odd {
          assert lhs[2 * r + 1] == rhs[2 * r + 1];
        } else {
          assert lhs[2 * r] == rhs[2 * r];
        }
      }
    }
  }

  /** Offset o < rot_dim is 2r or 2r + 1 for the r of its pair. */
  lemma HalfSplit(o: int, embedDim: int) returns (r: int, odd: bool)
    requires 0 <= o < 2 * embedDim
    ensures 0 <= r < embedDim && o == if odd then 2 * r + 1 else 2 * r
  {
    r, odd := o / 2, o % 2 == 1;
  }

  /** Entries 2r and 2r + 1 of both sides of GptjIsInterleavedNeox agree. */
  lemma InterleavedEntries(v: seq<real>, cosRow: seq<real>, sinRow: seq<real>, embedDim: int, r: int)
    requires 0 <= embedDim && 2 * embedDim <= |v| && embedDim <= |cosRow| && embedDim <= |sinRow|
    requires 0 <= r < embedDim
    ensures var lhs := RotatedHead(Interleave(v, embedDim), cosRow, sinRow, embedDim, false);
      var rhs := Interleave(RotatedHead(v, cosRow, sinRow, embedDim, true), embedDim);
      lhs[2 * r] == rhs[2 * r] && lhs[2 * r + 1] == rhs[2 * r + 1]
  {
    var w := Interleave(v, embedDim);
    var neox := RotatedHead(v, cosRow, sinRow, embedDim, true);
    var rotated := Rotate(v[r], v[embedDim + r], cosRow[r], sinRow[r]);
    GptjPairRotated(w, cosRow, sinRow, embedDim, r);
    NeoxPairRotated(v, cosRow, sinRow, embedDim, r);
    assert w[2 * r] == v[r] && w[2 * r + 1] == v[embedDim + r];
    assert Interleave(neox, embedDim)[2 * r] == neox[r];
    assert Interleave(neox, embedDim)[2 * r + 1] == neox[embedDim + r];
  }

  /** GPT-J rotation of a head: entries 2r and 2r + 1 are the rotation of that pair. */
  lemma GptjPairRotated(w: seq<real>, cosRow: seq<real>, sinRow: seq<real>, embedDim: int, r: int)
    requires 0 <= embedDim && 2 * embedDim <= |w| && embedDim <= |cosRow| && embedDim <= |sinRow|
    requires 0 <= r < embedDim
    ensures var head := RotatedHead(w, cosRow, sinRow, embedDim, false);
      var rotated := Rotate(w[2 * r], w[2 * r + 1], cosRow[r], sinRow[r]);
      head[2 * r] == rotated.0 && head[2 * r + 1] == rotated.1
  {
    assert PairRotOffset(false, 2 * r, embedDim) == r;
    assert PairRotOffset(false, 2 * r + 1, embedDim) == r;
  }

  /** GPT-NeoX rotation of a head: entries r and embedDim + r are the rotation of that pair. */
  lemma NeoxPairRotated(v: seq<real>, cosRow: seq<real>, sinRow: seq<real>, embedDim: int, r: int)
    requires 0 <= embedDim && 2 * embedDim <= |v| && embedDim <= |cosRow| && embedDim <= |sinRow|
    requires 0 <= r < embedDim
    ensures var head := RotatedHead(v, cosRow, sinRow, embedDim, true);
      var rotated := Rotate(v[r], v[embedDim + r], cosRow[r], sinRow[r]);
      head[r] == rotated.0 && head[embedDim + r] == rotated.1
  {
    assert PairRotOffset(true, r, embedDim) == r;
    assert PairRotOffset(true, embedDim + r, embedDim) == r;
  }

  /**
   * The two pairings give different results, so the instantiation the host launches matters:
   * head [1, 0, 0, 0] with rot_dim 4, cos row [0, 0] and sin row [1, 1] becomes [0, 0, 1, 0]
   * under GPT-NeoX pairing and [0, 1, 0, 0] under GPT-J pairing.
   */
  lemma NeoxAndGptjDiffer()
    ensures RotatedHead([1.0, 0.0, 0.0, 0.0], [0.0, 0.0], [1.0, 1.0], 2, true) == [0.0, 0.0, 1.0, 0.0]
    ensures RotatedHead([1.0, 0.0, 0.0, 0.0], [0.0, 0.0], [1.0, 1.0], 2, false) == [0.0, 1.0, 0.0, 0.0]
  {
    var neox := RotatedHead([1.0, 0.0, 0.0, 0.0], [0.0, 0.0], [1.0, 1.0], 2, true);
    var gptj := RotatedHead([1.0, 0.0, 0.0, 0.0], [0.0, 0.0], [1.0, 1.0], 2, false);
    assert neox[0] == 0.0 && neox[1] == 0.0 && neox[2] == 1.0 && neox[3] == 0.0;
    assert gptj[0] == 0.0 && gptj[1] == 1.0 && gptj[2] == 0.0 && gptj[3] == 0.0;
  }

  /**
   * `cur` is `prev` with the pair of `rotOffset` of the head starting at `headBase` rotated
   * and every other element unchanged.
   */
  ghost predicate PairRotated(prev: seq<real>, cur: seq<real>, headBase: int, cosRow: seq<real>, sinRow: seq<real>,
                              embedDim: int, isNeox: bool, rotOffset: int)
    requires 0 <= rotOffset < embedDim <= |cosRow| && embedDim <= |sinRow|
    requires 0 <= headBase && headBase + 2 * embedDim <= |prev|
  {
    var p := PairOffsets(isNeox, rotOffset, embedDim);
    |cur| == |prev| &&
    cur[headBase + p.0] == RotatedValue(prev, headBase, cosRow, sinRow, embedDim, isNeox, p.0) &&
    cur[headBase + p.1] == RotatedValue(prev, headBase, cosRow, sinRow, embedDim, isNeox, p.1) &&
    forall j :: 0 <= j < |cur| && j != headBase + p.0 && j != headBase + p.1 ==> cur[j] == prev[j]
  }

  /** apply_rotary_embedding: rotates the pair of `rotOffset` of the head starting at `headBase`. */
  method ApplyRotaryEmbedding(arr: array<real>, headBase: int, cosRow: seq<real>, sinRow: seq<real>,
                              rotOffset: int, embedDim: int, isNeox: bool)
    requires 0 <= rotOffset < embedDim <= |cosRow| && embedDim <= |sinRow|
    requires 0 <= headBase && headBase + 2 * embedDim <= arr.Length
    modifies arr
    ensures PairRotated(old(arr[..]), arr[..], headBase, cosRow, sinRow, embedDim, isNeox, rotOffset)
  {
    var xIndex, yIndex;
    var cos, sin: real;
    if isNeox {
      xIndex := rotOffset;
      yIndex := embedDim + rotOffset;
      cos := cosRow[xIndex];
      sin := sinRow[xIndex];
    } else {
      xIndex := 2 * rotOffset;
      yIndex := 2 * rotOffset + 1;
      cos := cosRow[xIndex / 2];
      sin := sinRow[xIndex / 2];
    }
    assert (xIndex, yIndex) == PairOffsets(isNeox, rotOffset, embedDim);
    assert cos == cosRow[rotOffset] && sin == sinRow[rotOffset];
    ghost var before := arr[..];
    var x := arr[headBase + xIndex];
    var y := arr[headBase + yIndex];
    arr[headBase + xIndex] := x * cos - y * sin;
    ghost var mid := arr[..];
    assert mid == before[headBase + xIndex := x * cos - y * sin];
    arr[headBase + yIndex] := y * cos + x * sin;
    assert arr[..] == mid[headBase + yIndex := y * cos + x * sin];
    PairRotatedByUpdate(before, arr[..], headBase, cosRow, sinRow, embedDim, isNeox, rotOffset,
                        xIndex, yIndex, x, y, cos, sin);
  }

  /** Writing the rotation of a pair into its two elements rotates that pair and nothing else. */
  lemma PairRotatedByUpdate(prev: seq<real>, cur: seq<real>, headBase: int, cosRow: seq<real>, sinRow: seq<real>,
                            embedDim: int, isNeox: bool, rotOffset: int,
                            xIndex: int, yIndex: int, x: real, y: real, cos: real, sin: real)
    requires 0 <= rotOffset < embedDim <= |cosRow| && embedDim <= |sinRow|
    requires 0 <= headBase && headBase + 2 * embedDim <= |prev|
    requires (xIndex, yIndex) == PairOffsets(isNeox, rotOffset, embedDim)
    requires x == prev[headBase + xIndex] && y == prev[headBase + yIndex]
    requires cos == cosRow[rotOffset] && sin == sinRow[rotOffset]
    requires cur == prev[headBase + xIndex := x * cos - y * sin][headBase + yIndex := y * cos + x * sin]
    ensures PairRotated(prev, cur, headBase, cosRow, sinRow, embedDim, isNeox, rotOffset)
  {
    assert cur[headBase + xIndex] == Rotate(x, y, cos, sin).0;
    assert cur[headBase + yIndex] == Rotate(x, y, cos, sin).1;
    PairRotationValues(prev, headBase, cosRow, sinRow, embedDim, isNeox, rotOffset, xIndex, yIndex, x, y, cos, sin);
  }

  /** The rotated values of the two elements of a pair, from the pair's old values. */
  lemma PairRotationValues(prev: seq<real>, headBase: int, cosRow: seq<real>, sinRow: seq<real>,
                           embedDim: int, isNeox: bool, rotOffset: int,
                           xIndex: int, yIndex: int, x: real, y: real, cos: real, sin: real)
    requires 0 <= rotOffset < embedDim <= |cosRow| && embedDim <= |sinRow|
    requires 0 <= headBase && headBase + 2 * embedDim <= |prev|
    requires (xIndex, yIndex) == PairOffsets(isNeox, rotOffset, embedDim)
    requires x == prev[headBase + xIndex] && y == prev[headBase + yIndex]
    requires cos == cosRow[rotOffset] && sin == sinRow[rotOffset]
    ensures RotatedValue(prev, headBase, cosRow, sinRow, embedDim, isNeox, xIndex) == Rotate(x, y, cos, sin).0
    ensures RotatedValue(prev, headBase, cosRow, sinRow, embedDim, isNeox, yIndex) == Rotate(x, y, cos, sin).1
  {
    assert PairRotOffset(isNeox, xIndex, embedDim) == rotOffset;
    assert PairRotOffset(isNeox, yIndex, embedDim) == rotOffset;
  }

  // ---------------------------------------------------------------------------
  // Head layout inside one token and the strided lane loop
  // ---------------------------------------------------------------------------

  /** Start of head `head` of a token whose heads start at `base`. */
  function HeadStart(base: int, numHeads: int, headSize: int, head: int): (s: int)
    requires 0 <= head < numHeads && 0 <= headSize
    ensures base <= s && s + headSize <= base + numHeads * headSize
  {
    HeadFits(numHeads, headSize, head);
    base + head * headSize
  }

  /** Position of element `offset` of head `head`. */
  function Slot(base: int, numHeads: int, headSize: int, head: int, offset: int): (k: int)
    requires 0 <= head < numHeads && 0 <= offset < headSize
    ensures base <= k < base + numHeads * headSize
  {
    HeadStart(base, numHeads, headSize, head) + offset
  }

  lemma SlotInjective(base: int, numHeads: int, headSize: int, h1: int, o1: int, h2: int, o2: int)
    requires 0 <= h1 < numHeads && 0 <= o1 < headSize && 0 <= h2 < numHeads && 0 <= o2 < headSize
    requires Slot(base, numHeads, headSize, h1, o1) == Slot(base, numHeads, headSize, h2, o2)
    ensures h1 == h2 && o1 == o2
  {
    if h1 < h2 { assert (h2 - h1) * headSize == o1 - o2; MulAtLeast(h2 - h1, headSize); assert false; }
    else if h2 < h1 { assert (h1 - h2) * headSize == o2 - o1; MulAtLeast(h1 - h2, headSize); assert false; }
  }

  /** Loop index i whose iteration writes element `offset` (< rot_dim) of head `head`. */
  function RotIndex(embedDim: int, isNeox: bool, head: int, offset: int): int
    requires 0 <= offset < 2 * embedDim
  {
    head * embedDim + PairRotOffset(isNeox, offset, embedDim)
  }

  /** Shape facts one token's heads satisfy. */
  predicate HeadsFit(len: int, base: int, numHeads: int, headSize: int, embedDim: int)
  {
    0 <= base && 0 <= numHeads && 0 <= embedDim && 2 * embedDim <= headSize &&
    base + numHeads * headSize <= len
  }

  predicate InRegion(j: int, base: int, width: int)
  {
    base <= j < base + width
  }

  /**
   * Loop index i is done once lanes below `lane` have finished and lane `lane` has got
   * to `next`: lane l visits l, l + laneCount, l + 2 laneCount, ...
   */
  predicate Covered(i: int, laneCount: int, lane: int, next: int)
    requires 0 < laneCount
  {
    i % laneCount < lane || (i % laneCount == lane && i < next)
  }

  /** Element (h, o) is rotated when its loop index is covered and original otherwise. */
  ghost predicate SlotRotated(cur: seq<real>, orig: seq<real>, base: int, numHeads: int, headSize: int,
                              cosRow: seq<real>, sinRow: seq<real>, embedDim: int, isNeox: bool,
                              laneCount: int, lane: int, next: int, h: int, o: int)
    requires HeadsFit(|orig|, base, numHeads, headSize, embedDim) && |cur| == |orig|
    requires embedDim <= |cosRow| && embedDim <= |sinRow| && 0 < laneCount
    requires 0 <= h < numHeads && 0 <= o < headSize
  {
    cur[Slot(base, numHeads, headSize, h, o)] ==
      if o < 2 * embedDim && Covered(RotIndex(embedDim, isNeox, h, o), laneCount, lane, next)
      then RotatedValue(orig, HeadStart(base, numHeads, headSize, h), cosRow, sinRow, embedDim, isNeox, o)
      else orig[Slot(base, numHeads, headSize, h, o)]
  }

  /**
   * `cur` is `orig` with exactly the pairs of the covered loop indices rotated, inside the
   * heads of one token, and nothing outside those heads changed.
   */
  ghost predicate PartlyRotated(cur: seq<real>, orig: seq<real>, base: int, numHeads: int, headSize: int,
                                cosRow: seq<real>, sinRow: seq<real>, embedDim: int, isNeox: bool,
                                laneCount: int, lane: int, next: int)
    requires HeadsFit(|orig|, base, numHeads, headSize, embedDim)
    requires embedDim <= |cosRow| && embedDim <= |sinRow| && 0 < laneCount
  {
    |cur| == |orig| &&
    (forall h, o :: 0 <= h < numHeads && 0 <= o < headSize ==>
       SlotRotated(cur, orig, base, numHeads, headSize, cosRow, sinRow, embedDim, isNeox, laneCount, lane, next, h, o)) &&
    (forall j :: 0 <= j < |orig| && !InRegion(j, base, numHeads * headSize) ==> cur[j] == orig[j])
  }

  /** Every head of one token rotated, nothing else changed. */
  ghost predicate FullyRotated(cur: seq<real>, orig: seq<real>, base: int, numHeads: int, headSize: int,
                               cosRow: seq<real>, sinRow: seq<real>, embedDim: int, isNeox: bool)
    requires HeadsFit(|orig|, base, numHeads, headSize, embedDim)
    requires embedDim <= |cosRow| && embedDim <= |sinRow|
  {
    |cur| == |orig| &&
    (forall h, o {:trigger Slot(base, numHeads, headSize, h, o)} :: 0 <= h < numHeads && 0 <= o < headSize ==>
       cur[Slot(base, numHeads, headSize, h, o)] ==
         RotatedValue(orig, HeadStart(base, numHeads, headSize, h), cosRow, sinRow, embedDim, isNeox, o)) &&
    (forall j :: 0 <= j < |orig| && !InRegion(j, base, numHeads * headSize) ==> cur[j] == orig[j])
  }

  lemma RotIndexBound(numHeads: int, embedDim: int, isNeox: bool, head: int, offset: int)
    requires 0 <= head < numHeads && 0 <= offset < 2 * embedDim
    ensures 0 <= RotIndex(embedDim, isNeox, head, offset) < numHeads * embedDim
  {
    HeadFits(numHeads, embedDim, head);
  }

  /** Only the loop index i itself changes its covered status when lane `lane` moves on from i. */
  lemma CoveredStep(k: int, i: int, laneCount: int, lane: int)
    requires 0 <= lane < laneCount && 0 <= i && 0 <= k && k != i && i % laneCount == lane
    ensures Covered(k, laneCount, lane, i + laneCount) == Covered(k, laneCount, lane, i)
  {
    if k % laneCount == lane && i <= k < i + laneCount {
      SameResidue(k, i, laneCount);
    }
  }

  /** Loop index head * embedDim + r writes exactly the two elements of pair r of that head. */
  lemma RotIndexHit(embedDim: int, isNeox: bool, h: int, o: int, head: int, r: int)
    requires 0 <= h && 0 <= head && 0 <= r < embedDim && 0 <= o < 2 * embedDim
    requires RotIndex(embedDim, isNeox, h, o) == head * embedDim + r
    ensures h == head && (o == PairOffsets(isNeox, r, embedDim).0 || o == PairOffsets(isNeox, r, embedDim).1)
  {
    DivModUnique(head * embedDim + r, embedDim, h, PairRotOffset(isNeox, o, embedDim));
    DivModUnique(head * embedDim + r, embedDim, head, r);
  }

  /**
   * `cur` is `prev` after the iteration at loop index i: the pair of rot_offset i % embedDim of
   * head i / embedDim rotated, every other element unchanged.
   */
  ghost predicate PairStepped(prev: seq<real>, cur: seq<real>, base: int, numHeads: int, headSize: int,
                              cosRow: seq<real>, sinRow: seq<real>, embedDim: int, isNeox: bool, i: int)
  {
    0 < embedDim && 0 <= i / embedDim < numHeads && 0 <= i % embedDim < embedDim && 0 <= headSize &&
    (i / embedDim) * embedDim + i % embedDim == i &&
    var hb := HeadStart(base, numHeads, headSize, i / embedDim);
    0 <= hb && hb + 2 * embedDim <= |prev| && embedDim <= |cosRow| && embedDim <= |sinRow| &&
    PairRotated(prev, cur, hb, cosRow, sinRow, embedDim, isNeox, i % embedDim)
  }

  /** One iteration of the strided loop, at loop index i, extends the covered indices by i. */
  lemma StrideStep(prev: seq<real>, cur: seq<real>, orig: seq<real>, base: int, numHeads: int, headSize: int,
                   cosRow: seq<real>, sinRow: seq<real>, embedDim: int, isNeox: bool,
                   laneCount: int, lane: int, i: int)
    requires HeadsFit(|orig|, base, numHeads, headSize, embedDim)
    requires embedDim <= |cosRow| && embedDim <= |sinRow| && 0 <= lane < laneCount
    requires 0 <= i && i % laneCount == lane
    requires PartlyRotated(prev, orig, base, numHeads, headSize, cosRow, sinRow, embedDim, isNeox, laneCount, lane, i)
    requires PairStepped(prev, cur, base, numHeads, headSize, cosRow, sinRow, embedDim, isNeox, i)
    ensures PartlyRotated(cur, orig, base, numHeads, headSize, cosRow, sinRow, embedDim, isNeox, laneCount, lane, i + laneCount)
  {
    var hd, r := i / embedDim, i % embedDim;
    var hb := HeadStart(base, numHeads, headSize, hd);
    var p := PairOffsets(isNeox, r, embedDim);
    PairUntouched(prev, orig, base, numHeads, headSize, cosRow, sinRow, embedDim, isNeox, laneCount, lane, i, p.0);
    PairUntouched(prev, orig, base, numHeads, headSize, cosRow, sinRow, embedDim, isNeox, laneCount, lane, i, p.1);
    var next := i + laneCount;
    forall h, o | 0 <= h < numHeads && 0 <= o < headSize
      ensures SlotRotated(cur, orig, base, numHeads, headSize, cosRow, sinRow, embedDim, isNeox, laneCount, lane, next, h, o)
    {
      if h == hd && (o == p.0 || o == p.1) {
        StrideHit(prev, cur, orig, base, numHeads, headSize, cosRow, sinRow, embedDim, isNeox, laneCount, lane, i, o);
      } else {
        assert SlotRotated(prev, orig, base, numHeads, headSize, cosRow, sinRow, embedDim, isNeox, laneCount, lane, i, h, o);
        StrideMiss(prev, cur, orig, base, numHeads, headSize, cosRow, sinRow, embedDim, isNeox, laneCount, lane, i, h, o);
      }
    }
  }

  /** Before the iteration at loop index i, the two elements of its pair hold their original values. */
  lemma PairUntouched(prev: seq<real>, orig: seq<real>, base: int, numHeads: int, headSize: int,
                      cosRow: seq<real>, sinRow: seq<real>, embedDim: int, isNeox: bool,
                      laneCount: int, lane: int, i: int, o: int)
    requires HeadsFit(|orig|, base, numHeads, headSize, embedDim)
    requires embedDim <= |cosRow| && embedDim <= |sinRow| && 0 <= lane < laneCount
    requires 0 <= i && i % laneCount == lane
    requires PartlyRotated(prev, orig, base, numHeads, headSize, cosRow, sinRow, embedDim, isNeox, laneCount, lane, i)
    requires 0 < embedDim && 0 <= i / embedDim < numHeads && 0 <= i % embedDim
    requires (i / embedDim) * embedDim + i % embedDim == i
    requires var p := PairOffsets(isNeox, i % embedDim, embedDim); o == p.0 || o == p.1
    ensures var hb := HeadStart(base, numHeads, headSize, i / embedDim);
      0 <= hb + o < |prev| && prev[hb + o] == orig[hb + o]
  {
    var hd, r := i / embedDim, i % embedDim;
    PairOwner(isNeox, r, embedDim);
    assert RotIndex(embedDim, isNeox, hd, o) == i;
    assert SlotRotated(prev, orig, base, numHeads, headSize, cosRow, sinRow, embedDim, isNeox, laneCount, lane, i, hd, o);
  }

  /** StrideStep for the two elements the iteration rotates. */
  lemma StrideHit(prev: seq<real>, cur: seq<real>, orig: seq<real>, base: int, numHeads: int, headSize: int,
                  cosRow: seq<real>, sinRow: seq<real>, embedDim: int, isNeox: bool,
                  laneCount: int, lane: int, i: int, o: int)
    requires HeadsFit(|orig|, base, numHeads, headSize, embedDim) && |prev| == |orig|
    requires embedDim <= |cosRow| && embedDim <= |sinRow| && 0 <= lane < laneCount
    requires 0 <= i && i % laneCount == lane
    requires PairStepped(prev, cur, base, numHeads, headSize, cosRow, sinRow, embedDim, isNeox, i)
    requires var p := PairOffsets(isNeox, i % embedDim, embedDim);
      var hb := HeadStart(base, numHeads, headSize, i / embedDim);
      (o == p.0 || o == p.1) && prev[hb + p.0] == orig[hb + p.0] && prev[hb + p.1] == orig[hb + p.1]
    ensures 0 <= o < headSize
    ensures SlotRotated(cur, orig, base, numHeads, headSize, cosRow, sinRow, embedDim, isNeox, laneCount, lane, i + laneCount, i / embedDim, o)
  {
    var hd, r := i / embedDim, i % embedDim;
    var hb := HeadStart(base, numHeads, headSize, hd);
    PairOwner(isNeox, r, embedDim);
    assert RotIndex(embedDim, isNeox, hd, o) == i;
    RotatedValueFrame(prev, orig, hb, cosRow, sinRow, embedDim, isNeox, o);
    assert Covered(i, laneCount, lane, i + laneCount);
  }

  /** StrideStep for every element the iteration does not write. */
  lemma StrideMiss(prev: seq<real>, cur: seq<real>, orig: seq<real>, base: int, numHeads: int, headSize: int,
                   cosRow: seq<real>, sinRow: seq<real>, embedDim: int, isNeox: bool,
                   laneCount: int, lane: int, i: int, h: int, o: int)
    requires HeadsFit(|orig|, base, numHeads, headSize, embedDim) && |prev| == |orig|
    requires embedDim <= |cosRow| && embedDim <= |sinRow| && 0 <= lane < laneCount
    requires 0 <= i && i % laneCount == lane
    requires PairStepped(prev, cur, base, numHeads, headSize, cosRow, sinRow, embedDim, isNeox, i)
    requires 0 <= h < numHeads && 0 <= o < headSize
    requires var p := PairOffsets(isNeox, i % embedDim, embedDim);
      !(h == i / embedDim && (o == p.0 || o == p.1))
    requires SlotRotated(prev, orig, base, numHeads, headSize, cosRow, sinRow, embedDim, isNeox, laneCount, lane, i, h, o)
    ensures SlotRotated(cur, orig, base, numHeads, headSize, cosRow, sinRow, embedDim, isNeox, laneCount, lane, i + laneCount, h, o)
  {
    var hd, r := i / embedDim, i % embedDim;
    var hb := HeadStart(base, numHeads, headSize, hd);
    var p := PairOffsets(isNeox, r, embedDim);
    var k := Slot(base, numHeads, headSize, h, o);
    assert Slot(base, numHeads, headSize, hd, p.0) == hb + p.0;
    assert Slot(base, numHeads, headSize, hd, p.1) == hb + p.1;
    if k == hb + p.0 { SlotInjective(base, numHeads, headSize, h, o, hd, p.0); }
    if k == hb + p.1 { SlotInjective(base, numHeads, headSize, h, o, hd, p.1); }
    assert cur[k] == prev[k];
    if o < 2 * embedDim {
      var ki := RotIndex(embedDim, isNeox, h, o);
      if ki == i { RotIndexHit(embedDim, isNeox, h, o, hd, r); }
      RotIndexBound(numHeads, embedDim, isNeox, h, o);
      CoveredStep(ki, i, laneCount, lane);
    }
  }

  /** A lane whose index ran past the loop bound has covered its whole residue class. */
  lemma LaneDone(cur: seq<real>, orig: seq<real>, base: int, numHeads: int, headSize: int,
                 cosRow: seq<real>, sinRow: seq<real>, embedDim: int, isNeox: bool,
                 laneCount: int, lane: int, i: int)
    requires HeadsFit(|orig|, base, numHeads, headSize, embedDim)
    requires embedDim <= |cosRow| && embedDim <= |sinRow| && 0 <= lane < laneCount
    requires numHeads * embedDim <= i
    requires PartlyRotated(cur, orig, base, numHeads, headSize, cosRow, sinRow, embedDim, isNeox, laneCount, lane, i)
    ensures PartlyRotated(cur, orig, base, numHeads, headSize, cosRow, sinRow, embedDim, isNeox, laneCount, lane + 1, lane + 1)
  {
    var next := lane + 1;
    forall h, o | 0 <= h < numHeads && 0 <= o < headSize
      ensures SlotRotated(cur, orig, base, numHeads, headSize, cosRow, sinRow, embedDim, isNeox, laneCount, next, next, h, o)
    {
      assert SlotRotated(cur, orig, base, numHeads, headSize, cosRow, sinRow, embedDim, isNeox, laneCount, lane, i, h, o);
      if o < 2 * embedDim {
        var k := RotIndex(embedDim, isNeox, h, o);
        RotIndexBound(numHeads, embedDim, isNeox, h, o);
        ModAtMost(k, laneCount);
        assert Covered(k, laneCount, lane, i) == Covered(k, laneCount, next, next);
      }
    }
  }

  /** Once every lane has run, every pair of every head is rotated. */
  lemma AllLanesDone(cur: seq<real>, orig: seq<real>, base: int, numHeads: int, headSize: int,
                     cosRow: seq<real>, sinRow: seq<real>, embedDim: int, isNeox: bool, laneCount: int)
    requires HeadsFit(|orig|, base, numHeads, headSize, embedDim)
    requires embedDim <= |cosRow| && embedDim <= |sinRow| && 0 < laneCount
    requires PartlyRotated(cur, orig, base, numHeads, headSize, cosRow, sinRow, embedDim, isNeox, laneCount, laneCount, laneCount)
    ensures FullyRotated(cur, orig, base, numHeads, headSize, cosRow, sinRow, embedDim, isNeox)
  {
    forall h, o | 0 <= h < numHeads && 0 <= o < headSize
      ensures cur[Slot(base, numHeads, headSize, h, o)] ==
        RotatedValue(orig, HeadStart(base, numHeads, headSize, h), cosRow, sinRow, embedDim, isNeox, o)
    {
      assert SlotRotated(cur, orig, base, numHeads, headSize, cosRow, sinRow, embedDim, isNeox, laneCount, laneCount, laneCount, h, o);
      if o < 2 * embedDim {
        assert Covered(RotIndex(embedDim, isNeox, h, o), laneCount, laneCount, laneCount);
      }
    }
  }

  /**
   * The strided loop of one lane over one tensor's heads of one token
   * (`for (i = local_id; i < n; i += local_range)`).
   */
  method RotateLane(arr: array<real>, base: int, numHeads: int, headSize: int,
                    cosRow: seq<real>, sinRow: seq<real>, embedDim: int, isNeox: bool,
                    lane: int, laneCount: int, ghost orig: seq<real>)
    requires HeadsFit(arr.Length, base, numHeads, headSize, embedDim) && |orig| == arr.Length
    requires embedDim <= |cosRow| && embedDim <= |sinRow| && 0 <= lane < laneCount
    requires PartlyRotated(arr[..], orig, base, numHeads, headSize, cosRow, sinRow, embedDim, isNeox, laneCount, lane, lane)
    modifies arr
    ensures PartlyRotated(arr[..], orig, base, numHeads, headSize, cosRow, sinRow, embedDim, isNeox, laneCount, lane + 1, lane + 1)
  {
    var n := numHeads * embedDim;
    var i := lane;
    DivModUnique(lane, laneCount, 0, lane);
    while i < n
      invariant lane <= i && i % laneCount == lane
      invariant PartlyRotated(arr[..], orig, base, numHeads, headSize, cosRow, sinRow, embedDim, isNeox, laneCount, lane, i)
    {
      DecomposeIndex(i, embedDim, numHeads);
      var headIdx := i / embedDim;
      var tokenHead := base + headIdx * headSize;
      var rotOffset := i % embedDim;
      assert tokenHead == HeadStart(base, numHeads, headSize, headIdx);
      assert tokenHead + 2 * embedDim <= arr.Length;
      ghost var prev := arr[..];
      ApplyRotaryEmbedding(arr, tokenHead, cosRow, sinRow, rotOffset, embedDim, isNeox);
      assert PairStepped(prev, arr[..], base, numHeads, headSize, cosRow, sinRow, embedDim, isNeox, i);
      StrideStep(prev, arr[..], orig, base, numHeads, headSize, cosRow, sinRow, embedDim, isNeox, laneCount, lane, i);
      ModStep(i, laneCount);
      i := i + laneCount;
    }
    LaneDone(arr[..], orig, base, numHeads, headSize, cosRow, sinRow, embedDim, isNeox, laneCount, lane, i);
  }

  // ---------------------------------------------------------------------------
  // One work-item of rotary_embedding_kernel, and the launch over all tokens
  // ---------------------------------------------------------------------------

  /** Cos values of cache row `pos`: its first rot_dim / 2 entries. */
  function CosRow(cosSinCache: seq<real>, pos: int, rotDim: int): (c: seq<real>)
    requires 0 <= pos && 0 <= rotDim && (pos + 1) * rotDim <= |cosSinCache|
    ensures |c| == rotDim / 2
    ensures forall r :: 0 <= r < rotDim / 2 ==> c[r] == cosSinCache[pos * rotDim + r]
  {
    RowFits(cosSinCache, pos, rotDim);
    cosSinCache[pos * rotDim .. pos * rotDim + rotDim / 2]
  }

  /** Sin values of cache row `pos`: the rot_dim / 2 entries after the cos values. */
  function SinRow(cosSinCache: seq<real>, pos: int, rotDim: int): (s: seq<real>)
    requires 0 <= pos && 0 <= rotDim && (pos + 1) * rotDim <= |cosSinCache|
    ensures |s| == rotDim / 2
    ensures forall r :: 0 <= r < rotDim / 2 ==> s[r] == cosSinCache[pos * rotDim + rotDim / 2 + r]
  {
    RowFits(cosSinCache, pos, rotDim);
    cosSinCache[pos * rotDim + rotDim / 2 .. pos * rotDim + 2 * (rotDim / 2)]
  }

  lemma RowFits(cosSinCache: seq<real>, pos: int, rotDim: int)
    requires 0 <= pos && 0 <= rotDim && (pos + 1) * rotDim <= |cosSinCache|
    ensures 0 <= pos * rotDim && pos * rotDim + rotDim <= |cosSinCache|
  {
    if pos > 0 { MulAtLeast(pos, rotDim); }
  }

  /** Where token `token`'s heads start in a tensor with token stride `stride`. */
  function TokenBase(token: int, stride: int): int
  {
    token * stride
  }

  /** Every token below `numTokens` has its heads inside a buffer of length `len`. */
  predicate TokensFit(len: int, numTokens: int, stride: int, width: int)
  {
    0 <= numTokens && 0 <= width <= stride &&
    forall t {:trigger TokenBase(t, stride)} :: 0 <= t < numTokens ==>
      0 <= TokenBase(t, stride) && TokenBase(t, stride) + width <= len
  }

  /** Every token below `numTokens` has a position whose cache row exists. */
  predicate PositionsFit(positions: seq<int>, cosSinCache: seq<real>, rotDim: int, numTokens: int)
  {
    0 <= rotDim && 0 <= numTokens <= |positions| &&
    forall t :: 0 <= t < numTokens ==> 0 <= positions[t] && (positions[t] + 1) * rotDim <= |cosSinCache|
  }

  predicate InTokenRegions(j: int, numTokens: int, stride: int, width: int)
  {
    exists t {:trigger TokenBase(t, stride)} :: 0 <= t < numTokens && InRegion(j, TokenBase(t, stride), width)
  }

  /** Every head of token `t` of `cur` is the rotation of that head of `orig` with the row of its position. */
  ghost predicate TokenRotated(cur: seq<real>, orig: seq<real>, positions: seq<int>, cosSinCache: seq<real>,
                               rotDim: int, stride: int, numHeads: int, headSize: int, isNeox: bool,
                               numTokens: int, t: int)
    requires 0 <= t < numTokens && 0 <= numHeads && 2 * (rotDim / 2) <= headSize && |cur| == |orig|
    requires TokensFit(|orig|, numTokens, stride, numHeads * headSize)
    requires PositionsFit(positions, cosSinCache, rotDim, numTokens)
  {
    forall h, o {:trigger Slot(TokenBase(t, stride), numHeads, headSize, h, o)} ::
      0 <= h < numHeads && 0 <= o < headSize ==>
      cur[Slot(TokenBase(t, stride), numHeads, headSize, h, o)] ==
        RotatedValue(orig, HeadStart(TokenBase(t, stride), numHeads, headSize, h),
                     CosRow(cosSinCache, positions[t], rotDim), SinRow(cosSinCache, positions[t], rotDim),
                     rotDim / 2, isNeox, o)
  }

  /**
   * Tokens below `done` have every head rotated with the cos/sin row of their position;
   * everything outside those tokens' heads is unchanged.
   */
  ghost predicate TokensRotated(cur: seq<real>, orig: seq<real>, positions: seq<int>, cosSinCache: seq<real>,
                                rotDim: int, stride: int, numHeads: int, headSize: int, isNeox: bool,
                                numTokens: int, done: int)
    requires 0 <= done <= numTokens && 0 <= numHeads && 2 * (rotDim / 2) <= headSize
    requires TokensFit(|orig|, numTokens, stride, numHeads * headSize)
    requires PositionsFit(positions, cosSinCache, rotDim, numTokens)
  {
    |cur| == |orig| &&
    (forall t :: 0 <= t < done ==>
       TokenRotated(cur, orig, positions, cosSinCache, rotDim, stride, numHeads, headSize, isNeox, numTokens, t)) &&
    (forall j :: 0 <= j < |orig| && !InTokenRegions(j, done, stride, numHeads * headSize) ==> cur[j] == orig[j])
  }

  /** Token regions do not overlap when the stride is at least the heads' width. */
  lemma TokensApart(t1: int, t2: int, stride: int, width: int)
    requires 0 <= t1 < t2 && 0 <= width <= stride
    ensures TokenBase(t1, stride) + width <= TokenBase(t2, stride)
  {
    assert t2 * stride - t1 * stride == (t2 - t1) * stride;
    MulAtLeast(t2 - t1, stride);
  }

  /** Before token `done` is processed, its heads still hold their original values. */
  lemma NextTokenUntouched(prev: seq<real>, orig: seq<real>, positions: seq<int>, cosSinCache: seq<real>,
                           rotDim: int, stride: int, numHeads: int, headSize: int, isNeox: bool,
                           numTokens: int, done: int)
    requires 0 <= done < numTokens && 0 <= numHeads && 2 * (rotDim / 2) <= headSize
    requires TokensFit(|orig|, numTokens, stride, numHeads * headSize)
    requires PositionsFit(positions, cosSinCache, rotDim, numTokens)
    requires TokensRotated(prev, orig, positions, cosSinCache, rotDim, stride, numHeads, headSize, isNeox, numTokens, done)
    ensures forall j :: TokenBase(done, stride) <= j < TokenBase(done, stride) + numHeads * headSize ==>
      0 <= j < |orig| && prev[j] == orig[j]
  {
    var width := numHeads * headSize;
    var base := TokenBase(done, stride);
    assert 0 <= base && base + width <= |orig|;
    forall j | base <= j < base + width
      ensures 0 <= j < |orig| && prev[j] == orig[j]
    {
      forall t | 0 <= t < done
        ensures !InRegion(j, TokenBase(t, stride), width)
      {
        TokensApart(t, done, stride, width);
      }
      assert !InTokenRegions(j, done, stride, width);
    }
  }

  /** An element of a head rotated in `cur` from `prev` is the rotation of `orig` when the heads agree. */
  lemma RotatedFromUntouched(prev: seq<real>, cur: seq<real>, orig: seq<real>, base: int, numHeads: int, headSize: int,
                             cosRow: seq<real>, sinRow: seq<real>, embedDim: int, isNeox: bool, h: int, o: int)
    requires HeadsFit(|prev|, base, numHeads, headSize, embedDim) && |prev| == |orig|
    requires embedDim <= |cosRow| && embedDim <= |sinRow|
    requires FullyRotated(cur, prev, base, numHeads, headSize, cosRow, sinRow, embedDim, isNeox)
    requires forall j :: base <= j < base + numHeads * headSize ==> prev[j] == orig[j]
    requires 0 <= h < numHeads && 0 <= o < headSize
    ensures cur[Slot(base, numHeads, headSize, h, o)] ==
      RotatedValue(orig, HeadStart(base, numHeads, headSize, h), cosRow, sinRow, embedDim, isNeox, o)
  {
    var hb := HeadStart(base, numHeads, headSize, h);
    assert cur[Slot(base, numHeads, headSize, h, o)] == RotatedValue(prev, hb, cosRow, sinRow, embedDim, isNeox, o);
    if o < 2 * embedDim {
      var p := PairOffsets(isNeox, PairRotOffset(isNeox, o, embedDim), embedDim);
      assert prev[hb + p.0] == orig[hb + p.0];
      assert prev[hb + p.1] == orig[hb + p.1];
    }
    RotatedValueFrame(prev, orig, hb, cosRow, sinRow, embedDim, isNeox, o);
  }

  /** Finishing token `done` extends TokensRotated by one token. */
  lemma TokenDone(prev: seq<real>, cur: seq<real>, orig: seq<real>, positions: seq<int>, cosSinCache: seq<real>,
                  rotDim: int, stride: int, numHeads: int, headSize: int, isNeox: bool,
                  numTokens: int, done: int)
    requires 0 <= done < numTokens && 0 <= numHeads && 2 * (rotDim / 2) <= headSize
    requires TokensFit(|orig|, numTokens, stride, numHeads * headSize)
    requires PositionsFit(positions, cosSinCache, rotDim, numTokens)
    requires TokensRotated(prev, orig, positions, cosSinCache, rotDim, stride, numHeads, headSize, isNeox, numTokens, done)
    requires HeadsFit(|prev|, TokenBase(done, stride), numHeads, headSize, rotDim / 2)
    requires FullyRotated(cur, prev, TokenBase(done, stride), numHeads, headSize,
                          CosRow(cosSinCache, positions[done], rotDim), SinRow(cosSinCache, positions[done], rotDim),
                          rotDim / 2, isNeox)
    ensures TokensRotated(cur, orig, positions, cosSinCache, rotDim, stride, numHeads, headSize, isNeox, numTokens, done + 1)
  {
    var width := numHeads * headSize;
    forall t | 0 <= t < done
      ensures TokenRotated(cur, orig, positions, cosSinCache, rotDim, stride, numHeads, headSize, isNeox, numTokens, t)
    {
      EarlierTokenKept(prev, cur, orig, positions, cosSinCache, rotDim, stride, numHeads, headSize, isNeox, numTokens, done, t);
    }
    NextTokenUntouched(prev, orig, positions, cosSinCache, rotDim, stride, numHeads, headSize, isNeox, numTokens, done);
    NextTokenRotated(prev, cur, orig, positions, cosSinCache, rotDim, stride, numHeads, headSize, isNeox, numTokens, done);
    forall j | 0 <= j < |orig| && !InTokenRegions(j, done + 1, stride, width)
      ensures cur[j] == orig[j]
    {
      assert !InRegion(j, TokenBase(done, stride), width);
      assert !InTokenRegions(j, done, stride, width);
    }
  }

  /** Processing token `done` leaves the heads of an earlier token t as they were. */
  lemma EarlierTokenKept(prev: seq<real>, cur: seq<real>, orig: seq<real>, positions: seq<int>, cosSinCache: seq<real>,
                         rotDim: int, stride: int, numHeads: int, headSize: int, isNeox: bool,
                         numTokens: int, done: int, t: int)
    requires 0 <= t < done < numTokens && 0 <= numHeads && 2 * (rotDim / 2) <= headSize
    requires TokensFit(|orig|, numTokens, stride, numHeads * headSize)
    requires PositionsFit(positions, cosSinCache, rotDim, numTokens)
    requires |prev| == |orig| == |cur|
    requires TokenRotated(prev, orig, positions, cosSinCache, rotDim, stride, numHeads, headSize, isNeox, numTokens, t)
    requires forall j :: 0 <= j < |prev| && !InRegion(j, TokenBase(done, stride), numHeads * headSize) ==> cur[j] == prev[j]
    ensures TokenRotated(cur, orig, positions, cosSinCache, rotDim, stride, numHeads, headSize, isNeox, numTokens, t)
  {
    var width := numHeads * headSize;
    TokensApart(t, done, stride, width);
    forall h, o | 0 <= h < numHeads && 0 <= o < headSize
      ensures cur[Slot(TokenBase(t, stride), numHeads, headSize, h, o)] == prev[Slot(TokenBase(t, stride), numHeads, headSize, h, o)]
    {
      assert !InRegion(Slot(TokenBase(t, stride), numHeads, headSize, h, o), TokenBase(done, stride), width);
    }
  }

  /** The heads of token `done`, rotated from untouched values, are the rotation of the original heads. */
  lemma NextTokenRotated(prev: seq<real>, cur: seq<real>, orig: seq<real>, positions: seq<int>, cosSinCache: seq<real>,
                         rotDim: int, stride: int, numHeads: int, headSize: int, isNeox: bool,
                         numTokens: int, done: int)
    requires 0 <= done < numTokens && 0 <= numHeads && 2 * (rotDim / 2) <= headSize
    requires TokensFit(|orig|, numTokens, stride, numHeads * headSize)
    requires PositionsFit(positions, cosSinCache, rotDim, numTokens)
    requires |prev| == |orig|
    requires HeadsFit(|prev|, TokenBase(done, stride), numHeads, headSize, rotDim / 2)
    requires FullyRotated(cur, prev, TokenBase(done, stride), numHeads, headSize,
                          CosRow(cosSinCache, positions[done], rotDim), SinRow(cosSinCache, positions[done], rotDim),
                          rotDim / 2, isNeox)
    requires forall j :: TokenBase(done, stride) <= j < TokenBase(done, stride) + numHeads * headSize ==>
      0 <= j < |orig| && prev[j] == orig[j]
    ensures |cur| == |orig|
    ensures TokenRotated(cur, orig, positions, cosSinCache, rotDim, stride, numHeads, headSize, isNeox, numTokens, done)
  {
    forall h, o | 0 <= h < numHeads && 0 <= o < headSize
      ensures cur[Slot(TokenBase(done, stride), numHeads, headSize, h, o)] ==
        RotatedValue(orig, HeadStart(TokenBase(done, stride), numHeads, headSize, h),
                     CosRow(cosSinCache, positions[done], rotDim), SinRow(cosSinCache, positions[done], rotDim),
                     rotDim / 2, isNeox, o)
    {
      RotatedFromUntouched(prev, cur, orig, TokenBase(done, stride), numHeads, headSize,
                           CosRow(cosSinCache, positions[done], rotDim), SinRow(cosSinCache, positions[done], rotDim),
                           rotDim / 2, isNeox, h, o);
    }
  }

  /**
   * rotary_embedding_kernel as run by work-item `lane` of the work-group of token `token`:
   * the query loop over num_heads heads, then the key loop over num_kv_heads heads, both
   * with the cos/sin row of the token's position.
   */
  method RotaryEmbeddingKernel(positions: seq<int>, query: array<real>, key: array<real>, cosSinCache: seq<real>,
                               rotDim: int, queryStride: int, keyStride: int, numHeads: int, numKvHeads: int,
                               headSize: int, token: int, lane: int, laneCount: int, isNeox: bool,
                               ghost queryBefore: seq<real>, ghost keyBefore: seq<real>)
    requires query != key && 0 <= lane < laneCount
    requires 0 <= token < |positions| && 0 <= positions[token] && 0 <= rotDim
    requires (positions[token] + 1) * rotDim <= |cosSinCache|
    requires |queryBefore| == query.Length && |keyBefore| == key.Length
    requires HeadsFit(query.Length, TokenBase(token, queryStride), numHeads, headSize, rotDim / 2)
    requires HeadsFit(key.Length, TokenBase(token, keyStride), numKvHeads, headSize, rotDim / 2)
    requires PartlyRotated(query[..], queryBefore, TokenBase(token, queryStride), numHeads, headSize,
                           CosRow(cosSinCache, positions[token], rotDim), SinRow(cosSinCache, positions[token], rotDim),
                           rotDim / 2, isNeox, laneCount, lane, lane)
    requires PartlyRotated(key[..], keyBefore, TokenBase(token, keyStride), numKvHeads, headSize,
                           CosRow(cosSinCache, positions[token], rotDim), SinRow(cosSinCache, positions[token], rotDim),
                           rotDim / 2, isNeox, laneCount, lane, lane)
    modifies query, key
    ensures PartlyRotated(query[..], queryBefore, TokenBase(token, queryStride), numHeads, headSize,
                          CosRow(cosSinCache, positions[token], rotDim), SinRow(cosSinCache, positions[token], rotDim),
                          rotDim / 2, isNeox, laneCount, lane + 1, lane + 1)
    ensures PartlyRotated(key[..], keyBefore, TokenBase(token, keyStride), numKvHeads, headSize,
                          CosRow(cosSinCache, positions[token], rotDim), SinRow(cosSinCache, positions[token], rotDim),
                          rotDim / 2, isNeox, laneCount, lane + 1, lane + 1)
  {
    var pos := positions[token];
    var embedDim := rotDim / 2;
    var cosRow := CosRow(cosSinCache, pos, rotDim);
    var sinRow := SinRow(cosSinCache, pos, rotDim);
    RotateLane(query, token * queryStride, numHeads, headSize, cosRow, sinRow, embedDim, isNeox,
               lane, laneCount, queryBefore);
    RotateLane(key, token * keyStride, numKvHeads, headSize, cosRow, sinRow, embedDim, isNeox,
               lane, laneCount, keyBefore);
  }

  /** Before any lane runs nothing is covered. */
  lemma NothingCovered(s: seq<real>, base: int, numHeads: int, headSize: int,
                       cosRow: seq<real>, sinRow: seq<real>, embedDim: int, isNeox: bool, laneCount: int)
    requires HeadsFit(|s|, base, numHeads, headSize, embedDim)
    requires embedDim <= |cosRow| && embedDim <= |sinRow| && 0 < laneCount
    ensures PartlyRotated(s, s, base, numHeads, headSize, cosRow, sinRow, embedDim, isNeox, laneCount, 0, 0)
  {
    forall h, o | 0 <= h < numHeads && 0 <= o < 2 * embedDim
      ensures !Covered(RotIndex(embedDim, isNeox, h, o), laneCount, 0, 0)
    {
      RotIndexBound(numHeads, embedDim, isNeox, h, o);
    }
  }

  /** The work-group of token `token`: its work-items run one after the other. */
  method RunWorkGroup(positions: seq<int>, query: array<real>, key: array<real>, cosSinCache: seq<real>,
                      rotDim: int, queryStride: int, keyStride: int, numHeads: int, numKvHeads: int,
                      headSize: int, token: int, laneCount: int, isNeox: bool)
    requires query != key && 0 < laneCount
    requires 0 <= token < |positions| && 0 <= positions[token] && 0 <= rotDim
    requires (positions[token] + 1) * rotDim <= |cosSinCache|
    requires HeadsFit(query.Length, TokenBase(token, queryStride), numHeads, headSize, rotDim / 2)
    requires HeadsFit(key.Length, TokenBase(token, keyStride), numKvHeads, headSize, rotDim / 2)
    modifies query, key
    ensures FullyRotated(query[..], old(query[..]), TokenBase(token, queryStride), numHeads, headSize,
                         CosRow(cosSinCache, positions[token], rotDim), SinRow(cosSinCache, positions[token], rotDim),
                         rotDim / 2, isNeox)
    ensures FullyRotated(key[..], old(key[..]), TokenBase(token, keyStride), numKvHeads, headSize,
                         CosRow(cosSinCache, positions[token], rotDim), SinRow(cosSinCache, positions[token], rotDim),
                         rotDim / 2, isNeox)
  {
    ghost var queryBefore, keyBefore := query[..], key[..];
    ghost var cosRow := CosRow(cosSinCache, positions[token], rotDim);
    ghost var sinRow := SinRow(cosSinCache, positions[token], rotDim);
    NothingCovered(queryBefore, TokenBase(token, queryStride), numHeads, headSize, cosRow, sinRow, rotDim / 2, isNeox, laneCount);
    NothingCovered(keyBefore, TokenBase(token, keyStride), numKvHeads, headSize, cosRow, sinRow, rotDim / 2, isNeox, laneCount);
    var lane := 0;
    while lane < laneCount
      invariant 0 <= lane <= laneCount
      invariant PartlyRotated(query[..], queryBefore, TokenBase(token, queryStride), numHeads, headSize,
                              cosRow, sinRow, rotDim / 2, isNeox, laneCount, lane, lane)
      invariant PartlyRotated(key[..], keyBefore, TokenBase(token, keyStride), numKvHeads, headSize,
                              cosRow, sinRow, rotDim / 2, isNeox, laneCount, lane, lane)
    {
      RotaryEmbeddingKernel(positions, query, key, cosSinCache, rotDim, queryStride, keyStride, numHeads,
                            numKvHeads, headSize, token, lane, laneCount, isNeox, queryBefore, keyBefore);
      lane := lane + 1;
    }
    AllLanesDone(query[..], queryBefore, TokenBase(token, queryStride), numHeads, headSize,
                 cosRow, sinRow, rotDim / 2, isNeox, laneCount);
    AllLanesDone(key[..], keyBefore, TokenBase(token, keyStride), numKvHeads, headSize,
                 cosRow, sinRow, rotDim / 2, isNeox, laneCount);
  }

  /**
   * The parallel_for launch of rotary_embedding_kernel<scalar_t, neoxKernel>: one work-group
   * of `laneCount` work-items per token, run token by token.
   */
  method LaunchRotaryKernel(positions: seq<int>, query: array<real>, key: array<real>, cosSinCache: seq<real>,
                            rotDim: int, queryStride: int, keyStride: int, numHeads: int, numKvHeads: int,
                            headSize: int, numTokens: int, laneCount: int, neoxKernel: bool)
    requires query != key && 0 < laneCount && 0 <= numHeads && 0 <= numKvHeads
    requires 2 * (rotDim / 2) <= headSize
    requires PositionsFit(positions, cosSinCache, rotDim, numTokens)
    requires TokensFit(query.Length, numTokens, queryStride, numHeads * headSize)
    requires TokensFit(key.Length, numTokens, keyStride, numKvHeads * headSize)
    modifies query, key
    ensures TokensRotated(query[..], old(query[..]), positions, cosSinCache, rotDim, queryStride, numHeads,
                          headSize, neoxKernel, numTokens, numTokens)
    ensures TokensRotated(key[..], old(key[..]), positions, cosSinCache, rotDim, keyStride, numKvHeads,
                          headSize, neoxKernel, numTokens, numTokens)
  {
    ghost var query0, key0 := query[..], key[..];
    var token := 0;
    while token < numTokens
      invariant 0 <= token <= numTokens
      invariant TokensRotated(query[..], query0, positions, cosSinCache, rotDim, queryStride, numHeads,
                              headSize, neoxKernel, numTokens, token)
      invariant TokensRotated(key[..], key0, positions, cosSinCache, rotDim, keyStride, numKvHeads,
                              headSize, neoxKernel, numTokens, token)
    {
      ghost var queryPrev, keyPrev := query[..], key[..];
      assert HeadsFit(query.Length, TokenBase(token, queryStride), numHeads, headSize, rotDim / 2);
      assert HeadsFit(key.Length, TokenBase(token, keyStride), numKvHeads, headSize, rotDim / 2);
      RunWorkGroup(positions, query, key, cosSinCache, rotDim, queryStride, keyStride, numHeads, numKvHeads,
                   headSize, token, laneCount, neoxKernel);
      TokenDone(queryPrev, query[..], query0, positions, cosSinCache, rotDim, queryStride, numHeads, headSize,
                neoxKernel, numTokens, token);
      TokenDone(keyPrev, key[..], key0, positions, cosSinCache, rotDim, keyStride, numKvHeads, headSize,
                neoxKernel, numTokens, token);
      token := token + 1;
    }
  }

  // ---------------------------------------------------------------------------
  // Host side: launch geometry and dispatch (rotary_embedding)
  // ---------------------------------------------------------------------------

  /** Launch sizes derived from the tensor shapes. */
  datatype Launch = Launch(numTokens: int, rotDim: int, numHeads: int, numKvHeads: int, laneCount: int)

  lemma FloorDiv(a: int, l: int)
    requires 0 <= a && 0 < l
    ensures 0 <= a / l && (a / l) * l <= a < (a / l + 1) * l
  {
  }

  /** The work-group is empty only when there is no pair to rotate. */
  lemma NoPairsNoLanes(numHeads: int, cacheCols: int)
    requires 0 <= numHeads && 0 <= cacheCols
    ensures 0 <= numHeads * cacheCols / 2
    ensures numHeads * cacheCols / 2 == 0 ==> numHeads * (cacheCols / 2) == 0
  {
    if numHeads > 0 && cacheCols >= 2 {
      MulAtLeast(numHeads, cacheCols);
    } else if numHeads == 0 {
      assert numHeads * (cacheCols / 2) == 0;
    } else {
      assert cacheCols / 2 == 0;
    }
  }

  /**
   * num_tokens = numel / size(-1), rot_dim = cache.size(1), num_heads and num_kv_heads the
   * last dimensions divided by head_size, and a work-group of min(num_heads * rot_dim / 2, 512)
   * work-items.
   */
  function LaunchGeometry(queryNumel: int, queryLastDim: int, keyLastDim: int, headSize: int, cacheCols: int): (g: Launch)
    requires 0 <= queryNumel && 0 < queryLastDim && 0 <= keyLastDim && 0 < headSize && 0 <= cacheCols
    ensures g.rotDim == cacheCols
    ensures 0 <= g.numTokens && g.numTokens * queryLastDim <= queryNumel < (g.numTokens + 1) * queryLastDim
    ensures 0 <= g.numHeads && g.numHeads * headSize <= queryLastDim < (g.numHeads + 1) * headSize
    ensures 0 <= g.numKvHeads && g.numKvHeads * headSize <= keyLastDim < (g.numKvHeads + 1) * headSize
    ensures 0 <= g.laneCount <= 512 && g.laneCount <= g.numHeads * cacheCols / 2
    ensures g.laneCount < 512 ==> g.laneCount == g.numHeads * cacheCols / 2
    ensures g.laneCount == 0 ==> g.numHeads * (cacheCols / 2) == 0
  {
    FloorDiv(queryNumel, queryLastDim);
    FloorDiv(queryLastDim, headSize);
    FloorDiv(keyLastDim, headSize);
    var numHeads := queryLastDim / headSize;
    var wanted := numHeads * cacheCols / 2;
    NoPairsNoLanes(numHeads, cacheCols);
    Launch(queryNumel / queryLastDim, cacheCols, numHeads, keyLastDim / headSize,
           if wanted < 512 then wanted else 512)
  }

  /** What rotary_embedding needs of its tensors for every index the kernel forms to be in range. */
  predicate HostArgsOk(positions: seq<int>, queryLen: int, keyLen: int, headSize: int, cosSinCache: seq<real>,
                       cacheCols: int, queryNumel: int, queryLastDim: int, keyLastDim: int,
                       queryStride: int, keyStride: int)
  {
    0 <= queryNumel && 0 < queryLastDim && 0 <= keyLastDim && 0 < headSize && 0 <= cacheCols &&
    2 * (cacheCols / 2) <= headSize &&
    var g := LaunchGeometry(queryNumel, queryLastDim, keyLastDim, headSize, cacheCols);
    PositionsFit(positions, cosSinCache, cacheCols, g.numTokens) &&
    TokensFit(queryLen, g.numTokens, queryStride, g.numHeads * headSize) &&
    TokensFit(keyLen, g.numTokens, keyStride, g.numKvHeads * headSize)
  }

  /**
   * rotary_embedding as written: both branches of `if (is_neox)` launch the GPT-NeoX
   * instantiation, so the GPT-J pairing is never used.  A zero-sized work-group launches
   * no work-item.
   */
  method RotaryEmbeddingAsWritten(positions: seq<int>, query: array<real>, key: array<real>, headSize: int,
                                  cosSinCache: seq<real>, cacheCols: int, queryNumel: int, queryLastDim: int,
                                  keyLastDim: int, queryStride: int, keyStride: int, isNeox: bool)
    requires query != key
    requires HostArgsOk(positions, query.Length, key.Length, headSize, cosSinCache, cacheCols, queryNumel,
                        queryLastDim, keyLastDim, queryStride, keyStride)
    modifies query, key
    ensures var g := LaunchGeometry(queryNumel, queryLastDim, keyLastDim, headSize, cacheCols);
      if g.laneCount > 0 then
        TokensRotated(query[..], old(query[..]), positions, cosSinCache, cacheCols, queryStride, g.numHeads,
                      headSize, true, g.numTokens, g.numTokens) &&
        TokensRotated(key[..], old(key[..]), positions, cosSinCache, cacheCols, keyStride, g.numKvHeads,
                      headSize, true, g.numTokens, g.numTokens)
      else query[..] == old(query[..]) && key[..] == old(key[..])
  {
    var g := LaunchGeometry(queryNumel, queryLastDim, keyLastDim, headSize, cacheCols);
    if g.laneCount > 0 {
      if isNeox {
        LaunchRotaryKernel(positions, query, key, cosSinCache, g.rotDim, queryStride, keyStride, g.numHeads,
                           g.numKvHeads, headSize, g.numTokens, g.laneCount, true);
      } else {
        LaunchRotaryKernel(positions, query, key, cosSinCache, g.rotDim, queryStride, keyStride, g.numHeads,
                           g.numKvHeads, headSize, g.numTokens, g.laneCount, true);
      }
    }
  }

  /** rotary_embedding with the dispatch the commented-out launch code had: the kernel follows is_neox. */
  method RotaryEmbedding(positions: seq<int>, query: array<real>, key: array<real>, headSize: int,
                         cosSinCache: seq<real>, cacheCols: int, queryNumel: int, queryLastDim: int,
                         keyLastDim: int, queryStride: int, keyStride: int, isNeox: bool)
    requires query != key
    requires HostArgsOk(positions, query.Length, key.Length, headSize, cosSinCache, cacheCols, queryNumel,
                        queryLastDim, keyLastDim, queryStride, keyStride)
    modifies query, key
    ensures var g := LaunchGeometry(queryNumel, queryLastDim, keyLastDim, headSize, cacheCols);
      if g.laneCount > 0 then
        TokensRotated(query[..], old(query[..]), positions, cosSinCache, cacheCols, queryStride, g.numHeads,
                      headSize, isNeox, g.numTokens, g.numTokens) &&
        TokensRotated(key[..], old(key[..]), positions, cosSinCache, cacheCols, keyStride, g.numKvHeads,
                      headSize, isNeox, g.numTokens, g.numTokens)
      else query[..] == old(query[..]) && key[..] == old(key[..])
  {
    var g := LaunchGeometry(queryNumel, queryLastDim, keyLastDim, headSize, cacheCols);
    if g.laneCount > 0 {
      if isNeox {
        LaunchRotaryKernel(positions, query, key, cosSinCache, g.rotDim, queryStride, keyStride, g.numHeads,
                           g.numKvHeads, headSize, g.numTokens, g.laneCount, true);
      } else {
        LaunchRotaryKernel(positions, query, key, cosSinCache, g.rotDim, queryStride, keyStride, g.numHeads,
                           g.numKvHeads, headSize, g.numTokens, g.laneCount, false);
      }
    }
  }
}
