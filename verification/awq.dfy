/**
 * The bookkeeping around the AWQ quantized matmul of
 * vllm/model_executor/layers/quantization/ops/awq.py: autotune configuration pruning, the
 * kernel heuristics, the argument checks of awq_matmul, the cached shifter, the 4-bit
 * unpacking of packed int32 words, the split-K tiling of the reduction dimension, the
 * grouped program-id ordering and the masked write-back of an output tile.  The
 * dequantisation arithmetic and the dot product are floating point and are not modelled;
 * a tile's accumulator is an input.
 */
module Awq {
  import opened Wrappers
  import opened Arith

  /** The tile sizes of a Triton autotune configuration. */
  datatype Config = Config(blockM: Pos, blockN: Pos, blockK: Pos, splitK: Pos)

  // ---------------------------------------------------------------- config pruning

  /**
   * A configuration the kernel can run: a tile of BLOCK_N columns holds whole packed words
   * and a quantization group holds whole BLOCK_K slices.  A Python `%` by a non-zero
   * divisor is zero exactly when Dafny's is, so divisibility is read the same way.
   */
  predicate ConfigValid(c: Config, packFactor: int, groupSize: int): (ok: bool)
    requires packFactor != 0
    ensures ok <==> (c.blockN / packFactor) * packFactor == c.blockN && (groupSize / c.blockK) * c.blockK == groupSize
  {
    c.blockN % packFactor == 0 && groupSize % c.blockK == 0
  }

  /** The valid configurations of `configs`, in their original order. */
  function ValidConfigs(configs: seq<Config>, packFactor: int, groupSize: int): (r: seq<Config>)
    requires packFactor != 0
    ensures |r| <= |configs|
    ensures forall c :: c in r <==> c in configs && ConfigValid(c, packFactor, groupSize)
  {
    if configs == [] then []
    else
      var last := configs[|configs| - 1];
      assert forall c :: c in configs <==> c in configs[..|configs| - 1] || c == last;
      ValidConfigs(configs[..|configs| - 1], packFactor, groupSize)
        + (if ConfigValid(last, packFactor, groupSize) then [last] else [])
  }

  /** Pruning a concatenation prunes each part and keeps them in order. */
  lemma {:induction false} ValidConfigsAppend(a: seq<Config>, b: seq<Config>, packFactor: int, groupSize: int)
    requires packFactor != 0
    ensures ValidConfigs(a + b, packFactor, groupSize)
            == ValidConfigs(a, packFactor, groupSize) + ValidConfigs(b, packFactor, groupSize)
    decreases |b|
  {
    if b == [] {
      assert a + b == a;
    } else {
      var init := b[..|b| - 1];
      assert (a + b)[..|a + b| - 1] == a + init;
      assert (a + b)[|a + b| - 1] == b[|b| - 1];
      ValidConfigsAppend(a, init, packFactor, groupSize);
    }
  }

  /** Pruning twice prunes nothing more. */
  lemma {:induction false} ValidConfigsIdempotent(configs: seq<Config>, packFactor: int, groupSize: int)
    requires packFactor != 0
    ensures ValidConfigs(ValidConfigs(configs, packFactor, groupSize), packFactor, groupSize)
            == ValidConfigs(configs, packFactor, groupSize)
    decreases |configs|
  {
    if configs != [] {
      var init := configs[..|configs| - 1];
      var last := configs[|configs| - 1];
      ValidConfigsIdempotent(init, packFactor, groupSize);
      var tail := if ConfigValid(last, packFactor, groupSize) then [last] else [];
      ValidConfigsAppend(ValidConfigs(init, packFactor, groupSize), tail, packFactor, groupSize);
      if tail != [] {
        assert tail[..0] == [];
      }
    }
  }

  /** _prune_invalid_configs: the loop that keeps the valid configurations. */
  method PruneInvalidConfigs(configs: seq<Config>, packFactor: int, groupSize: int) returns (valid: seq<Config>)
    requires packFactor != 0
    ensures valid == ValidConfigs(configs, packFactor, groupSize)
  {
    valid := [];
    for i := 0 to |configs|
      invariant valid == ValidConfigs(configs[..i], packFactor, groupSize)
    {
      assert configs[..i + 1][..i] == configs[..i];
      var config := configs[i];
      if config.blockN % packFactor != 0 {
        continue;
      }
      if groupSize % config.blockK != 0 {
        continue;
      }
      valid := valid + [config];
    }
    assert configs[..|configs|] == configs;
  }

  // ---------------------------------------------------------------- heuristics

  /** EVEN_K: the reduction dimension splits into whole BLOCK_K * SPLIT_K steps. */
  predicate EvenK(k: nat, c: Config): (e: bool)
    ensures e <==> KIterations(k, c) * (c.blockK * c.splitK) == k
  {
    var step := c.blockK * c.splitK;
    assert k % step == 0 <==> KIterations(k, c) * step == k by {
      if k % step == 0 {
        DivMod(k, step);
        DivOfOffset(k / step, step, step - 1);
      }
      if KIterations(k, c) * step == k {
        DivOfOffset(KIterations(k, c), step, 0);
      }
    }
    k % step == 0
  }

  /** PACKED_BLOCK_N: the number of packed words a tile of BLOCK_N columns reads. */
  function PackedBlockN(c: Config, packFactor: Pos): (n: nat)
    ensures c.blockN % packFactor == 0 ==> n * packFactor == c.blockN
    ensures n * packFactor <= c.blockN < (n + 1) * packFactor
  {
    c.blockN / packFactor
  }

  /** AWQ_BIT_WIDTH and AWQ_MASK: each of the pack_factor fields of a 32-bit word. */
  function AwqBitWidth(packFactor: Pos): (w: nat)
    ensures packFactor * w <= 32
    ensures packFactor == 8 ==> w == 4
  {
    32 / packFactor
  }

  // ---------------------------------------------------------------- awq_matmul checks

  datatype DType = Float16 | BFloat16 | Float32 | Int32

  /** What awq_matmul looks at in a tensor. */
  datatype TensorInfo = TensorInfo(shape: seq<nat>, dtype: DType, contiguous: bool)

  datatype AwqError =
    | PackFactorNotImplemented   // NotImplementedError("AWQ pack factor must be 8.")
    | GroupSizeNotImplemented    // NotImplementedError("AWQ group size must be 128.")
    | AssertionFailed            // a failed `assert`
    | IndexOutOfRange            // `a.shape[1]` or `b.shape[0]` on a tensor of lower rank
    | UnpackMismatch             // `M, K = a.shape` on a tensor that is not two-dimensional

  /** The shape contract of awq_matmul, written as the shapes the documentation names. */
  predicate ShapesAgree(a: seq<nat>, b: seq<nat>, qzeros: seq<nat>, scales: seq<nat>)
  {
    |a| == 2 && |b| == 2 && a[1] == b[0]
    && qzeros == [a[1] / 128, b[1]] && scales == [a[1] / 128, 8 * b[1]]
  }

  predicate DTypesAgree(a: TensorInfo, b: TensorInfo, qzeros: TensorInfo, scales: TensorInfo)
  {
    a.dtype in {Float16, BFloat16} && b.dtype == Int32 && qzeros.dtype == Int32 && scales.dtype == a.dtype
  }

  /**
   * awq_matmul up to the kernel launch: the checks in the order the source makes them, and
   * the output tensor it allocates.
   */
  function AwqMatmulChecks(a: TensorInfo, b: TensorInfo, qzeros: TensorInfo, scales: TensorInfo,
                           packFactor: int, groupSize: int): (r: Result<TensorInfo, AwqError>)
    ensures r == Err(PackFactorNotImplemented) <==> packFactor != 8
    ensures r == Err(GroupSizeNotImplemented) <==> packFactor == 8 && groupSize != 128
    ensures r.Ok? <==> packFactor == 8 && groupSize == 128
                       && a.contiguous && b.contiguous && qzeros.contiguous && scales.contiguous
                       && DTypesAgree(a, b, qzeros, scales)
                       && ShapesAgree(a.shape, b.shape, qzeros.shape, scales.shape)
    ensures r.Ok? ==> r.value == TensorInfo([a.shape[0], 8 * b.shape[1]], a.dtype, true)
  {
    if packFactor != 8 then Err(PackFactorNotImplemented)
    else if groupSize != 128 then Err(GroupSizeNotImplemented)
    else if !(a.contiguous && b.contiguous && qzeros.contiguous && scales.contiguous) then Err(AssertionFailed)
    else if !(a.dtype in {Float16, BFloat16}) || b.dtype != Int32 || qzeros.dtype != Int32
            || scales.dtype != a.dtype then Err(AssertionFailed)
    else if |a.shape| < 2 || |b.shape| < 1 then Err(IndexOutOfRange)
    else if a.shape[1] != b.shape[0] then Err(AssertionFailed)
    else if |a.shape| != 2 || |b.shape| != 2 then Err(UnpackMismatch)
    else
      var m, k := a.shape[0], a.shape[1];
      var packedN := b.shape[1];
      var n := packFactor * packedN;
      if qzeros.shape != [k / groupSize, packedN] then Err(AssertionFailed)
      else if scales.shape != [k / groupSize, n] then Err(AssertionFailed)
      else Ok(TensorInfo([m, n], a.dtype, true))
  }

  /**
   * The documented shapes are accepted: a is (M, K), b is (K, N/8), qzeros is (K/128, N/8)
   * and scales is (K/128, N), and the output is (M, N).
   */
  lemma DocumentedShapesAccepted(m: nat, k: nat, n: nat, dtype: DType)
    requires n % 8 == 0 && dtype in {Float16, BFloat16}
    ensures AwqMatmulChecks(TensorInfo([m, k], dtype, true), TensorInfo([k, n / 8], Int32, true),
                            TensorInfo([k / 128, n / 8], Int32, true), TensorInfo([k / 128, n], dtype, true), 8, 128)
            == Ok(TensorInfo([m, n], dtype, true))
  {
    assert 8 * (n / 8) == n;
  }

  // ---------------------------------------------------------------- the shifter

  /** The order in which the packed nibbles of a word are laid out. */
  const NibbleOrder: seq<bv32> := [0, 4, 1, 5, 2, 6, 3, 7]

  /** The shifter get_shifter builds: the nibble order scaled to bit offsets. */
  function AwqShifter(): (s: seq<bv32>)
    ensures |s| == 8
  {
    seq(8, j requires 0 <= j < 8 => NibbleOrder[j] * 4)
  }

  /** get_shifter(8) is [0, 16, 4, 20, 8, 24, 12, 28]. */
  lemma ShifterValues()
    ensures AwqShifter() == [0, 16, 4, 20, 8, 24, 12, 28]
  {
  }

  /**
   * The shifts are distinct multiples of 4 below 32 and together name every nibble of a
   * word.
   */
  lemma ShiftsCoverWord()
    ensures forall j :: 0 <= j < 8 ==> AwqShifter()[j] % 4 == 0 && AwqShifter()[j] < 32
    ensures forall i, j :: 0 <= i < j < 8 ==> AwqShifter()[i] != AwqShifter()[j]
  {
    var s := AwqShifter();
    ShifterValues();
    assert s[0] == 0 && s[1] == 16 && s[2] == 4 && s[3] == 20;
    assert s[4] == 8 && s[5] == 24 && s[6] == 12 && s[7] == 28;
  }

  /**
   * The cache of get_shifter: at most one entry, for pack factor 8, holding the shifter.
   * The device the tensor lives on is not modelled.
   */
  class ShifterCache {
    var entries: map<int, seq<bv32>>

    ghost predicate Valid()
      reads this
    {
      forall p :: p in entries ==> p == 8 && entries[p] == AwqShifter()
    }

    constructor()
      ensures Valid() && entries == map[]
    {
      entries := map[];
    }

    /** get_shifter: asserts the pack factor is 8, and builds the shifter once. */
    method GetShifter(packFactor: int) returns (r: Result<seq<bv32>, AwqError>)
      requires Valid()
      modifies this
      ensures Valid()
      ensures packFactor != 8 ==> r == Err(AssertionFailed) && entries == old(entries)
      ensures packFactor == 8 ==> r == Ok([0, 16, 4, 20, 8, 24, 12, 28]) && entries == map[8 := AwqShifter()]
    {
      ShifterValues();
      if packFactor != 8 {
        return Err(AssertionFailed);
      }
      if packFactor in entries {
        assert forall p :: p in entries <==> p == 8;
        assert entries == map[8 := AwqShifter()];
        return Ok(entries[packFactor]);
      }
      var shifter := seq(8, j requires 0 <= j < 8 => NibbleOrder[j]);
      shifter := seq(8, j requires 0 <= j < 8 => shifter[j] * 4);
      assert shifter == AwqShifter();
      assert entries == map[] by {
        assert forall p :: p !in entries;
      }
      entries := entries[packFactor := shifter];
      return Ok(shifter);
    }
  }

  // ---------------------------------------------------------------- nibble unpacking

  /** A 4-bit quantized weight or zero point: the type itself bounds it to [0, 15]. */
  type Nibble = bv4

  /**
   * `(w >> shift) & AWQ_MASK` on a packed int32 word.  The word is read as its 32 bits; an
   * arithmetic and a logical right shift agree on the four bits the mask keeps, because the
   * shift is at most 28.
   */
  function Unpack(w: bv32, shift: bv32): (n: Nibble)
    requires shift <= 28
    ensures (n as bv32) << shift == w & (15 << shift)
  {
    ShiftedField(w, shift);
    ((w >> shift) & 15) as bv4
  }

  /** Masking after the shift keeps exactly the four bits of the word at `shift`. */
  lemma ShiftedField(w: bv32, shift: bv32)
    requires shift <= 28
    ensures ((w >> shift) & 15) << shift == w & (15 << shift)
  {
    var high: bv32 := 0xFFFF_FFFF << shift;
    assert ((w >> shift) & 15) << shift == ((w >> shift) << shift) & (15 << shift);
    assert (w >> shift) << shift == w & high;
    assert (15 << shift) & high == 15 << shift;
  }

  /** The eight weights of a packed word, in the order the shifter reads them. */
  function UnpackWord(w: bv32): (ns: seq<Nibble>)
    ensures |ns| == 8
  {
    var s := AwqShifter();
    ShiftsCoverWord();
    [Unpack(w, s[0]), Unpack(w, s[1]), Unpack(w, s[2]), Unpack(w, s[3]),
     Unpack(w, s[4]), Unpack(w, s[5]), Unpack(w, s[6]), Unpack(w, s[7])]
  }

  /** Packing eight 4-bit weights in the shifter's order. */
  function PackWord(ns: seq<Nibble>): (w: bv32)
    requires |ns| == 8
  {
    (ns[0] as bv32) | (ns[1] as bv32 << 16) | (ns[2] as bv32 << 4) | (ns[3] as bv32 << 20)
    | (ns[4] as bv32 << 8) | (ns[5] as bv32 << 24) | (ns[6] as bv32 << 12) | (ns[7] as bv32 << 28)
  }

  /** UnpackWord spelled out with the shifter's constants. */
  lemma UnpackWordValues(w: bv32)
    ensures UnpackWord(w) == [Unpack(w, 0), Unpack(w, 16), Unpack(w, 4), Unpack(w, 20),
                              Unpack(w, 8), Unpack(w, 24), Unpack(w, 12), Unpack(w, 28)]
  {
    ShifterValues();
  }

  /** Unpacking a packed word gives back the weights that were packed. */
  lemma UnpackPack(ns: seq<Nibble>)
    requires |ns| == 8
    ensures UnpackWord(PackWord(ns)) == ns
  {
    UnpackWordValues(PackWord(ns));
    assert ns == [ns[0], ns[1], ns[2], ns[3], ns[4], ns[5], ns[6], ns[7]];
    UnpackFields(ns[0], ns[1], ns[2], ns[3], ns[4], ns[5], ns[6], ns[7]);
  }

  /** The field at each shift of a packed word is the weight packed there. */
  lemma UnpackFields(a: Nibble, b: Nibble, c: Nibble, d: Nibble, e: Nibble, f: Nibble, g: Nibble, h: Nibble)
    ensures var w := PackWord([a, b, c, d, e, f, g, h]);
            Unpack(w, 0) == a && Unpack(w, 16) == b && Unpack(w, 4) == c && Unpack(w, 20) == d
            && Unpack(w, 8) == e && Unpack(w, 24) == f && Unpack(w, 12) == g && Unpack(w, 28) == h
  {
  }

  /** Unpacking loses nothing: the eight weights rebuild the word. */
  lemma PackUnpack(w: bv32)
    ensures PackWord(UnpackWord(w)) == w
  {
    UnpackWordValues(w);
  }

  // ---------------------------------------------------------------- the reduction loop

  /**
   * The reduction row that lane t of split program pidZ reads at iteration k: the A and B
   * pointers start at rk = pidZ * BLOCK_K + t and advance BLOCK_K * SPLIT_K rows per
   * iteration.
   */
  function KRow(c: Config, pidZ: nat, k: nat, t: nat): (row: nat)
    ensures k * (c.blockK * c.splitK) <= row
    ensures pidZ < c.splitK && t < c.blockK ==> row < k * (c.blockK * c.splitK) + c.blockK * c.splitK
  {
    assert pidZ < c.splitK && t < c.blockK ==> pidZ * c.blockK + t < c.blockK * c.splitK by {
      if pidZ < c.splitK && t < c.blockK {
        LaneInStep(c, pidZ, t);
      }
    }
    pidZ * c.blockK + k * (c.blockK * c.splitK) + t
  }

  /** The trip count of the reduction loop: cdiv(K, BLOCK_K * SPLIT_K). */
  function KIterations(kDim: nat, c: Config): nat
  {
    CeilDiv(kDim, c.blockK * c.splitK)
  }

  /** Whether that load happens: unmasked under EVEN_K, otherwise masked by rk < k_remaining. */
  predicate KLoaded(kDim: nat, c: Config, pidZ: nat, k: nat, t: nat)
  {
    EvenK(kDim, c) || pidZ * c.blockK + t < kDim - k * (c.blockK * c.splitK)
  }

  /** A split program's lanes stay inside one BLOCK_K * SPLIT_K step. */
  lemma LaneInStep(c: Config, pidZ: nat, t: nat)
    requires pidZ < c.splitK && t < c.blockK
    ensures pidZ * c.blockK + t < c.blockK * c.splitK
  {
    MulMono(pidZ + 1, c.splitK, c.blockK);
  }

  /**
   * Within the launch, a row is loaded exactly when it lies below K: the unmasked EVEN_K
   * loads never read past K, and the mask admits every row below K.
   */
  lemma KLoadedIffInRange(kDim: nat, c: Config, pidZ: nat, k: nat, t: nat)
    requires pidZ < c.splitK && k < KIterations(kDim, c) && t < c.blockK
    ensures KLoaded(kDim, c, pidZ, k, t) <==> KRow(c, pidZ, k, t) < kDim
  {
    var step := c.blockK * c.splitK;
    LaneInStep(c, pidZ, t);
    if EvenK(kDim, c) {
      var n := kDim / step;
      assert kDim == n * step;
      DivOfOffset(n, step, step - 1);
      assert KIterations(kDim, c) == n;
      MulMono(k + 1, n, step);
    }
  }

  /** Every row below K is read by some lane of some split program at some iteration. */
  lemma KRowCovers(kDim: nat, c: Config, row: nat)
    requires row < kDim
    ensures exists pidZ: nat, k: nat, t: nat :: pidZ < c.splitK && k < KIterations(kDim, c) && t < c.blockK
                                 && KRow(c, pidZ, k, t) == row
  {
    var step := c.blockK * c.splitK;
    var k, rem := row / step, row % step;
    var pidZ, t := rem / c.blockK, rem % c.blockK;
    DivBelow(rem, c.blockK, c.splitK);
    assert row == k * step + rem;
    assert rem == pidZ * c.blockK + t;
    DivBounds(row, step);
    MulMonoStrict(k, KIterations(kDim, c), step);
    assert KRow(c, pidZ, k, t) == row;
  }

  /** No row is read twice: the lane, split program and iteration are determined by it. */
  lemma KRowUnique(c: Config, pidZ: nat, k: nat, t: nat, pidZ': nat, k': nat, t': nat)
    requires pidZ < c.splitK && t < c.blockK && pidZ' < c.splitK && t' < c.blockK
    requires KRow(c, pidZ, k, t) == KRow(c, pidZ', k', t')
    ensures pidZ == pidZ' && k == k' && t == t'
  {
    var row := KRow(c, pidZ, k, t);
    var a, a' := k * c.splitK + pidZ, k' * c.splitK + pidZ';
    KRowAsBlocks(c, pidZ, k, t);
    KRowAsBlocks(c, pidZ', k', t');
    DivOfOffset(a, c.blockK, t);
    DivOfOffset(a', c.blockK, t');
    DivOfOffset(k, c.splitK, pidZ);
    DivOfOffset(k', c.splitK, pidZ');
  }

  /** A row is a whole number of BLOCK_K slices plus the lane. */
  lemma KRowAsBlocks(c: Config, pidZ: nat, k: nat, t: nat)
    ensures KRow(c, pidZ, k, t) == (k * c.splitK + pidZ) * c.blockK + t
  {
    assert k * (c.blockK * c.splitK) == (k * c.splitK) * c.blockK;
  }

  /**
   * The quantization group whose zero points and scales a split program holds at
   * iteration k: they are reloaded at each iteration whose row offset k * BLOCK_K * SPLIT_K
   * is a multiple of the group size, for row pidZ * BLOCK_K + k * BLOCK_K * SPLIT_K (row 0
   * when that is past K), and kept otherwise.
   */
  function HeldGroup(kDim: nat, c: Config, groupSize: Pos, pidZ: nat, k: nat): (g: nat)
    ensures g == 0 || g * groupSize < kDim
  {
    var step := c.blockK * c.splitK;
    if (k * step) % groupSize == 0 then
      var kIdx := pidZ * c.blockK + k * step;
      var row := if kIdx < kDim then kIdx else 0;
      DivBounds(row, groupSize);
      assert row == 0 ==> row / groupSize == 0;
      row / groupSize
    else
      HeldGroup(kDim, c, groupSize, pidZ, k - 1)
  }

  /**
   * The reduction loop of _awq_kernel for one split program, recording at each iteration
   * the group it dequantizes with.
   */
  method ReductionGroups(kDim: nat, c: Config, groupSize: Pos, pidZ: nat) returns (groups: seq<nat>)
    ensures |groups| == KIterations(kDim, c)
    ensures forall k :: 0 <= k < |groups| ==> groups[k] == HeldGroup(kDim, c, groupSize, pidZ, k)
  {
    var step := c.blockK * c.splitK;
    groups := [];
    var g := 0;
    for k := 0 to CeilDiv(kDim, step)
      invariant |groups| == k
      invariant forall i :: 0 <= i < k ==> groups[i] == HeldGroup(kDim, c, groupSize, pidZ, i)
      invariant k > 0 ==> g == HeldGroup(kDim, c, groupSize, pidZ, k - 1)
    {
      if (k * step) % groupSize == 0 {
        var kIdx := pidZ * c.blockK + k * step;
        kIdx := if kIdx < kDim then kIdx else 0;
        g := kIdx / groupSize;
      } else {
        assert k != 0;
      }
      assert g == HeldGroup(kDim, c, groupSize, pidZ, k);
      groups := groups + [g];
    }
  }

  /** A BLOCK_K-aligned slice of rows lies inside one quantization group. */
  lemma AlignedSliceInGroup(x: nat, bk: Pos, g: Pos, t: nat)
    requires x % bk == 0 && g % bk == 0 && t < bk
    ensures (x + t) / g == x / g
  {
    var a := x / bk;
    var b: Pos := SlicesPerGroup(g, bk);
    assert x == a * bk by {
      DivMod(x, bk);
    }
    var q, s := a / b, a % b;
    assert a == q * b + s by {
      DivMod(a, b);
    }
    assert x == q * g + s * bk by {
      Regroup(q, b, s, bk);
    }
    assert s * bk + t < g by {
      MulMono(s + 1, b, bk);
    }
    DivOfOffset(q, g, s * bk + t);
    DivOfOffset(q, g, s * bk);
  }

  /** A group that is a multiple of BLOCK_K holds a positive number of BLOCK_K slices. */
  function SlicesPerGroup(g: Pos, bk: Pos): (b: Pos)
    requires g % bk == 0
    ensures g == b * bk
  {
    DivMod(g, bk);
    g / bk
  }

  /** Distributing a multiple of slices over the quotient and remainder by the group. */
  lemma Regroup(q: int, b: int, s: int, bk: int)
    ensures (q * b + s) * bk == q * (b * bk) + s * bk
  {
  }

  /**
   * When the group size is a multiple of BLOCK_K * SPLIT_K, the group held at iteration k is
   * the one loaded at the last iteration whose offset is a multiple of the group size.
   */
  lemma {:induction false} HeldGroupSinceReload(kDim: nat, c: Config, groupSize: Pos, pidZ: nat, k: nat)
    requires groupSize % (c.blockK * c.splitK) == 0
    ensures var per := groupSize / (c.blockK * c.splitK);
            per > 0 && HeldGroup(kDim, c, groupSize, pidZ, k) == HeldGroup(kDim, c, groupSize, pidZ, k - k % per)
    decreases k
  {
    var step := c.blockK * c.splitK;
    var per := groupSize / step;
    assert groupSize == per * step;
    ReloadIff(c, groupSize, k);
    if k % per != 0 {
      ReloadIff(c, groupSize, k - 1);
      HeldGroupSinceReload(kDim, c, groupSize, pidZ, k - 1);
      var q, r := k / per, k % per;
      DivMod(k, per);
      DivOfOffset(q, per, r - 1);
      assert k - 1 == q * per + (r - 1);
    }
  }

  /** When the group size is a multiple of the step, the reload happens every group / step iterations. */
  lemma ReloadIff(c: Config, groupSize: Pos, k: nat)
    requires groupSize % (c.blockK * c.splitK) == 0
    ensures var step := c.blockK * c.splitK;
            var per := groupSize / step;
            per > 0 && ((k * step) % groupSize == 0 <==> k % per == 0)
            && (k * step) / groupSize == k / per
  {
    var step: Pos := c.blockK * c.splitK;
    var per := groupSize / step;
    assert groupSize == per * step;
    var q, r := k / per, k % per;
    StepSplit(k, step, per, q, r);
    MulMono(r + 1, per, step);
    DivOfOffset(q, groupSize, r * step);
    if r > 0 {
      MulMono(1, r, step);
    }
  }

  lemma StepSplit(k: nat, step: Pos, per: Pos, q: nat, r: nat)
    requires k == q * per + r
    ensures k * step == q * (per * step) + r * step
  {
  }

  /**
   * Each row is dequantized with the zero points and scales of its own group, when the
   * group size is a multiple of BLOCK_K (as pruning demands) and the group size and the
   * step BLOCK_K * SPLIT_K divide one into the other (as they do for powers of two).
   */
  lemma HeldGroupIsRowGroup(kDim: nat, c: Config, groupSize: Pos, pidZ: nat, k: nat, t: nat)
    requires groupSize % c.blockK == 0
    requires (c.blockK * c.splitK) % groupSize == 0 || groupSize % (c.blockK * c.splitK) == 0
    requires pidZ < c.splitK && t < c.blockK && KRow(c, pidZ, k, t) < kDim
    ensures HeldGroup(kDim, c, groupSize, pidZ, k) == KRow(c, pidZ, k, t) / groupSize
  {
    if (c.blockK * c.splitK) % groupSize == 0 {
      HeldGroupWideStep(kDim, c, groupSize, pidZ, k, t);
    } else {
      HeldGroupNarrowStep(kDim, c, groupSize, pidZ, k, t);
    }
  }

  /** A step that spans whole groups reloads at every iteration. */
  lemma HeldGroupWideStep(kDim: nat, c: Config, groupSize: Pos, pidZ: nat, k: nat, t: nat)
    requires groupSize % c.blockK == 0 && (c.blockK * c.splitK) % groupSize == 0
    requires t < c.blockK && KRow(c, pidZ, k, t) < kDim
    ensures HeldGroup(kDim, c, groupSize, pidZ, k) == KRow(c, pidZ, k, t) / groupSize
  {
    var step := c.blockK * c.splitK;
    MulDivisible(k, step, groupSize);
    var kIdx := pidZ * c.blockK + k * step;
    KRowAsBlocks(c, pidZ, k, 0);
    DivOfOffset(k * c.splitK + pidZ, c.blockK, 0);
    AlignedSliceInGroup(kIdx, c.blockK, groupSize, t);
  }

  /** A step inside a group: the group loaded at the last reload still holds the row. */
  lemma HeldGroupNarrowStep(kDim: nat, c: Config, groupSize: Pos, pidZ: nat, k: nat, t: nat)
    requires groupSize % (c.blockK * c.splitK) == 0
    requires pidZ < c.splitK && t < c.blockK && KRow(c, pidZ, k, t) < kDim
    ensures HeldGroup(kDim, c, groupSize, pidZ, k) == KRow(c, pidZ, k, t) / groupSize
  {
    var step: Pos := c.blockK * c.splitK;
    var per := groupSize / step;
    ReloadIff(c, groupSize, 0);
    assert groupSize == per * step;
    LaneInStep(c, pidZ, t);
    HeldGroupSinceReload(kDim, c, groupSize, pidZ, k);
    var lane := pidZ * c.blockK + t;
    NarrowCore(k, step, per, lane, pidZ * c.blockK);
    var k0 := k - k % per;
    ReloadIff(c, groupSize, k0);
    assert KRow(c, pidZ, k, t) == k * step + lane;
  }

  /**
   * The arithmetic of a step inside a group: a row and the row of the last reload before it
   * fall in the same group.
   */
  lemma NarrowCore(k: nat, step: Pos, per: Pos, lane: nat, base: nat)
    requires lane < step && base <= lane
    ensures k % per <= k && (k - k % per) % per == 0
    ensures (k * step + lane) / (per * step) == k / per
    ensures ((k - k % per) * step + base) / (per * step) == k / per
  {
    var g: Pos := per * step;
    var q, r := k / per, k % per;
    DivMod(k, per);
    MulMono(0, q, per);
    DivOfOffset(q, per, 0);
    StepSplit(k, step, per, q, r);
    MulMono(r + 1, per, step);
    assert (r + 1) * step == r * step + step;
    DivOfOffset(q, g, r * step + lane);
    StepSplit(k - r, step, per, q, 0);
    MulMono(1, per, step);
    DivOfOffset(q, g, base);
  }

  // ---------------------------------------------------------------- zero points

  /** shifter_tiled: the shift for local column j of a tile. */
  function TiledShift(j: nat): (s: bv32)
    ensures s <= 28
  {
    ShiftsCoverWord();
    AwqShifter()[j % 8]
  }

  /**
   * The zero point the kernel uses for local column j of tile pidN: the word of column
   * rn // pack_factor in the group's row of qzeros, shifted by shifter_tiled[j].
   */
  function KernelZero(zrow: seq<bv32>, c: Config, pidN: nat, j: nat): (z: Nibble)
    requires (pidN * c.blockN + j) / 8 < |zrow|
    ensures z == UnpackWord(zrow[(pidN * c.blockN + j) / 8])[j % 8]
  {
    UnpackWordAt(zrow[(pidN * c.blockN + j) / 8], j % 8);
    Unpack(zrow[(pidN * c.blockN + j) / 8], TiledShift(j))
  }

  /** A row of qzeros holding the zero points `zs`, eight to a word in the shifter's order. */
  ghost predicate PackedRow(zrow: seq<bv32>, zs: seq<Nibble>)
  {
    |zs| == 8 * |zrow| && forall p :: 0 <= p < |zrow| ==> zrow[p] == PackWord(zs[8 * p..8 * p + 8])
  }

  /**
   * With BLOCK_N a multiple of the pack factor, the kernel dequantizes every output column
   * with that column's own zero point.
   */
  lemma KernelZeroIsColumnZero(zrow: seq<bv32>, zs: seq<Nibble>, c: Config, pidN: nat, j: nat)
    requires PackedRow(zrow, zs) && c.blockN % 8 == 0
    requires pidN * c.blockN + j < |zs|
    ensures (pidN * c.blockN + j) / 8 < |zrow|
    ensures KernelZero(zrow, c, pidN, j) == zs[pidN * c.blockN + j]
  {
    var col := pidN * c.blockN + j;
    TileColumnLane(pidN, c.blockN, j);
    PackedRowAt(zrow, zs, col);
    UnpackWordAt(zrow[col / 8], col % 8);
  }

  /** A tile of BLOCK_N columns starts at a word boundary, so a column keeps its lane. */
  lemma TileColumnLane(pidN: nat, blockN: Pos, j: nat)
    requires blockN % 8 == 0
    ensures (pidN * blockN + j) % 8 == j % 8
  {
    MulDivisible(pidN, blockN, 8);
    var base := pidN * blockN;
    DivMod(base, 8);
    DivMod(j, 8);
    assert pidN * blockN + j == (base / 8 + j / 8) * 8 + j % 8;
    DivOfOffset(base / 8 + j / 8, 8, j % 8);
  }

  /** Column col of a packed row is field col % 8 of word col / 8. */
  lemma PackedRowAt(zrow: seq<bv32>, zs: seq<Nibble>, col: nat)
    requires PackedRow(zrow, zs) && col < |zs|
    ensures col / 8 < |zrow| && UnpackWord(zrow[col / 8])[col % 8] == zs[col]
  {
    var p := col / 8;
    DivMod(col, 8);
    DivBelow(col, 8, |zrow|);
    var word := zs[8 * p..8 * p + 8];
    UnpackPack(word);
    assert word[col % 8] == zs[col];
  }

  /** Field j of an unpacked word is the word shifted by the shifter's j-th offset. */
  lemma UnpackWordAt(w: bv32, j: nat)
    requires j < 8
    ensures AwqShifter()[j] <= 28 && UnpackWord(w)[j] == Unpack(w, AwqShifter()[j])
  {
    ShiftsCoverWord();
  }

  // ---------------------------------------------------------------- the program grid

  /** The band of GROUP_M tile rows that program pid falls in. */
  function GroupId(pid: nat, gridN: Pos, groupM: Pos): nat
  {
    pid / (groupM * gridN)
  }

  /** The number of tile rows in that band: GROUP_M, except in a shorter last band. */
  function BandRows(pid: nat, gridM: nat, gridN: Pos, groupM: Pos): int
  {
    Min(gridM - GroupId(pid, gridN, groupM) * groupM, groupM)
  }

  function Min(a: int, b: int): int
  {
    if a < b then a else b
  }

  /** The band of a program inside the grid is non-empty and holds the program's offset. */
  lemma BandFacts(pid: nat, gridM: nat, gridN: nat, groupM: Pos)
    requires pid < gridM * gridN
    ensures gridN > 0
    ensures var gid, gs, width := GroupId(pid, gridN, groupM), BandRows(pid, gridM, gridN, groupM), groupM * gridN;
            0 < gs <= groupM && gid * groupM + gs <= gridM
            && pid == gid * width + pid % width && pid % width < gs * gridN
  {
    var width: Pos := groupM * gridN;
    var gid := pid / width;
    var r := pid % width;
    var gs := BandRows(pid, gridM, gridN, groupM);
    DivMod(pid, width);
    assert gid * width == (gid * groupM) * gridN;
    MulMono(0, gid, width);
    MulMonoStrict(gid * groupM, gridM, gridN);
    if gs < groupM {
      assert gs * gridN == gridM * gridN - (gid * groupM) * gridN;
    }
  }

  /**
   * The tile (pid_m, pid_n) that program pid computes: tile rows are taken GROUP_M at a time
   * for L2 reuse, and within a band the program ids run down the rows of each column first.
   */
  function ProgramTile(pid: nat, gridM: nat, gridN: nat, groupM: Pos): (tile: (nat, nat))
    requires pid < gridM * gridN
    ensures tile.0 < gridM && tile.1 < gridN
  {
    BandFacts(pid, gridM, gridN, groupM);
    var gs: Pos := BandRows(pid, gridM, gridN, groupM);
    var r := pid % (groupM * gridN);
    DivBelow(r, gs, gridN);
    (GroupId(pid, gridN, groupM) * groupM + pid % gs, r / gs)
  }

  /** Distinct programs compute distinct tiles. */
  lemma ProgramTileInjective(pid: nat, pid': nat, gridM: nat, gridN: nat, groupM: Pos)
    requires pid < gridM * gridN && pid' < gridM * gridN
    requires ProgramTile(pid, gridM, gridN, groupM) == ProgramTile(pid', gridM, gridN, groupM)
    ensures pid == pid'
  {
    BandFacts(pid, gridM, gridN, groupM);
    BandFacts(pid', gridM, gridN, groupM);
    var gid, gid' := GroupId(pid, gridN, groupM), GroupId(pid', gridN, groupM);
    var gs: Pos, gs': Pos := BandRows(pid, gridM, gridN, groupM), BandRows(pid', gridM, gridN, groupM);
    var o, o' := pid % gs, pid' % gs';
    assert gid * groupM + o == gid' * groupM + o';
    DivOfOffset(gid, groupM, o);
    DivOfOffset(gid', groupM, o');
    var width := groupM * gridN;
    var r, r' := pid % width, pid' % width;
    var m := r / gs;
    assert r' / gs == m;
    DivBounds(r, gs);
    DivBounds(r', gs);
    assert (m + 1) * gs == m * gs + gs;
    ModEqClose(pid, pid', gs);
  }

  /** Every tile of the grid is computed by some program. */
  lemma ProgramTileOnto(gridM: nat, gridN: nat, groupM: Pos, pidM: nat, pidN: nat)
    requires pidM < gridM && pidN < gridN
    ensures exists pid: nat :: pid < gridM * gridN && ProgramTile(pid, gridM, gridN, groupM) == (pidM, pidN)
  {
    var width: Pos := groupM * gridN;
    var gid, o := pidM / groupM, pidM % groupM;
    var base := gid * groupM;
    assert pidM == base + o by {
      DivMod(pidM, groupM);
    }
    var gs: Pos := Min(gridM - base, groupM);
    var start := gid * width;
    var shift: nat := (o - start) % gs;
    var r := pidN * gs + shift;
    var pid := start + r;
    assert pid < gridM * gridN && r < width by {
      OntoBound(gid, groupM, gs, gridM, gridN, pidN, shift);
    }
    assert GroupId(pid, gridN, groupM) == gid && pid % width == r by {
      DivOfOffset(gid, width, r);
    }
    assert r / gs == pidN by {
      DivOfOffset(pidN, gs, shift);
    }
    assert pid % gs == o by {
      OntoResidue(o, start, gs, pidN);
    }
    assert ProgramTile(pid, gridM, gridN, groupM) == (pidM, pidN);
  }

  /** The program chosen for a tile lies inside the grid and inside its band. */
  lemma OntoBound(gid: nat, groupM: Pos, gs: Pos, gridM: nat, gridN: nat, pidN: nat, shift: nat)
    requires gid * groupM + gs <= gridM && gs <= groupM && pidN < gridN && shift < gs
    ensures pidN * gs + shift < groupM * gridN
    ensures gid * (groupM * gridN) + (pidN * gs + shift) < gridM * gridN
  {
    var r := pidN * gs + shift;
    MulMono(pidN + 1, gridN, gs);
    assert (pidN + 1) * gs == pidN * gs + gs;
    assert r < gs * gridN;
    MulMono(gs, groupM, gridN);
    MulMono(gid * groupM + gs, gridM, gridN);
    assert gid * (groupM * gridN) == (gid * groupM) * gridN;
    assert (gid * groupM + gs) * gridN == (gid * groupM) * gridN + gs * gridN;
  }

  /** Offsetting by the right residue gives the wanted remainder. */
  lemma OntoResidue(o: nat, base: nat, gs: Pos, pidN: nat)
    requires o < gs
    ensures (base + (pidN * gs + (o - base) % gs)) % gs == o
  {
    var shift := (o - base) % gs;
    var x := (o - base) / gs;
    assert o - base == x * gs + shift;
    var pid := base + (pidN * gs + shift);
    assert pid == (pidN - x) * gs + o;
    ModOfShift(pid, pidN - x, gs, o);
  }

  /** Adding a multiple of d leaves the remainder alone. */
  lemma ModOfShift(x: nat, m: int, d: Pos, r: nat)
    requires r < d && x == m * d + r
    ensures x % d == r
  {
    DivModUnique(x, d, m, r);
  }

  // ---------------------------------------------------------------- write-back

  /** The value of output cell (r, col) after tile (pidM, pidN) is written back. */
  function StoredCell(prev: real, acc: seq<seq<real>>, c: Config, pidM: nat, pidN: nat, r: nat, col: nat): real
    requires |acc| == c.blockM && forall i :: 0 <= i < |acc| ==> |acc[i]| == c.blockN
  {
    var rowBase, colBase := pidM * c.blockM, pidN * c.blockN;
    if rowBase <= r < rowBase + c.blockM && colBase <= col < colBase + c.blockN then
      var v := acc[r - rowBase][col - colBase];
      if c.splitK == 1 then v else prev + v
    else prev
  }

  /**
   * The masked write-back of a tile into the (M, N) output: the mask `rm < M and rn < N`
   * keeps every write inside the output, stores the accumulator when SPLIT_K is 1 and adds
   * it otherwise, and touches no cell outside the tile.
   */
  method StoreTile(out: array2<real>, acc: seq<seq<real>>, c: Config, pidM: nat, pidN: nat)
    requires |acc| == c.blockM && forall i :: 0 <= i < |acc| ==> |acc[i]| == c.blockN
    modifies out
    ensures forall r, col :: 0 <= r < out.Length0 && 0 <= col < out.Length1 ==>
              out[r, col] == StoredCell(old(out[r, col]), acc, c, pidM, pidN, r, col)
  {
    var m, n := out.Length0, out.Length1;
    var rowBase, colBase := pidM * c.blockM, pidN * c.blockN;
    for i := 0 to c.blockM
      invariant forall r, col :: 0 <= r < m && 0 <= col < n ==>
                  out[r, col] == if r < rowBase + i then StoredCell(old(out[r, col]), acc, c, pidM, pidN, r, col)
                                 else old(out[r, col])
    {
      var rm := rowBase + i;
      for j := 0 to c.blockN
        invariant forall r, col :: 0 <= r < m && 0 <= col < n ==>
                    out[r, col] == if r < rm || (r == rm && col < colBase + j)
                                   then StoredCell(old(out[r, col]), acc, c, pidM, pidN, r, col)
                                   else old(out[r, col])
      {
        var rn := colBase + j;
        if rm < m && rn < n {
          out[rm, rn] := if c.splitK == 1 then acc[i][j] else out[rm, rn] + acc[i][j];
        }
      }
    }
  }

  /** The launch grid's tile counts: cdiv(M, BLOCK_M) by cdiv(N, BLOCK_N). */
  function Grid(m: nat, n: nat, c: Config): (g: (nat, nat))
    ensures g.0 * c.blockM >= m && (m > 0 ==> (g.0 - 1) * c.blockM < m)
    ensures g.1 * c.blockN >= n && (n > 0 ==> (g.1 - 1) * c.blockN < n)
  {
    (CeilDiv(m, c.blockM), CeilDiv(n, c.blockN))
  }

  /**
   * Every cell of the (M, N) output lies in the tile of some program of the launch grid,
   * and of no other (ProgramTileInjective); that program's write-back covers the cell.
   */
  lemma OutputCellCovered(m: nat, n: nat, c: Config, groupM: Pos, r: nat, col: nat)
    requires r < m && col < n
    ensures var (gridM, gridN) := Grid(m, n, c);
            exists pid: nat :: pid < gridM * gridN && ProgramTile(pid, gridM, gridN, groupM) == (r / c.blockM, col / c.blockN)
    ensures var (pidM, pidN) := (r / c.blockM, col / c.blockN);
            pidM * c.blockM <= r < pidM * c.blockM + c.blockM && pidN * c.blockN <= col < pidN * c.blockN + c.blockN
  {
    var (gridM, gridN) := Grid(m, n, c);
    var pidM: nat, pidN: nat := r / c.blockM, col / c.blockN;
    assert pidM * c.blockM <= r < pidM * c.blockM + c.blockM by {
      DivBounds(r, c.blockM);
      assert (pidM + 1) * c.blockM == pidM * c.blockM + c.blockM;
    }
    assert pidN * c.blockN <= col < pidN * c.blockN + c.blockN by {
      DivBounds(col, c.blockN);
      assert (pidN + 1) * c.blockN == pidN * c.blockN + c.blockN;
    }
    assert pidM < gridM by {
      MulMonoStrict(pidM, gridM, c.blockM);
    }
    assert pidN < gridN by {
      MulMonoStrict(pidN, gridN, c.blockN);
    }
    ProgramTileOnto(gridM, gridN, groupM, pidM, pidN);
  }
}
