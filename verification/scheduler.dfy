/**
 * The Scheduler of vllm/core/scheduler.py: three queues of sequence groups (waiting,
 * running, swapped), first-come-first-served prompt admission under the token, sequence and
 * padding budgets, slot reservation with preemption by recomputation or swapping, swap-in
 * and abort.  The block manager is abstract: its state is a value of type S and its
 * operations are the functions of a BlockManagerOps; the priority policy is a function on
 * queues.  Sequence groups are values: a status change replaces the group in its queue.
 */
module Scheduler {
  import opened Wrappers
  import opened Sequences
  import V1 = BlockSpaceManagerV1

  /** The exceptions _schedule can raise. */
  datatype SchedulerError = AssertionError | RuntimeError

  /** The block manager as the scheduler uses it: decisions and updates of its state S. */
  datatype BlockManagerOps<!S> = BlockManagerOps(
    canAllocate: (S, SequenceGroup) -> V1.AllocStatus,
    allocate: (S, SequenceGroup) -> S,
    canAppendSlot: (S, SequenceGroup) -> bool,
    appendSlot: (S, Sequence) -> (S, Option<(nat, nat)>),
    canSwapIn: (S, SequenceGroup) -> bool,
    swapIn: (S, SequenceGroup) -> (S, map<nat, nat>),
    canSwapOut: (S, SequenceGroup) -> bool,
    swapOut: (S, SequenceGroup) -> (S, map<nat, nat>),
    free: (S, Sequence) -> S)

  /** The scheduler configuration; `maxLoras` is None when LoRA is off. */
  datatype SchedulerConfig = SchedulerConfig(maxNumBatchedTokens: nat, maxNumSeqs: nat, maxPaddings: nat,
                                             maxModelLen: nat, maxLoras: Option<nat>)

  /** The request ids of a queue, in order. */
  function ReqIds(q: seq<SequenceGroup>): (r: seq<string>)
    ensures |r| == |q| && forall k :: 0 <= k < |q| ==> r[k] == q[k].requestId
  {
    seq(|q|, k requires 0 <= k < |q| => q[k].requestId)
  }

  lemma ReqIdsAppend(a: seq<SequenceGroup>, b: seq<SequenceGroup>)
    ensures ReqIds(a + b) == ReqIds(a) + ReqIds(b)
  {
  }

  /** The group with every sequence of status `from` set to `to`. */
  function SetStatus(g: SequenceGroup, from: SeqStatus, to: SeqStatus): (r: SequenceGroup)
    ensures r.requestId == g.requestId && r.loraIntId == g.loraIntId && r.maxNumRunningSeqs == g.maxNumRunningSeqs
    ensures |r.seqs| == |g.seqs|
    ensures forall k :: 0 <= k < |g.seqs| ==>
      r.seqs[k] == if g.seqs[k].status == from then g.seqs[k].(status := to) else g.seqs[k]
  {
    g.MapStatus(st => if st == from then to else st)
  }

  /** The reverse of a list. */
  function Reverse<T>(s: seq<T>): (r: seq<T>)
    ensures |r| == |s| && forall k :: 0 <= k < |s| ==> r[k] == s[|s| - 1 - k]
  {
    if s == [] then [] else Reverse(s[1..]) + [s[0]]
  }

  /** deque.extendleft: each item is put at the front in turn, so they end up reversed. */
  function ExtendLeft<T>(q: seq<T>, items: seq<T>): (r: seq<T>)
    decreases |items|
  {
    if items == [] then q else ExtendLeft([items[0]] + q, items[1..])
  }

  /** extendleft puts the items at the front in reverse order. */
  lemma {:induction false} ExtendLeftReverses<T>(q: seq<T>, items: seq<T>)
    ensures ExtendLeft(q, items) == Reverse(items) + q
    decreases |items|
  {
    if items != [] {
      ExtendLeftReverses([items[0]] + q, items[1..]);
      assert Reverse(items) == Reverse(items[1..]) + [items[0]];
    }
  }

  /** Sum of a list of numbers. */
  function Sum(s: seq<nat>): nat
  {
    if s == [] then 0 else Sum(s[..|s| - 1]) + s[|s| - 1]
  }

  /** The largest of a list of numbers, 0 for none. */
  function Max(s: seq<nat>): (r: nat)
    ensures forall k :: 0 <= k < |s| ==> s[k] <= r
    ensures s != [] ==> r in s
  {
    if s == [] then 0
    else
      var m := Max(s[..|s| - 1]);
      assert forall k :: 0 <= k < |s| - 1 ==> s[k] == s[..|s| - 1][k];
      if m < s[|s| - 1] then s[|s| - 1] else m
  }

  /** Padding never goes negative: a batch of equal-width rows holds at least the prompts. */
  lemma {:induction false} SumAtMostWidth(s: seq<nat>)
    ensures Sum(s) <= |s| * Max(s)
    decreases |s|
  {
    if s != [] {
      var init := s[..|s| - 1];
      var m := Max(s);
      SumAtMostWidth(init);
      assert Max(init) <= m;
      MulMono(|init|, Max(init), m);
      assert s[|s| - 1] <= m;
      MulSucc(|init|, m);
    }
  }

  lemma MulSucc(a: nat, m: nat)
    ensures (a + 1) * m == a * m + m
  {
  }

  lemma MulMono(a: nat, b: nat, c: nat)
    requires b <= c
    ensures a * b <= a * c
  {
  }

  /** get_max_num_running_seqs summed over a queue. */
  function SumMaxRunning(q: seq<SequenceGroup>): nat
  {
    if q == [] then 0 else SumMaxRunning(q[..|q| - 1]) + q[|q| - 1].maxNumRunningSeqs
  }

  /** num_seqs(RUNNING) summed over a queue. */
  function NumRunningSeqs(q: seq<SequenceGroup>): nat
  {
    if q == [] then 0 else NumRunningSeqs(q[..|q| - 1]) + q[|q| - 1].NumSeqs(RUNNING)
  }

  /** The LoRA ids of a queue, or none when LoRA is off. */
  function LorasOf(cfg: SchedulerConfig, q: seq<SequenceGroup>): (r: set<int>)
    ensures cfg.maxLoras.Some? ==> forall k :: 0 <= k < |q| ==> q[k].loraIntId in r
  {
    if cfg.maxLoras.None? then {} else set k | 0 <= k < |q| :: q[k].loraIntId
  }

  /** A group that would bring in one LoRA more than max_loras waits. */
  predicate LoraBlocked(cfg: SchedulerConfig, currLoras: set<int>, g: SequenceGroup)
  {
    cfg.maxLoras.Some? && g.loraIntId > 0 && g.loraIntId !in currLoras && |currLoras| >= cfg.maxLoras.value
  }

  /** The LoRA ids once `g` is scheduled. */
  function AddLora(cfg: SchedulerConfig, currLoras: set<int>, g: SequenceGroup): (r: set<int>)
    ensures !LoraBlocked(cfg, currLoras, g) && cfg.maxLoras.Some? && |currLoras| <= cfg.maxLoras.value ==>
      |r| <= cfg.maxLoras.value
  {
    if cfg.maxLoras.Some? && g.loraIntId > 0 then currLoras + {g.loraIntId} else currLoras
  }

  /** blocks_to_copy after a copy-on-write from `src` to `dst`: dst goes at the end of src's list. */
  function AddCopy(copies: map<nat, seq<nat>>, src: nat, dst: nat): (r: map<nat, seq<nat>>)
    ensures r.Keys == copies.Keys + {src}
    ensures r[src] == (if src in copies then copies[src] else []) + [dst]
    ensures forall s :: s in copies && s != src ==> r[s] == copies[s]
  {
    copies[src := (if src in copies then copies[src] else []) + [dst]]
  }

  /** Each recorded copy stays recorded: the list of every source only grows at its end. */
  predicate CopiesGrow(copies: map<nat, seq<nat>>, copies': map<nat, seq<nat>>)
  {
    copies.Keys <= copies'.Keys && forall s :: s in copies ==> copies[s] <= copies'[s]
  }

  /** _append_slot for the sequences `seqs`: the block manager's state and blocks_to_copy after it. */
  function AppendSlots<S>(ops: BlockManagerOps<S>, bm: S, seqs: seq<Sequence>, copies: map<nat, seq<nat>>)
    : (r: (S, map<nat, seq<nat>>))
    ensures CopiesGrow(copies, r.1)
    decreases |seqs|
  {
    if seqs == [] then (bm, copies)
    else
      var (bm1, ret) := ops.appendSlot(bm, seqs[0]);
      var copies1 := if ret.Some? then AddCopy(copies, ret.value.0, ret.value.1) else copies;
      var r := AppendSlots(ops, bm1, seqs[1..], copies1);
      assert CopiesGrow(copies, copies1);
      r
  }

  /** _append_slot: each running sequence gets a slot, and each copy-on-write is recorded. */
  method AppendSlotsLoop<S>(ops: BlockManagerOps<S>, bm0: S, seqs: seq<Sequence>, copies0: map<nat, seq<nat>>)
    returns (bm: S, copies: map<nat, seq<nat>>)
    ensures (bm, copies) == AppendSlots(ops, bm0, seqs, copies0)
  {
    bm, copies := bm0, copies0;
    var j := 0;
    while j < |seqs|
      invariant 0 <= j <= |seqs|
      invariant AppendSlots(ops, bm, seqs[j..], copies) == AppendSlots(ops, bm0, seqs, copies0)
    {
      var out := ops.appendSlot(bm, seqs[j]);
      var ret := out.1;
      bm := out.0;
      if ret.Some? {
        var (src, dst) := ret.value;
        copies := AddCopy(copies, src, dst);
      }
      assert seqs[j..][1..] == seqs[j + 1..];
      j := j + 1;
    }
  }

  /** `xs` is a merge of `a`, `b` and `c`: each of them in its order, every element of xs in one of them. */
  predicate Interleaves<T(==)>(xs: seq<T>, a: seq<T>, b: seq<T>, c: seq<T>)
    decreases |xs|
  {
    if xs == [] then a == [] && b == [] && c == []
    else
      (a != [] && a[0] == xs[0] && Interleaves(xs[1..], a[1..], b, c)) ||
      (b != [] && b[0] == xs[0] && Interleaves(xs[1..], a, b[1..], c)) ||
      (c != [] && c[0] == xs[0] && Interleaves(xs[1..], a, b, c[1..]))
  }

  /** A merge loses nothing and adds nothing. */
  lemma {:induction false} InterleavesCount<T>(xs: seq<T>, a: seq<T>, b: seq<T>, c: seq<T>)
    requires Interleaves(xs, a, b, c)
    ensures multiset(xs) == multiset(a) + multiset(b) + multiset(c)
    decreases |xs|
  {
    if xs != [] {
      assert xs == [xs[0]] + xs[1..];
      if a != [] && a[0] == xs[0] && Interleaves(xs[1..], a[1..], b, c) {
        InterleavesCount(xs[1..], a[1..], b, c);
        assert a == [a[0]] + a[1..];
      } else if b != [] && b[0] == xs[0] && Interleaves(xs[1..], a, b[1..], c) {
        InterleavesCount(xs[1..], a, b[1..], c);
        assert b == [b[0]] + b[1..];
      } else {
        InterleavesCount(xs[1..], a, b, c[1..]);
        assert c == [c[0]] + c[1..];
      }
    }
  }

  /** What one iteration of an admission loop does: go on from a new state, stop, or raise. */
  datatype Step<T> = Next(state: T) | Stop | Fail(error: SchedulerError)

  /** The state of the prompt admission loop of _schedule. */
  datatype PromptRun<S> = PromptRun(waiting: seq<SequenceGroup>, running: seq<SequenceGroup>, bm: S,
                                    seqLens: seq<nat>, numCurrSeqs: nat, currLoras: set<int>,
                                    scheduled: seq<SequenceGroup>, ignored: seq<SequenceGroup>,
                                    leftover: seq<SequenceGroup>)

  /** prompt_limit: min(max_model_len, max_num_batched_tokens). */
  function PromptLimit(cfg: SchedulerConfig): (r: nat)
    ensures r <= cfg.maxModelLen && r <= cfg.maxNumBatchedTokens
    ensures r == cfg.maxModelLen || r == cfg.maxNumBatchedTokens
  {
    if cfg.maxModelLen < cfg.maxNumBatchedTokens then cfg.maxModelLen else cfg.maxNumBatchedTokens
  }

  /** The tokens of a prompt batch padded to its longest prompt: len(seq_lens) * max(seq_lens), 0 for none. */
  function PaddedTokens(lens: seq<nat>): nat
  {
    MulNat(|lens|, Max(lens))
  }

  function MulNat(a: nat, b: nat): nat
  {
    a * b
  }

  /** A prompt batch of these lengths, padded to the longest, fits the token and padding budgets. */
  predicate WithinBudgets(cfg: SchedulerConfig, lens: seq<nat>)
  {
    |lens| * Max(lens) <= cfg.maxNumBatchedTokens && |lens| * Max(lens) - Sum(lens) <= cfg.maxPaddings
  }

  /** The front waiting group is ignored: its waiting sequence finishes as FINISHED_IGNORED. */
  function IgnoreFront<S>(r: PromptRun<S>): PromptRun<S>
    requires r.waiting != []
  {
    r.(waiting := r.waiting[1..], ignored := r.ignored + [SetStatus(r.waiting[0], WAITING, FINISHED_IGNORED)])
  }

  /**
   * One iteration of the prompt loop on the front waiting group: more than one waiting
   * sequence is an assertion failure; a prompt over the limit or one the block manager can
   * NEVER hold is ignored; LATER stops; a group needing a LoRA slot that is not there is set
   * aside; a group breaking the token, sequence or padding budget stops; otherwise it is
   * allocated, its sequence runs, and it joins running and the scheduled groups.
   */
  function PromptStep<S>(cfg: SchedulerConfig, ops: BlockManagerOps<S>, r: PromptRun<S>): (step: Step<PromptRun<S>>)
    requires r.waiting != []
    ensures step.Next? ==> step.state.waiting == r.waiting[1..]
  {
    var g := r.waiting[0];
    var ws := g.GetSeqs(WAITING);
    if |ws| != 1 then Fail(AssertionError)
    else
      var numPromptTokens := ws[0].GetLen();
      if numPromptTokens > PromptLimit(cfg) then Next(IgnoreFront(r))
      else
        var canAllocate := ops.canAllocate(r.bm, g);
        if canAllocate == V1.LATER then Stop
        else if canAllocate == V1.NEVER then Next(IgnoreFront(r))
        else if LoraBlocked(cfg, r.currLoras, g) then
          Next(r.(waiting := r.waiting[1..], leftover := [g] + r.leftover))
        else
          var newSeqLens := r.seqLens + [numPromptTokens];
          var numBatchedTokens := |newSeqLens| * Max(newSeqLens);
          if numBatchedTokens > cfg.maxNumBatchedTokens then Stop
          else if r.numCurrSeqs + g.maxNumRunningSeqs > cfg.maxNumSeqs then Stop
          else if numBatchedTokens - Sum(newSeqLens) > cfg.maxPaddings then Stop
          else
            var admitted := SetStatus(g, WAITING, RUNNING);
            Next(r.(waiting := r.waiting[1..], running := r.running + [admitted], bm := ops.allocate(r.bm, g),
                    seqLens := newSeqLens, numCurrSeqs := r.numCurrSeqs + g.maxNumRunningSeqs,
                    currLoras := AddLora(cfg, r.currLoras, g), scheduled := r.scheduled + [admitted]))
  }

  /** The prompt loop run until the waiting queue is empty, it stops, or it raises. */
  function PromptLoop<S>(cfg: SchedulerConfig, ops: BlockManagerOps<S>, r: PromptRun<S>)
    : (res: Result<PromptRun<S>, SchedulerError>)
    ensures res.Ok? ==> |res.value.waiting| <= |r.waiting|
    decreases |r.waiting|
  {
    if r.waiting == [] then Ok(r)
    else
      match PromptStep(cfg, ops, r)
      case Next(r') => PromptLoop(cfg, ops, r')
      case Stop => Ok(r)
      case Fail(e) => Err(e)
  }

  /** The `while self.waiting` loop of _schedule. */
  method RunPrompts<S>(cfg: SchedulerConfig, ops: BlockManagerOps<S>, r0: PromptRun<S>)
    returns (res: Result<PromptRun<S>, SchedulerError>)
    ensures res == PromptLoop(cfg, ops, r0)
  {
    var r := r0;
    while r.waiting != []
      invariant PromptLoop(cfg, ops, r) == PromptLoop(cfg, ops, r0)
      decreases |r.waiting|
    {
      var step := PromptStep(cfg, ops, r);
      match step
      case Stop =>
        return Ok(r);
      case Fail(e) =>
        return Err(e);
      case Next(r') =>
        r := r';
    }
    return Ok(r);
  }

  /**
   * What one iteration of the prompt loop means: a failure is a group without exactly one
   * waiting sequence; an ignored group had a prompt over the limit or one that can NEVER be
   * allocated; an admitted group was OK to allocate and keeps the batch within all three
   * budgets; a stop is a LATER answer or a broken budget; the front group goes to exactly
   * one of the scheduled, ignored and set-aside lists.
   */
  lemma PromptStepMeaning<S>(cfg: SchedulerConfig, ops: BlockManagerOps<S>, r: PromptRun<S>)
    requires r.waiting != []
    ensures var g := r.waiting[0];
      match PromptStep(cfg, ops, r)
      case Fail(e) => e == AssertionError && g.NumSeqs(WAITING) != 1
      case Stop =>
        g.NumSeqs(WAITING) == 1 &&
        var n := g.GetSeqs(WAITING)[0].GetLen();
        n <= PromptLimit(cfg) &&
        (ops.canAllocate(r.bm, g) == V1.LATER ||
         (ops.canAllocate(r.bm, g) == V1.OK && !LoraBlocked(cfg, r.currLoras, g) &&
          (!WithinBudgets(cfg, r.seqLens + [n]) || r.numCurrSeqs + g.maxNumRunningSeqs > cfg.maxNumSeqs)))
      case Next(r') =>
        g.NumSeqs(WAITING) == 1 &&
        var n := g.GetSeqs(WAITING)[0].GetLen();
        (r'.ignored == r.ignored + [SetStatus(g, WAITING, FINISHED_IGNORED)] &&
         (n > PromptLimit(cfg) || ops.canAllocate(r.bm, g) == V1.NEVER) &&
         r'.scheduled == r.scheduled && r'.leftover == r.leftover && r'.running == r.running) ||
        (r'.leftover == [g] + r.leftover && LoraBlocked(cfg, r.currLoras, g) &&
         r'.scheduled == r.scheduled && r'.ignored == r.ignored && r'.running == r.running) ||
        (r'.scheduled == r.scheduled + [SetStatus(g, WAITING, RUNNING)] &&
         r'.running == r.running + [SetStatus(g, WAITING, RUNNING)] &&
         ops.canAllocate(r.bm, g) == V1.OK && WithinBudgets(cfg, r'.seqLens) && r'.seqLens == r.seqLens + [n] &&
         r'.numCurrSeqs == r.numCurrSeqs + g.maxNumRunningSeqs <= cfg.maxNumSeqs &&
         r'.ignored == r.ignored && r'.leftover == r.leftover)
  {
  }

  /** The prompt loop keeps the batch within the token and padding budgets and, once it admits anything, the sequence budget. */
  lemma {:induction false} PromptLoopBudgets<S>(cfg: SchedulerConfig, ops: BlockManagerOps<S>, r: PromptRun<S>)
    requires WithinBudgets(cfg, r.seqLens)
    ensures var res := PromptLoop(cfg, ops, r);
      res.Ok? ==>
        WithinBudgets(cfg, res.value.seqLens) &&
        (|res.value.scheduled| > |r.scheduled| ==> res.value.numCurrSeqs <= cfg.maxNumSeqs)
    decreases |r.waiting|
  {
    if r.waiting != [] {
      PromptStepMeaning(cfg, ops, r);
      var step := PromptStep(cfg, ops, r);
      if step.Next? {
        var r' := step.state;
        PromptLoopBudgets(cfg, ops, r');
        PromptLoopGrows(cfg, ops, r');
      }
    }
  }

  /** From `r` to `res` the prompt loop only pops waiting groups and appends to the lists it fills. */
  predicate PromptGrown<S>(r: PromptRun<S>, res: PromptRun<S>)
  {
    r.scheduled <= res.scheduled && r.ignored <= res.ignored &&
    r.running + res.scheduled[|r.scheduled|..] == res.running &&
    |r.leftover| <= |res.leftover| && res.leftover[|res.leftover| - |r.leftover|..] == r.leftover &&
    (|res.scheduled| == |r.scheduled| ==> res.numCurrSeqs == r.numCurrSeqs) &&
    r.numCurrSeqs <= res.numCurrSeqs &&
    |res.waiting| <= |r.waiting| && res.waiting == r.waiting[|r.waiting| - |res.waiting|..]
  }

  lemma PromptGrownStep<S>(cfg: SchedulerConfig, ops: BlockManagerOps<S>, r: PromptRun<S>, r': PromptRun<S>)
    requires r.waiting != [] && PromptStep(cfg, ops, r) == Next(r')
    ensures PromptGrown(r, r')
  {
    PromptStepMeaning(cfg, ops, r);
    assert r'.waiting == r.waiting[1..];
    if |r'.leftover| > |r.leftover| {
      assert r'.leftover[|r'.leftover| - |r.leftover|..] == r'.leftover[1..];
    }
  }

  lemma PromptGrownTrans<S>(r: PromptRun<S>, r': PromptRun<S>, res: PromptRun<S>)
    requires PromptGrown(r, r') && PromptGrown(r', res)
    ensures PromptGrown(r, res)
  {
    assert res.scheduled[|r.scheduled|..] == r'.scheduled[|r.scheduled|..] + res.scheduled[|r'.scheduled|..];
    assert res.leftover[|res.leftover| - |r.leftover|..] == res.leftover[|res.leftover| - |r'.leftover|..][|r'.leftover| - |r.leftover|..];
    assert res.waiting == r.waiting[|r.waiting| - |r'.waiting|..][|r'.waiting| - |res.waiting|..];
  }

  /** The lists the prompt loop fills only grow, and the sequence count with them. */
  lemma {:induction false} PromptLoopGrows<S>(cfg: SchedulerConfig, ops: BlockManagerOps<S>, r: PromptRun<S>)
    ensures PromptLoop(cfg, ops, r).Ok? ==> PromptGrown(r, PromptLoop(cfg, ops, r).value)
    decreases |r.waiting|
  {
    if r.waiting != [] {
      var step := PromptStep(cfg, ops, r);
      if step.Next? {
        var r' := step.state;
        PromptLoopGrows(cfg, ops, r');
        var res := PromptLoop(cfg, ops, r');
        assert PromptLoop(cfg, ops, r) == res;
        if res.Ok? {
          PromptGrownStep(cfg, ops, r, r');
          PromptGrownTrans(r, r', res.value);
        }
      } else {
        assert r.scheduled[|r.scheduled|..] == [];
      }
    } else {
      assert r.scheduled[|r.scheduled|..] == [];
    }
  }

  /**
   * First come, first served: the groups the prompt loop took off the front of the waiting
   * queue, in order, are a merge of the newly scheduled, the newly ignored and the newly set
   * aside groups (the last held in reverse, as deque.appendleft builds them).
   */
  predicate PromptFifo<S>(r: PromptRun<S>, res: PromptRun<S>)
  {
    PromptGrown(r, res) &&
    Interleaves(ReqIds(r.waiting[..|r.waiting| - |res.waiting|]),
                ReqIds(res.scheduled[|r.scheduled|..]),
                ReqIds(res.ignored[|r.ignored|..]),
                Reverse(ReqIds(res.leftover[..|res.leftover| - |r.leftover|])))
  }

  lemma PromptFifoAdmit<S>(r: PromptRun<S>, r': PromptRun<S>, res: PromptRun<S>)
    requires r.waiting != [] && r'.waiting == r.waiting[1..]
    requires |r'.scheduled| == |r.scheduled| + 1 && r.scheduled <= r'.scheduled
    requires r'.scheduled[|r.scheduled|].requestId == r.waiting[0].requestId
    requires r'.ignored == r.ignored && r'.leftover == r.leftover
    requires PromptGrown(r, res) && PromptFifo(r', res)
    ensures PromptFifo(r, res)
  {
    var xs := ReqIds(r.waiting[..|r.waiting| - |res.waiting|]);
    var a := ReqIds(res.scheduled[|r.scheduled|..]);
    assert res.scheduled[|r.scheduled|..][1..] == res.scheduled[|r'.scheduled|..];
    assert a[1..] == ReqIds(res.scheduled[|r'.scheduled|..]);
    assert r.waiting[..|r.waiting| - |res.waiting|][1..] == r'.waiting[..|r'.waiting| - |res.waiting|];
    assert xs[1..] == ReqIds(r'.waiting[..|r'.waiting| - |res.waiting|]);
  }

  lemma PromptFifoIgnore<S>(r: PromptRun<S>, r': PromptRun<S>, res: PromptRun<S>)
    requires r.waiting != [] && r'.waiting == r.waiting[1..]
    requires |r'.ignored| == |r.ignored| + 1 && r.ignored <= r'.ignored
    requires r'.ignored[|r.ignored|].requestId == r.waiting[0].requestId
    requires r'.scheduled == r.scheduled && r'.leftover == r.leftover
    requires PromptGrown(r, res) && PromptFifo(r', res)
    ensures PromptFifo(r, res)
  {
    var xs := ReqIds(r.waiting[..|r.waiting| - |res.waiting|]);
    var b := ReqIds(res.ignored[|r.ignored|..]);
    assert res.ignored[|r.ignored|..][1..] == res.ignored[|r'.ignored|..];
    assert b[1..] == ReqIds(res.ignored[|r'.ignored|..]);
    assert r.waiting[..|r.waiting| - |res.waiting|][1..] == r'.waiting[..|r'.waiting| - |res.waiting|];
    assert xs[1..] == ReqIds(r'.waiting[..|r'.waiting| - |res.waiting|]);
  }

  lemma PromptFifoDefer<S>(r: PromptRun<S>, r': PromptRun<S>, res: PromptRun<S>)
    requires r.waiting != [] && r'.waiting == r.waiting[1..]
    requires r'.leftover == [r.waiting[0]] + r.leftover
    requires r'.scheduled == r.scheduled && r'.ignored == r.ignored
    requires PromptGrown(r, res) && PromptFifo(r', res)
    ensures PromptFifo(r, res)
  {
    var xs := ReqIds(r.waiting[..|r.waiting| - |res.waiting|]);
    var newer := res.leftover[..|res.leftover| - |r'.leftover|];
    assert res.leftover[..|res.leftover| - |r.leftover|] == newer + [r.waiting[0]] by {
      assert res.leftover[|res.leftover| - |r'.leftover|..] == r'.leftover;
    }
    ReqIdsAppend(newer, [r.waiting[0]]);
    assert Reverse(ReqIds(newer + [r.waiting[0]])) == [r.waiting[0].requestId] + Reverse(ReqIds(newer));
    assert r.waiting[..|r.waiting| - |res.waiting|][1..] == r'.waiting[..|r'.waiting| - |res.waiting|];
    assert xs[1..] == ReqIds(r'.waiting[..|r'.waiting| - |res.waiting|]);
  }

  /** The prompt loop serves the waiting queue first come, first served. */
  lemma {:induction false} PromptLoopFifo<S>(cfg: SchedulerConfig, ops: BlockManagerOps<S>, r: PromptRun<S>)
    ensures PromptLoop(cfg, ops, r).Ok? ==> PromptFifo(r, PromptLoop(cfg, ops, r).value)
    decreases |r.waiting|
  {
    PromptLoopGrows(cfg, ops, r);
    if r.waiting != [] {
      var step := PromptStep(cfg, ops, r);
      if step.Next? && PromptLoop(cfg, ops, step.state).Ok? {
        var r' := step.state;
        var res := PromptLoop(cfg, ops, r').value;
        PromptLoopFifo(cfg, ops, r');
        PromptStepMeaning(cfg, ops, r);
        if |r'.scheduled| > |r.scheduled| {
          PromptFifoAdmit(r, r', res);
        } else if |r'.ignored| > |r.ignored| {
          PromptFifoIgnore(r, r', res);
        } else {
          PromptFifoDefer(r, r', res);
        }
      } else {
        assert r.waiting[..0] == [];
      }
    } else {
      assert r.waiting[..0] == [];
    }
  }

  /** When the prompt loop ends with groups still waiting, the front one made it stop. */
  lemma {:induction false} PromptLoopStops<S>(cfg: SchedulerConfig, ops: BlockManagerOps<S>, r: PromptRun<S>)
    ensures var res := PromptLoop(cfg, ops, r);
      res.Ok? && res.value.waiting != [] ==> PromptStep(cfg, ops, res.value) == Stop
    decreases |r.waiting|
  {
    if r.waiting != [] && PromptStep(cfg, ops, r).Next? {
      PromptLoopStops(cfg, ops, PromptStep(cfg, ops, r).state);
    }
  }

  /** The state of the slot reservation loop of _schedule. */
  datatype Reserve<S> = Reserve(todo: seq<SequenceGroup>, done: seq<SequenceGroup>, preempted: seq<SequenceGroup>,
                                waiting: seq<SequenceGroup>, swapped: seq<SequenceGroup>, bm: S,
                                swapOut: map<nat, nat>, copies: map<nat, seq<nat>>)

  /**
   * _preempt of `g`: a group of at most one running sequence is recomputed (its one running
   * sequence goes back to WAITING, its blocks are freed and the group goes to the front of
   * waiting; an assertion failure unless it has exactly one running sequence); any other
   * group is swapped out (RuntimeError when the block manager cannot, else its blocks'
   * mapping joins blocks_to_swap_out, its running sequences become SWAPPED and it goes to the
   * back of swapped).
   */
  function Preempt<S>(ops: BlockManagerOps<S>, st: Reserve<S>, g: SequenceGroup): (r: Result<Reserve<S>, SchedulerError>)
    ensures r.Ok? ==> r.value.todo == st.todo && r.value.done == st.done && r.value.copies == st.copies
  {
    if g.maxNumRunningSeqs == 1 then
      var seqs := g.GetSeqs(RUNNING);
      if |seqs| != 1 then Err(AssertionError)
      else
        var recomputed := SetStatus(g, RUNNING, WAITING);
        Ok(st.(waiting := [recomputed] + st.waiting, bm := ops.free(st.bm, seqs[0].(status := WAITING)),
               preempted := st.preempted + [recomputed]))
    else if !ops.canSwapOut(st.bm, g) then Err(RuntimeError)
    else
      var (bm', mapping) := ops.swapOut(st.bm, g);
      var swappedOut := SetStatus(g, RUNNING, SWAPPED);
      Ok(st.(swapped := st.swapped + [swappedOut], bm := bm', swapOut := st.swapOut + mapping,
             preempted := st.preempted + [swappedOut]))
  }

  /**
   * The inner `while not can_append_slot` loop for the popped group `g`: victims are taken
   * from the back of the remaining queue until `g` can append, and `g` itself is preempted
   * when none is left; a group that can append gets its slots and is kept running.
   */
  function ReserveFor<S>(ops: BlockManagerOps<S>, st: Reserve<S>, g: SequenceGroup): (r: Result<Reserve<S>, SchedulerError>)
    ensures r.Ok? ==> |r.value.todo| <= |st.todo|
    decreases |st.todo|
  {
    if ops.canAppendSlot(st.bm, g) then
      var (bm', copies') := AppendSlots(ops, st.bm, g.GetSeqs(RUNNING), st.copies);
      Ok(st.(bm := bm', copies := copies', done := st.done + [g]))
    else if st.todo != [] then
      var p := Preempt(ops, st.(todo := st.todo[..|st.todo| - 1]), st.todo[|st.todo| - 1]);
      if p.Err? then p else ReserveFor(ops, p.value, g)
    else Preempt(ops, st, g)
  }

  /** The outer `while self.running` loop: each group in turn from the front. */
  function ReserveAll<S>(ops: BlockManagerOps<S>, st: Reserve<S>): (r: Result<Reserve<S>, SchedulerError>)
    ensures r.Ok? ==> r.value.todo == []
    decreases |st.todo|
  {
    if st.todo == [] then Ok(st)
    else
      var p := ReserveFor(ops, st.(todo := st.todo[1..]), st.todo[0]);
      if p.Err? then p else ReserveAll(ops, p.value)
  }

  /** The slot reservation loops of _schedule, with preemption. */
  method RunReserve<S>(ops: BlockManagerOps<S>, st0: Reserve<S>) returns (res: Result<Reserve<S>, SchedulerError>)
    ensures res == ReserveAll(ops, st0)
  {
    var st := st0;
    while st.todo != []
      invariant ReserveAll(ops, st) == ReserveAll(ops, st0)
      decreases |st.todo|
    {
      var g := st.todo[0];
      st := st.(todo := st.todo[1..]);
      ghost var goal := ReserveFor(ops, st, g);
      var preemptedSelf := false;
      while !preemptedSelf && !ops.canAppendSlot(st.bm, g)
        invariant !preemptedSelf ==> ReserveFor(ops, st, g) == goal
        invariant preemptedSelf ==> goal == Ok(st)
        decreases |st.todo|, if preemptedSelf then 0 else 1
      {
        if st.todo != [] {
          var victim := st.todo[|st.todo| - 1];
          var p := Preempt(ops, st.(todo := st.todo[..|st.todo| - 1]), victim);
          if p.Err? {
            return Err(p.error);
          }
          st := p.value;
        } else {
          var p := Preempt(ops, st, g);
          if p.Err? {
            return Err(p.error);
          }
          st := p.value;
          preemptedSelf := true;
        }
      }
      if !preemptedSelf {
        var bm, copies := AppendSlotsLoop(ops, st.bm, g.GetSeqs(RUNNING), st.copies);
        st := st.(bm := bm, copies := copies, done := st.done + [g]);
      }
    }
    return Ok(st);
  }

  /** The groups of a list preempted by recomputation (one running sequence at most), in order. */
  function Recomputed(q: seq<SequenceGroup>): (r: seq<SequenceGroup>)
    ensures forall k :: 0 <= k < |r| ==> r[k].maxNumRunningSeqs == 1
  {
    if q == [] then []
    else Recomputed(q[..|q| - 1]) + (if q[|q| - 1].maxNumRunningSeqs == 1 then [q[|q| - 1]] else [])
  }

  /** The groups of a list preempted by swapping, in order. */
  function SwappedOut(q: seq<SequenceGroup>): (r: seq<SequenceGroup>)
    ensures forall k :: 0 <= k < |r| ==> r[k].maxNumRunningSeqs != 1
  {
    if q == [] then []
    else SwappedOut(q[..|q| - 1]) + (if q[|q| - 1].maxNumRunningSeqs != 1 then [q[|q| - 1]] else [])
  }

  /**
   * The running queue laid out as the reservation loop sees it: the groups kept so far,
   * those still to do, and the preempted ones, most recent first.
   */
  function Layout<S>(st: Reserve<S>): seq<string>
  {
    ReqIds(st.done) + Pending(st)
  }

  /** The groups still to do followed by the preempted ones, most recent first. */
  function Pending<S>(st: Reserve<S>): seq<string>
  {
    ReqIds(st.todo) + Reverse(ReqIds(st.preempted))
  }

  /** Each preempted group went to the front of waiting (recomputed) or the back of swapped. */
  predicate PreemptedFed<S>(st: Reserve<S>, res: Reserve<S>)
  {
    st.preempted <= res.preempted &&
    res.waiting == Reverse(Recomputed(res.preempted[|st.preempted|..])) + st.waiting &&
    res.swapped == st.swapped + SwappedOut(res.preempted[|st.preempted|..])
  }

  /** Kept groups are only added, blocks_to_swap_out changes only by preempting, copies only grow. */
  predicate BookkeepingGrown<S>(st: Reserve<S>, res: Reserve<S>)
  {
    st.done <= res.done &&
    (|res.preempted| == |st.preempted| ==> res.swapOut == st.swapOut) &&
    CopiesGrow(st.copies, res.copies)
  }

  /**
   * From `st` to `res` the reservation loop keeps the layout of the running queue, puts each
   * recomputed group at the front of waiting and each swapped-out one at the back of
   * swapped, touches blocks_to_swap_out only by preempting, and only adds copies.
   */
  predicate ReserveGrown<S>(st: Reserve<S>, res: Reserve<S>)
  {
    Layout(st) == Layout(res) && PreemptedFed(st, res) && BookkeepingGrown(st, res)
  }

  lemma PreemptedFedTrans<S>(a: Reserve<S>, b: Reserve<S>, c: Reserve<S>)
    requires PreemptedFed(a, b) && PreemptedFed(b, c)
    ensures PreemptedFed(a, c)
  {
    var pb := b.preempted[|a.preempted|..];
    var pc := c.preempted[|b.preempted|..];
    SuffixSplit(a.preempted, b.preempted, c.preempted);
    WaitingTrans(a.waiting, b.waiting, c.waiting, pb, pc);
    SwappedTrans(a.swapped, b.swapped, c.swapped, pb, pc);
  }

  /** Two rounds of recomputation preemption put both rounds' groups in front of waiting. */
  lemma WaitingTrans(wa: seq<SequenceGroup>, wb: seq<SequenceGroup>, wc: seq<SequenceGroup>,
                     pb: seq<SequenceGroup>, pc: seq<SequenceGroup>)
    requires wb == Reverse(Recomputed(pb)) + wa && wc == Reverse(Recomputed(pc)) + wb
    ensures wc == Reverse(Recomputed(pb + pc)) + wa
  {
    calc {
      wc;
      (Reverse(Recomputed(pc)) + Reverse(Recomputed(pb))) + wa;
      { ReverseAppend(Recomputed(pb), Recomputed(pc)); }
      Reverse(Recomputed(pb) + Recomputed(pc)) + wa;
      { RecomputedAppend(pb, pc); }
      Reverse(Recomputed(pb + pc)) + wa;
    }
  }

  /** Two rounds of swap preemption put both rounds' groups at the back of swapped. */
  lemma SwappedTrans(sa: seq<SequenceGroup>, sb: seq<SequenceGroup>, sc: seq<SequenceGroup>,
                     pb: seq<SequenceGroup>, pc: seq<SequenceGroup>)
    requires sb == sa + SwappedOut(pb) && sc == sb + SwappedOut(pc)
    ensures sc == sa + SwappedOut(pb + pc)
  {
    calc {
      sc;
      sa + (SwappedOut(pb) + SwappedOut(pc));
      { SwappedOutAppend(pb, pc); }
      sa + SwappedOut(pb + pc);
    }
  }

  /** The part of z beyond a prefix x splits at a middle prefix y. */
  lemma SuffixSplit<T>(x: seq<T>, y: seq<T>, z: seq<T>)
    requires x <= y <= z
    ensures z[|x|..] == y[|x|..] + z[|y|..]
  {
  }

  lemma BookkeepingGrownTrans<S>(a: Reserve<S>, b: Reserve<S>, c: Reserve<S>)
    requires a.preempted <= b.preempted <= c.preempted
    requires BookkeepingGrown(a, b) && BookkeepingGrown(b, c)
    ensures BookkeepingGrown(a, c)
  {
  }

  lemma ReserveGrownTrans<S>(a: Reserve<S>, b: Reserve<S>, c: Reserve<S>)
    requires ReserveGrown(a, b) && ReserveGrown(b, c)
    ensures ReserveGrown(a, c)
  {
    PreemptedFedTrans(a, b, c);
    BookkeepingGrownTrans(a, b, c);
  }

  lemma {:induction false} RecomputedAppend(a: seq<SequenceGroup>, b: seq<SequenceGroup>)
    ensures Recomputed(a + b) == Recomputed(a) + Recomputed(b)
    decreases |b|
  {
    if b != [] {
      var b' := b[..|b| - 1];
      assert (a + b)[..|a + b| - 1] == a + b';
      RecomputedAppend(a, b');
    } else {
      assert a + b == a;
    }
  }

  lemma {:induction false} SwappedOutAppend(a: seq<SequenceGroup>, b: seq<SequenceGroup>)
    ensures SwappedOut(a + b) == SwappedOut(a) + SwappedOut(b)
    decreases |b|
  {
    if b != [] {
      var b' := b[..|b| - 1];
      assert (a + b)[..|a + b| - 1] == a + b';
      SwappedOutAppend(a, b');
    } else {
      assert a + b == a;
    }
  }

  lemma ReverseAppend<T>(a: seq<T>, b: seq<T>)
    ensures Reverse(a + b) == Reverse(b) + Reverse(a)
  {
  }

  /** Preempting a group laid out after the remaining ones keeps the layout. */
  lemma PreemptGrown<S>(ops: BlockManagerOps<S>, st: Reserve<S>, g: SequenceGroup)
    requires Preempt(ops, st, g).Ok?
    ensures ReserveGrown(st.(todo := st.todo + [g]), Preempt(ops, st, g).value)
  {
    var res := Preempt(ops, st, g).value;
    if g.maxNumRunningSeqs == 1 {
      var h := SetStatus(g, RUNNING, WAITING);
      assert res == st.(waiting := [h] + st.waiting, bm := res.bm, preempted := st.preempted + [h]);
      RecomputeGrown(st, res, g, h);
    } else {
      var h := SetStatus(g, RUNNING, SWAPPED);
      assert res == st.(swapped := st.swapped + [h], bm := res.bm, swapOut := res.swapOut, preempted := st.preempted + [h]);
      SwapOutGrown(st, res, g, h);
    }
  }

  lemma RecomputeGrown<S>(st: Reserve<S>, res: Reserve<S>, g: SequenceGroup, h: SequenceGroup)
    requires h.requestId == g.requestId && h.maxNumRunningSeqs == 1
    requires res == st.(waiting := [h] + st.waiting, bm := res.bm, preempted := st.preempted + [h])
    ensures ReserveGrown(st.(todo := st.todo + [g]), res)
  {
    PreemptLayout(st, res, g, [h]);
    assert res.preempted[|st.preempted|..] == [h];
    assert Recomputed([h]) == Recomputed([][..0]) + [h];
    assert SwappedOut([h]) == SwappedOut([][..0]);
  }

  lemma SwapOutGrown<S>(st: Reserve<S>, res: Reserve<S>, g: SequenceGroup, h: SequenceGroup)
    requires h.requestId == g.requestId && h.maxNumRunningSeqs != 1
    requires res == st.(swapped := st.swapped + [h], bm := res.bm, swapOut := res.swapOut, preempted := st.preempted + [h])
    ensures ReserveGrown(st.(todo := st.todo + [g]), res)
  {
    PreemptLayout(st, res, g, [h]);
    assert res.preempted[|st.preempted|..] == [h];
    assert Recomputed([h]) == Recomputed([][..0]);
    assert SwappedOut([h]) == SwappedOut([][..0]) + [h];
  }

  lemma PreemptLayout<S>(st: Reserve<S>, res: Reserve<S>, g: SequenceGroup, p: seq<SequenceGroup>)
    requires res.todo == st.todo && res.done == st.done && res.preempted == st.preempted + p
    requires |p| == 1 && p[0].requestId == g.requestId
    ensures Layout(st.(todo := st.todo + [g])) == Layout(res)
  {
    ReqIdsAppend(st.todo, [g]);
    ReqIdsAppend(st.preempted, p);
    ReverseAppend(ReqIds(st.preempted), ReqIds(p));
  }

  /** Putting the same group back in front of both states keeps their relation. */
  lemma PrependGrown<S>(a: Reserve<S>, b: Reserve<S>, g: SequenceGroup)
    requires ReserveGrown(a, b) && a.done == b.done
    ensures ReserveGrown(a.(todo := [g] + a.todo), b.(todo := [g] + b.todo))
  {
    var d := ReqIds(a.done);
    assert Pending(a) == Layout(a)[|d|..] == Layout(b)[|d|..] == Pending(b);
    ReqIdsAppend([g], a.todo);
    ReqIdsAppend([g], b.todo);
    assert Pending(a.(todo := [g] + a.todo)) == [g.requestId] + Pending(a);
    assert Pending(b.(todo := [g] + b.todo)) == [g.requestId] + Pending(b);
  }

  /** A group that can append is kept, after the groups kept before it. */
  lemma KeepGrown<S>(st: Reserve<S>, res: Reserve<S>, g: SequenceGroup)
    requires res == st.(bm := res.bm, copies := res.copies, done := st.done + [g])
    requires CopiesGrow(st.copies, res.copies)
    ensures ReserveGrown(st.(todo := [g] + st.todo), res)
  {
    ReqIdsAppend(st.done, [g]);
    ReqIdsAppend([g], st.todo);
    assert res.preempted[|st.preempted|..] == [];
  }

  /** The inner loop keeps the layout with the popped group put back in front. */
  lemma {:induction false} ReserveForGrown<S>(ops: BlockManagerOps<S>, st: Reserve<S>, g: SequenceGroup)
    requires ReserveFor(ops, st, g).Ok?
    ensures ReserveGrown(st.(todo := [g] + st.todo), ReserveFor(ops, st, g).value)
    decreases |st.todo|
  {
    if ops.canAppendSlot(st.bm, g) {
      KeepBranchGrown(ops, st, g);
    } else if st.todo != [] {
      var rest := st.(todo := st.todo[..|st.todo| - 1]);
      var victim := st.todo[|st.todo| - 1];
      PreemptGrown(ops, rest, victim);
      ReserveForGrown(ops, Preempt(ops, rest, victim).value, g);
      VictimBranchGrown(ops, st, g);
    } else {
      SelfBranchGrown(ops, st, g);
    }
  }

  /** The inner loop's branch with nothing left to preempt: the group preempts itself. */
  lemma SelfBranchGrown<S>(ops: BlockManagerOps<S>, st: Reserve<S>, g: SequenceGroup)
    requires !ops.canAppendSlot(st.bm, g) && st.todo == []
    requires ReserveFor(ops, st, g).Ok?
    ensures ReserveGrown(st.(todo := [g] + st.todo), ReserveFor(ops, st, g).value)
  {
    PreemptGrown(ops, st, g);
    assert st.(todo := st.todo + [g]) == st.(todo := [g] + st.todo);
  }

  /** The inner loop's branch where the group can append: it is kept. */
  lemma KeepBranchGrown<S>(ops: BlockManagerOps<S>, st: Reserve<S>, g: SequenceGroup)
    requires ops.canAppendSlot(st.bm, g)
    ensures ReserveFor(ops, st, g).Ok?
    ensures ReserveGrown(st.(todo := [g] + st.todo), ReserveFor(ops, st, g).value)
  {
    KeepGrown(st, ReserveFor(ops, st, g).value, g);
  }

  /** The inner loop's branch that preempts the last group and carries on. */
  lemma VictimBranchGrown<S>(ops: BlockManagerOps<S>, st: Reserve<S>, g: SequenceGroup)
    requires !ops.canAppendSlot(st.bm, g) && st.todo != []
    requires ReserveFor(ops, st, g).Ok?
    requires var rest := st.(todo := st.todo[..|st.todo| - 1]);
             var victim := st.todo[|st.todo| - 1];
             Preempt(ops, rest, victim).Ok? &&
             ReserveGrown(rest.(todo := rest.todo + [victim]), Preempt(ops, rest, victim).value) &&
             var p := Preempt(ops, rest, victim).value;
             ReserveGrown(p.(todo := [g] + p.todo), ReserveFor(ops, p, g).value)
    ensures ReserveGrown(st.(todo := [g] + st.todo), ReserveFor(ops, st, g).value)
  {
    var rest := st.(todo := st.todo[..|st.todo| - 1]);
    var victim := st.todo[|st.todo| - 1];
    var p := Preempt(ops, rest, victim).value;
    var st1 := rest.(todo := rest.todo + [victim]);
    SnocLast(st.todo);
    assert ReserveFor(ops, st, g) == ReserveFor(ops, p, g);
    VictimGrown(st, st1, p, g, ReserveFor(ops, p, g).value);
  }

  lemma SnocLast<T>(s: seq<T>)
    requires s != []
    ensures s[..|s| - 1] + [s[|s| - 1]] == s
  {
  }

  /** One victim preempted, then the rest of the inner loop. */
  lemma VictimGrown<S>(st: Reserve<S>, st1: Reserve<S>, p: Reserve<S>, g: SequenceGroup, res: Reserve<S>)
    requires st1 == st && ReserveGrown(st1, p) && st1.done == p.done
    requires ReserveGrown(p.(todo := [g] + p.todo), res)
    ensures ReserveGrown(st.(todo := [g] + st.todo), res)
  {
    PrependGrown(st, p, g);
    ReserveGrownTrans(st.(todo := [g] + st.todo), p.(todo := [g] + p.todo), res);
  }

  /** The whole reservation loop: kept groups in front, preempted ones taken from the back. */
  lemma {:induction false} ReserveAllGrown<S>(ops: BlockManagerOps<S>, st: Reserve<S>)
    requires ReserveAll(ops, st).Ok?
    ensures ReserveGrown(st, ReserveAll(ops, st).value)
    decreases |st.todo|
  {
    if st.todo == [] {
      ReserveGrownRefl(st);
    } else {
      var popped := st.(todo := st.todo[1..]);
      ReserveAllGrown(ops, ReserveFor(ops, popped, st.todo[0]).value);
      FrontGroupGrown(ops, st);
    }
  }

  /** A state is related to itself. */
  lemma ReserveGrownRefl<S>(st: Reserve<S>)
    ensures ReserveGrown(st, st)
  {
    assert st.preempted[|st.preempted|..] == [];
  }

  /** One outer iteration: the front group's inner loop, then the rest of the outer loop. */
  lemma FrontGroupGrown<S>(ops: BlockManagerOps<S>, st: Reserve<S>)
    requires st.todo != [] && ReserveAll(ops, st).Ok?
    requires var popped := st.(todo := st.todo[1..]);
             ReserveFor(ops, popped, st.todo[0]).Ok? &&
             var p := ReserveFor(ops, popped, st.todo[0]).value;
             ReserveAll(ops, p).Ok? && ReserveGrown(p, ReserveAll(ops, p).value)
    ensures ReserveGrown(st, ReserveAll(ops, st).value)
  {
    var popped := st.(todo := st.todo[1..]);
    var p := ReserveFor(ops, popped, st.todo[0]).value;
    ReserveForGrown(ops, popped, st.todo[0]);
    assert ReserveAll(ops, st) == ReserveAll(ops, p);
    GrownChain(st, p, ReserveAll(ops, p).value);
  }

  /** Putting the front group back, then two related steps, relate the ends. */
  lemma GrownChain<S>(st: Reserve<S>, p: Reserve<S>, fin: Reserve<S>)
    requires st.todo != []
    requires ReserveGrown(st.(todo := st.todo[1..]).(todo := [st.todo[0]] + st.todo[1..]), p)
    requires ReserveGrown(p, fin)
    ensures ReserveGrown(st, fin)
  {
    assert st.(todo := st.todo[1..]).(todo := [st.todo[0]] + st.todo[1..]) == st;
    ReserveGrownTrans(st, p, fin);
  }

  /** The state of the swap-in loop of _schedule. */
  datatype SwapRun<S> = SwapRun(swapped: seq<SequenceGroup>, running: seq<SequenceGroup>, bm: S,
                                numCurrSeqs: nat, currLoras: set<int>, swapIn: map<nat, nat>,
                                copies: map<nat, seq<nat>>, leftover: seq<SequenceGroup>)

  /**
   * One iteration of the swap-in loop on the front swapped group: a group needing a LoRA
   * slot that is not there is set aside; the loop stops when the block manager cannot swap
   * the group in or it would break the sequence budget; otherwise the group is swapped in,
   * its swapped sequences run, they get their slots, and it joins the back of running.
   */
  function SwapInStep<S>(cfg: SchedulerConfig, ops: BlockManagerOps<S>, r: SwapRun<S>): (step: Step<SwapRun<S>>)
    requires r.swapped != []
    ensures !step.Fail?
    ensures step.Next? ==> step.state.swapped == r.swapped[1..]
  {
    var g := r.swapped[0];
    if LoraBlocked(cfg, r.currLoras, g) then
      Next(r.(swapped := r.swapped[1..], leftover := [g] + r.leftover))
    else if !ops.canSwapIn(r.bm, g) then Stop
    else if r.numCurrSeqs + g.maxNumRunningSeqs > cfg.maxNumSeqs then Stop
    else
      var (bm1, mapping) := ops.swapIn(r.bm, g);
      var resumed := SetStatus(g, SWAPPED, RUNNING);
      var (bm2, copies') := AppendSlots(ops, bm1, resumed.GetSeqs(RUNNING), r.copies);
      Next(r.(swapped := r.swapped[1..], running := r.running + [resumed], bm := bm2,
              numCurrSeqs := r.numCurrSeqs + g.maxNumRunningSeqs, currLoras := AddLora(cfg, r.currLoras, g),
              swapIn := r.swapIn + mapping, copies := copies'))
  }

  /** The swap-in loop run until the swapped queue is empty or it stops. */
  function SwapInLoop<S>(cfg: SchedulerConfig, ops: BlockManagerOps<S>, r: SwapRun<S>): (r': SwapRun<S>)
    ensures |r'.swapped| <= |r.swapped| && r'.swapped == r.swapped[|r.swapped| - |r'.swapped|..]
    decreases |r.swapped|
  {
    if r.swapped == [] then r
    else
      match SwapInStep(cfg, ops, r)
      case Next(r') => SwapInLoop(cfg, ops, r')
      case _ => r
  }

  /** The `while self.swapped` loop of _schedule. */
  method RunSwapIn<S>(cfg: SchedulerConfig, ops: BlockManagerOps<S>, r0: SwapRun<S>) returns (r: SwapRun<S>)
    ensures r == SwapInLoop(cfg, ops, r0)
  {
    r := r0;
    while r.swapped != []
      invariant SwapInLoop(cfg, ops, r) == SwapInLoop(cfg, ops, r0)
      decreases |r.swapped|
    {
      var step := SwapInStep(cfg, ops, r);
      if !step.Next? {
        return;
      }
      r := step.state;
    }
  }

  /**
   * What one iteration of the swap-in loop means: a resumed group could be swapped in,
   * needed no missing LoRA slot and keeps the sequence budget, and its slots were appended;
   * a stop is a refusal to swap in or a broken budget; the front group is resumed or set
   * aside, never both.
   */
  lemma SwapInStepMeaning<S>(cfg: SchedulerConfig, ops: BlockManagerOps<S>, r: SwapRun<S>)
    requires r.swapped != []
    ensures var g := r.swapped[0];
      match SwapInStep(cfg, ops, r)
      case Fail(_) => false
      case Stop =>
        !LoraBlocked(cfg, r.currLoras, g) &&
        (!ops.canSwapIn(r.bm, g) || r.numCurrSeqs + g.maxNumRunningSeqs > cfg.maxNumSeqs)
      case Next(r') =>
        (LoraBlocked(cfg, r.currLoras, g) && r'.leftover == [g] + r.leftover && r'.running == r.running &&
         r'.numCurrSeqs == r.numCurrSeqs && r'.swapIn == r.swapIn && r'.copies == r.copies) ||
        (!LoraBlocked(cfg, r.currLoras, g) && ops.canSwapIn(r.bm, g) && r'.leftover == r.leftover &&
         r'.running == r.running + [SetStatus(g, SWAPPED, RUNNING)] &&
         r'.numCurrSeqs == r.numCurrSeqs + g.maxNumRunningSeqs <= cfg.maxNumSeqs &&
         r'.swapIn == r.swapIn + ops.swapIn(r.bm, g).1 && CopiesGrow(r.copies, r'.copies))
  {
  }

  /** The swap-in loop never takes the running sequences past max_num_seqs, nor the LoRAs past max_loras. */
  lemma {:induction false} SwapInLoopBudgets<S>(cfg: SchedulerConfig, ops: BlockManagerOps<S>, r: SwapRun<S>)
    requires r.numCurrSeqs <= cfg.maxNumSeqs
    requires cfg.maxLoras.Some? ==> |r.currLoras| <= cfg.maxLoras.value
    ensures var res := SwapInLoop(cfg, ops, r);
      res.numCurrSeqs <= cfg.maxNumSeqs && (cfg.maxLoras.Some? ==> |res.currLoras| <= cfg.maxLoras.value)
    decreases |r.swapped|
  {
    if r.swapped != [] && SwapInStep(cfg, ops, r).Next? {
      SwapInLoopBudgets(cfg, ops, SwapInStep(cfg, ops, r).state);
    }
  }

  /** From `r` to `res` the swap-in loop only pops swapped groups and appends to running and the set-aside list. */
  predicate SwapGrown<S>(r: SwapRun<S>, res: SwapRun<S>)
  {
    r.running <= res.running &&
    |r.leftover| <= |res.leftover| && res.leftover[|res.leftover| - |r.leftover|..] == r.leftover &&
    |res.swapped| <= |r.swapped| && res.swapped == r.swapped[|r.swapped| - |res.swapped|..] &&
    CopiesGrow(r.copies, res.copies)
  }

  /**
   * First come, first served: the groups the swap-in loop took off the front of swapped, in
   * order, are a merge of the resumed groups and the set-aside ones (held in reverse).
   */
  predicate SwapFifo<S>(r: SwapRun<S>, res: SwapRun<S>)
  {
    SwapGrown(r, res) &&
    Interleaves(ReqIds(r.swapped[..|r.swapped| - |res.swapped|]),
                ReqIds(res.running[|r.running|..]), [],
                Reverse(ReqIds(res.leftover[..|res.leftover| - |r.leftover|])))
  }

  lemma SwapGrownStep<S>(cfg: SchedulerConfig, ops: BlockManagerOps<S>, r: SwapRun<S>, r': SwapRun<S>)
    requires r.swapped != [] && SwapInStep(cfg, ops, r) == Next(r')
    ensures SwapGrown(r, r')
  {
    SwapInStepMeaning(cfg, ops, r);
    if |r'.leftover| > |r.leftover| {
      assert r'.leftover[|r'.leftover| - |r.leftover|..] == r'.leftover[1..];
    }
  }

  lemma SwapGrownTrans<S>(r: SwapRun<S>, r': SwapRun<S>, res: SwapRun<S>)
    requires SwapGrown(r, r') && SwapGrown(r', res)
    ensures SwapGrown(r, res)
  {
    assert res.leftover[|res.leftover| - |r.leftover|..] == res.leftover[|res.leftover| - |r'.leftover|..][|r'.leftover| - |r.leftover|..];
    assert res.swapped == r.swapped[|r.swapped| - |r'.swapped|..][|r'.swapped| - |res.swapped|..];
  }

  lemma SwapFifoResume<S>(r: SwapRun<S>, r': SwapRun<S>, res: SwapRun<S>)
    requires r.swapped != [] && r'.swapped == r.swapped[1..]
    requires |r'.running| == |r.running| + 1 && r.running <= r'.running
    requires r'.running[|r.running|].requestId == r.swapped[0].requestId
    requires r'.leftover == r.leftover
    requires SwapGrown(r, res) && SwapFifo(r', res)
    ensures SwapFifo(r, res)
  {
    var xs := ReqIds(r.swapped[..|r.swapped| - |res.swapped|]);
    var a := ReqIds(res.running[|r.running|..]);
    assert res.running[|r.running|..][1..] == res.running[|r'.running|..];
    assert a[1..] == ReqIds(res.running[|r'.running|..]);
    assert r.swapped[..|r.swapped| - |res.swapped|][1..] == r'.swapped[..|r'.swapped| - |res.swapped|];
    assert xs[1..] == ReqIds(r'.swapped[..|r'.swapped| - |res.swapped|]);
  }

  lemma SwapFifoDefer<S>(r: SwapRun<S>, r': SwapRun<S>, res: SwapRun<S>)
    requires r.swapped != [] && r'.swapped == r.swapped[1..]
    requires r'.leftover == [r.swapped[0]] + r.leftover && r'.running == r.running
    requires SwapGrown(r, res) && SwapFifo(r', res)
    ensures SwapFifo(r, res)
  {
    var xs := ReqIds(r.swapped[..|r.swapped| - |res.swapped|]);
    var newer := res.leftover[..|res.leftover| - |r'.leftover|];
    assert res.leftover[..|res.leftover| - |r.leftover|] == newer + [r.swapped[0]] by {
      assert res.leftover[|res.leftover| - |r'.leftover|..] == r'.leftover;
    }
    ReqIdsAppend(newer, [r.swapped[0]]);
    assert Reverse(ReqIds(newer + [r.swapped[0]])) == [r.swapped[0].requestId] + Reverse(ReqIds(newer));
    assert r.swapped[..|r.swapped| - |res.swapped|][1..] == r'.swapped[..|r'.swapped| - |res.swapped|];
    assert xs[1..] == ReqIds(r'.swapped[..|r'.swapped| - |res.swapped|]);
  }

  /** The swap-in loop serves the swapped queue first come, first served. */
  lemma {:induction false} SwapInLoopFifo<S>(cfg: SchedulerConfig, ops: BlockManagerOps<S>, r: SwapRun<S>)
    ensures SwapFifo(r, SwapInLoop(cfg, ops, r))
    decreases |r.swapped|
  {
    if r.swapped != [] && SwapInStep(cfg, ops, r).Next? {
      var r' := SwapInStep(cfg, ops, r).state;
      SwapInLoopFifo(cfg, ops, r');
      SwapFifoStep(cfg, ops, r, r', SwapInLoop(cfg, ops, r'));
    } else {
      SwapFifoRefl(r);
    }
  }

  lemma SwapFifoStep<S>(cfg: SchedulerConfig, ops: BlockManagerOps<S>, r: SwapRun<S>, r': SwapRun<S>, res: SwapRun<S>)
    requires r.swapped != [] && SwapInStep(cfg, ops, r) == Next(r')
    requires SwapFifo(r', res)
    ensures SwapFifo(r, res)
  {
    SwapGrownStep(cfg, ops, r, r');
    SwapGrownTrans(r, r', res);
    SwapInStepMeaning(cfg, ops, r);
    if |r'.running| > |r.running| {
      SwapFifoResume(r, r', res);
    } else {
      SwapFifoDefer(r, r', res);
    }
  }

  lemma SwapFifoRefl<S>(r: SwapRun<S>)
    ensures SwapFifo(r, r)
  {
    assert r.swapped[..0] == [];
    assert r.running[|r.running|..] == [];
  }

  /** Python's `a <= b` on strings: code point by code point, a proper prefix first. */
  predicate StrLe(a: string, b: string)
  {
    if a == [] then true
    else if b == [] then false
    else if a[0] != b[0] then a[0] < b[0]
    else StrLe(a[1..], b[1..])
  }

  /** Any two strings are ordered one way or the other. */
  lemma {:induction false} StrLeTotal(a: string, b: string)
    ensures StrLe(a, b) || StrLe(b, a)
  {
    if a != [] && b != [] && a[0] == b[0] {
      StrLeTotal(a[1..], b[1..]);
    }
  }

  /** The sort key (lora_int_id, request_id) of SchedulerOutputs, with LoRA id 0 for no LoRA, compared as a tuple. */
  predicate KeyLe(g: SequenceGroup, h: SequenceGroup)
  {
    g.loraIntId < h.loraIntId || (g.loraIntId == h.loraIntId && StrLe(g.requestId, h.requestId))
  }

  predicate SortedByLora(q: seq<SequenceGroup>)
  {
    forall k :: 0 <= k < |q| - 1 ==> KeyLe(q[k], q[k + 1])
  }

  /** `g` put before the first group of `q` it does not sort after. */
  function InsertByLora(g: SequenceGroup, q: seq<SequenceGroup>): (r: seq<SequenceGroup>)
    ensures |r| == |q| + 1 && multiset(r) == multiset(q) + multiset{g}
    ensures r[0] == g || (q != [] && r[0] == q[0])
  {
    if q == [] || KeyLe(g, q[0]) then [g] + q
    else
      assert q == [q[0]] + q[1..];
      [q[0]] + InsertByLora(g, q[1..])
  }

  /** Inserting into a sorted queue keeps it sorted. */
  lemma {:induction false} InsertByLoraSorted(g: SequenceGroup, q: seq<SequenceGroup>)
    requires SortedByLora(q)
    ensures SortedByLora(InsertByLora(g, q))
    decreases |q|
  {
    var r := InsertByLora(g, q);
    if q == [] || KeyLe(g, q[0]) {
      forall k | 0 <= k < |r| - 1
        ensures KeyLe(r[k], r[k + 1])
      {
        if k > 0 {
          assert r[k] == q[k - 1] && r[k + 1] == q[k];
        }
      }
    } else {
      var tail := q[1..];
      var rest := InsertByLora(g, tail);
      StrLeTotal(g.requestId, q[0].requestId);
      assert SortedByLora(tail) by {
        forall k | 0 <= k < |tail| - 1
          ensures KeyLe(tail[k], tail[k + 1])
        {
          assert tail[k] == q[k + 1] && tail[k + 1] == q[k + 2];
        }
      }
      InsertByLoraSorted(g, tail);
      assert KeyLe(q[0], rest[0]) by {
        if rest[0] != g {
          assert rest[0] == q[1];
        }
      }
      assert r == [q[0]] + rest;
      forall k | 0 <= k < |r| - 1
        ensures KeyLe(r[k], r[k + 1])
      {
        if k > 0 {
          assert r[k] == rest[k - 1] && r[k + 1] == rest[k];
        }
      }
    }
  }

  /**
   * sorted(scheduled_seq_groups, key=(lora_int_id, request_id)): a stable sort, each group
   * inserted before the later ones it does not sort after.
   */
  function SortByLora(q: seq<SequenceGroup>): (r: seq<SequenceGroup>)
    ensures SortedByLora(r) && multiset(r) == multiset(q) && |r| == |q|
  {
    if q == [] then []
    else
      assert q == [q[0]] + q[1..];
      InsertByLoraSorted(q[0], SortByLora(q[1..]));
      InsertByLora(q[0], SortByLora(q[1..]))
  }

  /** What _schedule hands to the engine. */
  datatype SchedulerOutputs = SchedulerOutputs(scheduled: seq<SequenceGroup>, promptRun: bool, numBatchedTokens: nat,
                                               swapIn: map<nat, nat>, swapOut: map<nat, nat>,
                                               copies: map<nat, seq<nat>>, ignored: seq<SequenceGroup>)
  {
    /** is_empty: nothing to run, swap or copy; ignored groups do not count. */
    predicate IsEmpty()
    {
      scheduled == [] && swapIn == map[] && swapOut == map[] && copies == map[]
    }
  }

  /**
   * The SchedulerOutputs constructor.  It asserts that swap-in and swap-out do not both
   * happen; the scheduled groups are sorted by (LoRA id, request id) whenever there are any,
   * as the set of their LoRA requests (None included) is then non-empty.
   */
  function MakeOutputs(scheduled: seq<SequenceGroup>, promptRun: bool, numBatchedTokens: nat, swapIn: map<nat, nat>,
                       swapOut: map<nat, nat>, copies: map<nat, seq<nat>>, ignored: seq<SequenceGroup>)
    : (out: SchedulerOutputs)
    requires swapIn == map[] || swapOut == map[]
    ensures SortedByLora(out.scheduled) && multiset(out.scheduled) == multiset(scheduled)
    ensures out.promptRun == promptRun && out.numBatchedTokens == numBatchedTokens && out.ignored == ignored
    ensures out.swapIn == swapIn && out.swapOut == swapOut && out.copies == copies
  {
    SchedulerOutputs(SortByLora(scheduled), promptRun, numBatchedTokens, swapIn, swapOut, copies, ignored)
  }

  /** The scheduler's queues and its block manager's state. */
  datatype Queues<S> = Queues(waiting: seq<SequenceGroup>, running: seq<SequenceGroup>, swapped: seq<SequenceGroup>, bm: S)

  /** The prompt loop's state on entry: the budgets count the running groups and their LoRAs. */
  function PromptStart<S>(cfg: SchedulerConfig, q: Queues<S>): PromptRun<S>
  {
    PromptRun(q.waiting, q.running, q.bm, [], SumMaxRunning(q.running), LorasOf(cfg, q.running), [], [], [])
  }

  /** The reservation loop's state on entry: the running queue in policy order, nothing kept or preempted yet. */
  function ReserveStart<S>(policy: seq<SequenceGroup> -> seq<SequenceGroup>, q: Queues<S>): Reserve<S>
  {
    Reserve(policy(q.running), [], [], q.waiting, q.swapped, q.bm, map[], map[])
  }

  /** The swap-in loop's state on entry, after the reservation loop kept the groups `st.done`. */
  function SwapStart<S>(cfg: SchedulerConfig, policy: seq<SequenceGroup> -> seq<SequenceGroup>, st: Reserve<S>): SwapRun<S>
  {
    SwapRun(policy(st.swapped), st.done, st.bm, SumMaxRunning(st.done), LorasOf(cfg, st.done), map[], st.copies, [])
  }

  /**
   * The decode part of _schedule: reserve a slot for every running group in policy order,
   * preempting as needed, then, if nothing was preempted, swap groups in; the outputs
   * schedule the running queue with one token per running sequence.
   */
  function Decode<S>(cfg: SchedulerConfig, ops: BlockManagerOps<S>, policy: seq<SequenceGroup> -> seq<SequenceGroup>,
                     q: Queues<S>): (res: Result<(Queues<S>, SchedulerOutputs), SchedulerError>)
    ensures res.Ok? ==> !res.value.1.promptRun && res.value.1.ignored == []
  {
    var st0 := ReserveStart(policy, q);
    match ReserveAll(ops, st0)
    case Err(e) => Err(e)
    case Ok(st) =>
      if st.preempted == [] then
        ReserveAllGrown(ops, st0);
        var r := SwapInLoop(cfg, ops, SwapStart(cfg, policy, st));
        Ok((Queues(st.waiting, r.running, ExtendLeft(r.swapped, r.leftover), r.bm),
            MakeOutputs(r.running, false, NumRunningSeqs(r.running), r.swapIn, st.swapOut, r.copies, [])))
      else
        Ok((Queues(st.waiting, st.done, policy(st.swapped), st.bm),
            MakeOutputs(st.done, false, NumRunningSeqs(st.done), map[], st.swapOut, st.copies, [])))
  }

  /**
   * _schedule: with nothing swapped, admit prompts first and return them if any group was
   * scheduled or ignored (the set-aside groups go back to the front of waiting); otherwise
   * run the decode part.
   */
  function ScheduleSpec<S>(cfg: SchedulerConfig, ops: BlockManagerOps<S>, policy: seq<SequenceGroup> -> seq<SequenceGroup>,
                           q: Queues<S>): (res: Result<(Queues<S>, SchedulerOutputs), SchedulerError>)
    ensures res.Ok? && res.value.1.promptRun ==> q.swapped == [] && (res.value.1.scheduled != [] || res.value.1.ignored != [])
  {
    if q.swapped == [] then
      match PromptLoop(cfg, ops, PromptStart(cfg, q))
      case Err(e) => Err(e)
      case Ok(r) =>
        var q1 := Queues(ExtendLeft(r.waiting, r.leftover), r.running, q.swapped, r.bm);
        if r.scheduled != [] || r.ignored != [] then
          Ok((q1, MakeOutputs(r.scheduled, true, PaddedTokens(r.seqLens), map[], map[], map[], r.ignored)))
        else Decode(cfg, ops, policy, q1)
    else Decode(cfg, ops, policy, q)
  }

  /** The request ids held by the three queues. */
  function Ids<S>(q: Queues<S>): multiset<string>
  {
    multiset(ReqIds(q.waiting)) + multiset(ReqIds(q.running)) + multiset(ReqIds(q.swapped))
  }

  /** A priority policy reorders a queue and does nothing else to it. */
  ghost predicate Reorders(policy: seq<SequenceGroup> -> seq<SequenceGroup>)
  {
    forall q: seq<SequenceGroup> :: multiset(ReqIds(policy(q))) == multiset(ReqIds(q))
  }

  lemma ReqIdsReverse(q: seq<SequenceGroup>)
    ensures ReqIds(Reverse(q)) == Reverse(ReqIds(q))
  {
  }

  lemma {:induction false} ReverseSameElements<T>(s: seq<T>)
    ensures multiset(Reverse(s)) == multiset(s)
  {
    if s != [] {
      ReverseSameElements(s[1..]);
      assert s == [s[0]] + s[1..];
    }
  }

  /** Every preempted group is either recomputed or swapped out. */
  lemma {:induction false} PreemptedSplit(p: seq<SequenceGroup>)
    ensures multiset(ReqIds(Recomputed(p))) + multiset(ReqIds(SwappedOut(p))) == multiset(ReqIds(p))
    decreases |p|
  {
    if p != [] {
      var init := p[..|p| - 1];
      var last := [p[|p| - 1]];
      PreemptedSplit(init);
      assert p == init + last;
      ReqIdsAppend(init, last);
      if p[|p| - 1].maxNumRunningSeqs == 1 {
        assert Recomputed(p) == Recomputed(init) + last && SwappedOut(p) == SwappedOut(init);
        ReqIdsAppend(Recomputed(init), last);
      } else {
        assert SwappedOut(p) == SwappedOut(init) + last && Recomputed(p) == Recomputed(init);
        ReqIdsAppend(SwappedOut(init), last);
      }
    }
  }

  /** The ids of the groups put back with extendleft. */
  lemma ExtendLeftIds(rest: seq<SequenceGroup>, items: seq<SequenceGroup>)
    ensures multiset(ReqIds(ExtendLeft(rest, items))) == multiset(ReqIds(items)) + multiset(ReqIds(rest))
  {
    ExtendLeftReverses(rest, items);
    ReqIdsAppend(Reverse(items), rest);
    ReqIdsReverse(items);
    ReverseSameElements(ReqIds(items));
  }

  /** The prompt loop loses no request: each one left waiting is still waiting, now running, or ignored. */
  lemma PromptConserves<S>(cfg: SchedulerConfig, ops: BlockManagerOps<S>, r0: PromptRun<S>)
    requires r0.scheduled == [] && r0.ignored == [] && r0.leftover == []
    requires PromptLoop(cfg, ops, r0).Ok?
    ensures var r := PromptLoop(cfg, ops, r0).value;
      multiset(ReqIds(ExtendLeft(r.waiting, r.leftover))) + multiset(ReqIds(r.running)) + multiset(ReqIds(r.ignored)) ==
      multiset(ReqIds(r0.waiting)) + multiset(ReqIds(r0.running))
  {
    var r := PromptLoop(cfg, ops, r0).value;
    PromptLoopFifo(cfg, ops, r0);
    FifoConserves(r0, r);
  }

  /** A run of the prompt loop from nothing scheduled, ignored or left over conserves the requests. */
  lemma FifoConserves<S>(r0: PromptRun<S>, r: PromptRun<S>)
    requires r0.scheduled == [] && r0.ignored == [] && r0.leftover == []
    requires PromptFifo(r0, r)
    ensures multiset(ReqIds(ExtendLeft(r.waiting, r.leftover))) + multiset(ReqIds(r.running)) + multiset(ReqIds(r.ignored)) ==
            multiset(ReqIds(r0.waiting)) + multiset(ReqIds(r0.running))
  {
    var sch, ign, left := r.scheduled[|r0.scheduled|..], r.ignored[|r0.ignored|..], r.leftover[..|r.leftover| - |r0.leftover|];
    assert sch == r.scheduled && ign == r.ignored && left == r.leftover;
    MergeConserves(r0.waiting, r.waiting, r0.running, r.scheduled, r.running, r.ignored, r.leftover);
  }

  /**
   * The admitted prefix of waiting merged into the scheduled, ignored and (reversed) leftover
   * groups: together with what is left, nothing is lost or added.
   */
  lemma MergeConserves(waiting0: seq<SequenceGroup>, waiting: seq<SequenceGroup>, running0: seq<SequenceGroup>,
                       scheduled: seq<SequenceGroup>, running: seq<SequenceGroup>,
                       ignored: seq<SequenceGroup>, leftover: seq<SequenceGroup>)
    requires |waiting| <= |waiting0| && waiting == waiting0[|waiting0| - |waiting|..]
    requires running == running0 + scheduled
    requires Interleaves(ReqIds(waiting0[..|waiting0| - |waiting|]), ReqIds(scheduled), ReqIds(ignored),
                         Reverse(ReqIds(leftover)))
    ensures multiset(ReqIds(ExtendLeft(waiting, leftover))) + multiset(ReqIds(running)) + multiset(ReqIds(ignored)) ==
            multiset(ReqIds(waiting0)) + multiset(ReqIds(running0))
  {
    var k := |waiting0| - |waiting|;
    var admitted := ReqIds(waiting0[..k]);
    var s, i, l := multiset(ReqIds(scheduled)), multiset(ReqIds(ignored)), multiset(ReqIds(leftover));
    var w, r0 := multiset(ReqIds(waiting)), multiset(ReqIds(running0));
    assert multiset(admitted) == s + i + l by {
      InterleavesCount(admitted, ReqIds(scheduled), ReqIds(ignored), Reverse(ReqIds(leftover)));
      ReverseSameElements(ReqIds(leftover));
    }
    assert multiset(ReqIds(waiting0)) == multiset(admitted) + w by {
      assert waiting0 == waiting0[..k] + waiting;
      ReqIdsAppend(waiting0[..k], waiting);
    }
    assert multiset(ReqIds(running)) == r0 + s by {
      ReqIdsAppend(running0, scheduled);
    }
    assert multiset(ReqIds(ExtendLeft(waiting, leftover))) == l + w by {
      ExtendLeftIds(waiting, leftover);
    }
  }

  /** The swap-in loop loses no request: each one left swapped is still swapped or now running. */
  lemma SwapInConserves<S>(cfg: SchedulerConfig, ops: BlockManagerOps<S>, r0: SwapRun<S>)
    requires r0.leftover == []
    ensures var r := SwapInLoop(cfg, ops, r0);
      multiset(ReqIds(ExtendLeft(r.swapped, r.leftover))) + multiset(ReqIds(r.running)) ==
      multiset(ReqIds(r0.swapped)) + multiset(ReqIds(r0.running))
  {
    var r := SwapInLoop(cfg, ops, r0);
    SwapInLoopFifo(cfg, ops, r0);
    SwapFifoConserves(r0, r);
  }

  /** A run of the swap-in loop from nothing left over conserves the requests. */
  lemma SwapFifoConserves<S>(r0: SwapRun<S>, r: SwapRun<S>)
    requires r0.leftover == [] && SwapFifo(r0, r)
    ensures multiset(ReqIds(ExtendLeft(r.swapped, r.leftover))) + multiset(ReqIds(r.running)) ==
            multiset(ReqIds(r0.swapped)) + multiset(ReqIds(r0.running))
  {
    var resumed, left := r.running[|r0.running|..], r.leftover[..|r.leftover| - |r0.leftover|];
    assert left == r.leftover && ReqIds([]) == [];
    assert r.running == r0.running + resumed;
    MergeConserves(r0.swapped, r.swapped, r0.running, resumed, r.running, [], r.leftover);
  }

  /** The kept and the preempted groups are the running groups the reservation loop started from. */
  lemma LayoutIds<S>(st0: Reserve<S>, st: Reserve<S>)
    requires Layout(st0) == Layout(st) && st0.done == [] && st0.preempted == [] && st.todo == []
    ensures multiset(ReqIds(st0.todo)) == multiset(ReqIds(st.done)) + multiset(ReqIds(st.preempted))
  {
    var kept, back := ReqIds(st.done), Reverse(ReqIds(st.preempted));
    assert Layout(st0) == ReqIds(st0.todo) by {
      assert ReqIds(st0.done) == [] && Reverse(ReqIds(st0.preempted)) == [];
      assert [] + (ReqIds(st0.todo) + []) == ReqIds(st0.todo);
    }
    assert Layout(st) == kept + back by {
      assert ReqIds(st.todo) == [];
      assert kept + ([] + back) == kept + back;
    }
    assert multiset(kept + back) == multiset(kept) + multiset(back);
    ReverseSameElements(ReqIds(st.preempted));
  }

  /** The preempted groups are the ones added to waiting and swapped. */
  lemma FedIds<S>(st0: Reserve<S>, st: Reserve<S>)
    requires PreemptedFed(st0, st) && st0.preempted == []
    ensures multiset(ReqIds(st.waiting)) + multiset(ReqIds(st.swapped)) ==
      multiset(ReqIds(st0.waiting)) + multiset(ReqIds(st0.swapped)) + multiset(ReqIds(st.preempted))
  {
    var p := st.preempted;
    assert p[|st0.preempted|..] == p;
    PreemptedSplit(p);
    ReqIdsAppend(Reverse(Recomputed(p)), st0.waiting);
    ReqIdsReverse(Recomputed(p));
    ReverseSameElements(ReqIds(Recomputed(p)));
    ReqIdsAppend(st0.swapped, SwappedOut(p));
  }

  /** The reservation loop loses no request: each running one is kept, back in waiting, or swapped. */
  lemma ReserveConserves<S>(ops: BlockManagerOps<S>, policy: seq<SequenceGroup> -> seq<SequenceGroup>, q: Queues<S>)
    requires Reorders(policy)
    requires ReserveAll(ops, ReserveStart(policy, q)).Ok?
    ensures var st := ReserveAll(ops, ReserveStart(policy, q)).value;
      Ids(Queues(st.waiting, st.done, st.swapped, st.bm)) == Ids(q)
  {
    var st0 := ReserveStart(policy, q);
    var st := ReserveAll(ops, st0).value;
    ReserveAllGrown(ops, st0);
    LayoutIds(st0, st);
    FedIds(st0, st);
    MovedIds(multiset(ReqIds(st.waiting)), multiset(ReqIds(st.done)), multiset(ReqIds(st.swapped)),
             multiset(ReqIds(q.waiting)), multiset(ReqIds(q.running)), multiset(ReqIds(q.swapped)),
             multiset(ReqIds(st.preempted)));
  }

  /** Ids moved from running to the other two queues are still counted once. */
  lemma MovedIds(w: multiset<string>, d: multiset<string>, sw: multiset<string>,
                 w0: multiset<string>, r0: multiset<string>, sw0: multiset<string>, p: multiset<string>)
    requires r0 == d + p && w + sw == w0 + sw0 + p
    ensures w + d + sw == w0 + r0 + sw0
  {
    forall x
      ensures (w + d + sw)[x] == (w0 + r0 + sw0)[x]
    {
      assert (w + sw)[x] == (w0 + sw0 + p)[x];
    }
  }

  /** The decode part loses no request. */
  lemma DecodeConserves<S>(cfg: SchedulerConfig, ops: BlockManagerOps<S>, policy: seq<SequenceGroup> -> seq<SequenceGroup>,
                           q: Queues<S>)
    requires Reorders(policy)
    requires Decode(cfg, ops, policy, q).Ok?
    ensures Ids(Decode(cfg, ops, policy, q).value.0) == Ids(q)
  {
    var st := ReserveAll(ops, ReserveStart(policy, q)).value;
    ReserveConserves(ops, policy, q);
    var w, d, sw := multiset(ReqIds(st.waiting)), multiset(ReqIds(st.done)), multiset(ReqIds(st.swapped));
    assert multiset(ReqIds(policy(st.swapped))) == sw;
    if st.preempted == [] {
      var r := SwapInLoop(cfg, ops, SwapStart(cfg, policy, st));
      SwapInConserves(cfg, ops, SwapStart(cfg, policy, st));
      var q' := Queues(st.waiting, r.running, ExtendLeft(r.swapped, r.leftover), r.bm);
      assert Decode(cfg, ops, policy, q).value.0 == q';
      ResumedIds(w, d, sw, multiset(ReqIds(r.running)), multiset(ReqIds(q'.swapped)));
    } else {
      var q' := Queues(st.waiting, st.done, policy(st.swapped), st.bm);
      assert Decode(cfg, ops, policy, q).value.0 == q';
    }
  }

  /** Ids moved from swapped to running are still counted once. */
  lemma ResumedIds(w: multiset<string>, d: multiset<string>, sw: multiset<string>, d': multiset<string>, sw': multiset<string>)
    requires sw' + d' == sw + d
    ensures w + d' + sw' == w + d + sw
  {
    forall x
      ensures (w + d' + sw')[x] == (w + d + sw)[x]
    {
      assert (sw' + d')[x] == (sw + d)[x];
    }
  }

  /**
   * One call of _schedule loses and duplicates no request: the groups in the three queues
   * afterwards, together with the ignored ones, are those in the queues before.
   */
  lemma ScheduleConserves<S>(cfg: SchedulerConfig, ops: BlockManagerOps<S>, policy: seq<SequenceGroup> -> seq<SequenceGroup>,
                             q: Queues<S>)
    requires Reorders(policy)
    ensures var res := ScheduleSpec(cfg, ops, policy, q);
      res.Ok? ==> Ids(res.value.0) + multiset(ReqIds(res.value.1.ignored)) == Ids(q)
  {
    if q.swapped != [] {
      assert ScheduleSpec(cfg, ops, policy, q) == Decode(cfg, ops, policy, q);
      if Decode(cfg, ops, policy, q).Ok? {
        DecodeConserves(cfg, ops, policy, q);
      }
    } else if PromptLoop(cfg, ops, PromptStart(cfg, q)).Ok? {
      PromptBranchConserves(cfg, ops, policy, q);
    } else {
      assert ScheduleSpec(cfg, ops, policy, q).Err?;
    }
  }

  lemma PromptBranchConserves<S>(cfg: SchedulerConfig, ops: BlockManagerOps<S>,
                                 policy: seq<SequenceGroup> -> seq<SequenceGroup>, q: Queues<S>)
    requires Reorders(policy) && q.swapped == [] && PromptLoop(cfg, ops, PromptStart(cfg, q)).Ok?
    ensures var res := ScheduleSpec(cfg, ops, policy, q);
      res.Ok? ==> Ids(res.value.0) + multiset(ReqIds(res.value.1.ignored)) == Ids(q)
  {
    var r := PromptLoop(cfg, ops, PromptStart(cfg, q)).value;
    PromptConserves(cfg, ops, PromptStart(cfg, q));
    var q1 := Queues(ExtendLeft(r.waiting, r.leftover), r.running, q.swapped, r.bm);
    var ign := multiset(ReqIds(r.ignored));
    assert Ids(q1) + ign == Ids(q) by {
      AdmittedIds(multiset(ReqIds(q1.waiting)), multiset(ReqIds(q1.running)), ign,
                  multiset(ReqIds(q.waiting)), multiset(ReqIds(q.running)), multiset(ReqIds(q.swapped)));
    }
    if r.scheduled != [] || r.ignored != [] {
      var out := MakeOutputs(r.scheduled, true, PaddedTokens(r.seqLens), map[], map[], map[], r.ignored);
      assert ScheduleSpec(cfg, ops, policy, q) == Ok((q1, out));
    } else {
      assert ScheduleSpec(cfg, ops, policy, q) == Decode(cfg, ops, policy, q1);
      if Decode(cfg, ops, policy, q1).Ok? {
        DecodeConserves(cfg, ops, policy, q1);
      }
    }
  }

  /** Ids moved from waiting to running or to the ignored list are still counted once. */
  lemma AdmittedIds(w: multiset<string>, r: multiset<string>, ign: multiset<string>,
                    w0: multiset<string>, r0: multiset<string>, sw0: multiset<string>)
    requires w + r + ign == w0 + r0 && sw0 == multiset{}
    ensures w + r + sw0 + ign == w0 + r0 + sw0
  {
  }

  /**
   * The decode outputs schedule the whole running queue, sorted by LoRA, with one token per
   * running sequence, ignore nothing, and never swap in and out in the same step.
   */
  lemma DecodeOutputs<S>(cfg: SchedulerConfig, ops: BlockManagerOps<S>, policy: seq<SequenceGroup> -> seq<SequenceGroup>,
                         q: Queues<S>)
    ensures var res := Decode(cfg, ops, policy, q);
      res.Ok? ==>
        var q' := res.value.0;
        var out := res.value.1;
        !out.promptRun && out.ignored == [] && (out.swapIn == map[] || out.swapOut == map[]) &&
        SortedByLora(out.scheduled) && multiset(out.scheduled) == multiset(q'.running) &&
        out.numBatchedTokens == NumRunningSeqs(q'.running)
  {
    var st0 := ReserveStart(policy, q);
    if ReserveAll(ops, st0).Ok? {
      var st := ReserveAll(ops, st0).value;
      if st.preempted == [] {
        ReserveAllGrown(ops, st0);
        var r := SwapInLoop(cfg, ops, SwapStart(cfg, policy, st));
        var out := MakeOutputs(r.running, false, NumRunningSeqs(r.running), r.swapIn, st.swapOut, r.copies, []);
        assert Decode(cfg, ops, policy, q) == Ok((Queues(st.waiting, r.running, ExtendLeft(r.swapped, r.leftover), r.bm), out));
      } else {
        var out := MakeOutputs(st.done, false, NumRunningSeqs(st.done), map[], st.swapOut, st.copies, []);
        assert Decode(cfg, ops, policy, q) == Ok((Queues(st.waiting, st.done, policy(st.swapped), st.bm), out));
      }
    }
  }

  /**
   * What one call of _schedule hands out: a prompt run happens only with nothing swapped,
   * schedules or ignores something, moves no block and stays within the token budget, and
   * the groups it schedules are running; otherwise the decode outputs of DecodeOutputs.
   */
  lemma ScheduleOutputs<S>(cfg: SchedulerConfig, ops: BlockManagerOps<S>, policy: seq<SequenceGroup> -> seq<SequenceGroup>,
                           q: Queues<S>)
    ensures var res := ScheduleSpec(cfg, ops, policy, q);
      res.Ok? ==>
        var q' := res.value.0;
        var out := res.value.1;
        (out.swapIn == map[] || out.swapOut == map[]) && SortedByLora(out.scheduled) &&
        (out.promptRun ==>
          q.swapped == [] && (out.scheduled != [] || out.ignored != []) &&
          out.swapIn == map[] && out.swapOut == map[] && out.copies == map[] &&
          out.numBatchedTokens <= cfg.maxNumBatchedTokens && multiset(out.scheduled) <= multiset(q'.running)) &&
        (!out.promptRun ==>
          out.ignored == [] && multiset(out.scheduled) == multiset(q'.running) &&
          out.numBatchedTokens == NumRunningSeqs(q'.running))
  {
    if q.swapped != [] {
      DecodeOutputs(cfg, ops, policy, q);
    } else if PromptLoop(cfg, ops, PromptStart(cfg, q)).Ok? {
      var r0 := PromptStart(cfg, q);
      var r := PromptLoop(cfg, ops, r0).value;
      var q1 := Queues(ExtendLeft(r.waiting, r.leftover), r.running, q.swapped, r.bm);
      if r.scheduled != [] || r.ignored != [] {
        PromptLoopBudgets(cfg, ops, r0);
        PromptLoopGrows(cfg, ops, r0);
        assert r.running == r0.running + r.scheduled by {
          assert r.scheduled[|r0.scheduled|..] == r.scheduled;
        }
      } else {
        DecodeOutputs(cfg, ops, policy, q1);
      }
    }
  }

  /** The set of request ids of a queue. */
  function IdSet(q: seq<SequenceGroup>): (r: set<string>)
    ensures forall k :: 0 <= k < |q| ==> q[k].requestId in r
    ensures forall i :: i in r ==> exists k :: 0 <= k < |q| && q[k].requestId == i
  {
    set k | 0 <= k < |q| :: q[k].requestId
  }

  /**
   * The scan of one queue in abort_seq_group, front to back: it stops once no id is left;
   * a group whose id is still wanted is aborted and its id is no longer wanted; the others
   * stay.  The result is (aborted, kept, ids still wanted).
   */
  function AbortScan(q: seq<SequenceGroup>, ids: set<string>): (r: (seq<SequenceGroup>, seq<SequenceGroup>, set<string>))
    ensures r.2 <= ids
    ensures forall k :: 0 <= k < |r.0| ==> r.0[k].requestId in ids && r.0[k].requestId !in r.2
    ensures forall k :: 0 <= k < |r.1| ==> r.1[k].requestId !in r.2
    decreases |q|
  {
    if q == [] then ([], [], ids)
    else if ids == {} then ([], q, ids)
    else if q[0].requestId in ids then
      var rest := AbortScan(q[1..], ids - {q[0].requestId});
      ([q[0]] + rest.0, rest.1, rest.2)
    else
      var rest := AbortScan(q[1..], ids);
      (rest.0, [q[0]] + rest.1, rest.2)
  }

  /** The scan splits the queue, in order, into the kept and the aborted groups. */
  lemma {:induction false} AbortScanMerge(q: seq<SequenceGroup>, ids: set<string>)
    ensures var r := AbortScan(q, ids);
      Interleaves(q, r.1, r.0, []) && (forall k :: 0 <= k < |r.0| ==> r.0[k] in q) &&
      (forall k :: 0 <= k < |r.1| ==> r.1[k] in q)
    decreases |q|
  {
    if q != [] {
      if ids == {} {
        KeepAll(q);
      } else {
        var g := q[0];
        AbortScanFront(q, ids);
        var ids' := if g.requestId in ids then ids - {g.requestId} else ids;
        AbortScanMerge(q[1..], ids');
        var rest := AbortScan(q[1..], ids');
        if g.requestId in ids {
          assert ([g] + rest.0)[1..] == rest.0;
        } else {
          assert ([g] + rest.1)[1..] == rest.1;
        }
      }
    }
  }

  /** A queue is a merge of itself and nothing else. */
  lemma {:induction false} KeepAll<T>(q: seq<T>)
    ensures Interleaves(q, q, [], [])
    decreases |q|
  {
    if q != [] {
      KeepAll(q[1..]);
    }
  }

  /** The scan loop of abort_seq_group over one queue, with its early break. */
  method AbortQueue(q: seq<SequenceGroup>, ids0: set<string>)
    returns (aborted: seq<SequenceGroup>, kept: seq<SequenceGroup>, ids: set<string>)
    ensures (aborted, kept, ids) == AbortScan(q, ids0)
  {
    aborted, kept, ids := [], [], ids0;
    var j := 0;
    AbortScanStart(q, ids0);
    while j < |q|
      invariant 0 <= j <= |q|
      invariant AbortScan(q, ids0) == Joined(aborted, kept, AbortScan(q[j..], ids))
    {
      if ids == {} {
        AbortScanNone(aborted, kept, q[j..]);
        kept := kept + q[j..];
        return;
      }
      AbortScanStep(aborted, kept, q, j, ids);
      if q[j].requestId in ids {
        aborted := aborted + [q[j]];
        ids := ids - {q[j].requestId};
      } else {
        kept := kept + [q[j]];
      }
      j := j + 1;
    }
    AbortScanEnd(aborted, kept, q, ids);
  }

  lemma AbortScanStart(q: seq<SequenceGroup>, ids: set<string>)
    ensures AbortScan(q, ids) == Joined([], [], AbortScan(q[0..], ids))
  {
    var all := AbortScan(q, ids);
    assert q[0..] == q;
    assert [] + all.0 == all.0 && [] + all.1 == all.1;
  }

  lemma AbortScanNone(aborted: seq<SequenceGroup>, kept: seq<SequenceGroup>, rest: seq<SequenceGroup>)
    ensures Joined(aborted, kept, AbortScan(rest, {})) == (aborted, kept + rest, {})
  {
    assert AbortScan(rest, {}) == ([], rest, {});
    assert aborted + [] == aborted;
  }

  lemma AbortScanEnd(aborted: seq<SequenceGroup>, kept: seq<SequenceGroup>, q: seq<SequenceGroup>, ids: set<string>)
    ensures Joined(aborted, kept, AbortScan(q[|q|..], ids)) == (aborted, kept, ids)
  {
    assert q[|q|..] == [];
    assert aborted + [] == aborted && kept + [] == kept;
  }

  /** One group of the scan moves to the aborted or the kept groups. */
  lemma AbortScanStep(aborted: seq<SequenceGroup>, kept: seq<SequenceGroup>, q: seq<SequenceGroup>, j: nat, ids: set<string>)
    requires j < |q| && ids != {}
    ensures q[j].requestId in ids ==>
      Joined(aborted, kept, AbortScan(q[j..], ids)) ==
      Joined(aborted + [q[j]], kept, AbortScan(q[j + 1..], ids - {q[j].requestId}))
    ensures q[j].requestId !in ids ==>
      Joined(aborted, kept, AbortScan(q[j..], ids)) == Joined(aborted, kept + [q[j]], AbortScan(q[j + 1..], ids))
  {
    AbortScanFront(q[j..], ids);
    assert q[j..][1..] == q[j + 1..];
    if q[j].requestId in ids {
      var rest := AbortScan(q[j + 1..], ids - {q[j].requestId});
      assert aborted + ([q[j]] + rest.0) == (aborted + [q[j]]) + rest.0;
    } else {
      var rest := AbortScan(q[j + 1..], ids);
      assert kept + ([q[j]] + rest.1) == (kept + [q[j]]) + rest.1;
    }
  }

  /** The scan's result after the groups already aborted and kept. */
  function Joined(aborted: seq<SequenceGroup>, kept: seq<SequenceGroup>, rest: (seq<SequenceGroup>, seq<SequenceGroup>, set<string>))
    : (seq<SequenceGroup>, seq<SequenceGroup>, set<string>)
  {
    (aborted + rest.0, kept + rest.1, rest.2)
  }

  lemma AbortScanFront(q: seq<SequenceGroup>, ids: set<string>)
    requires q != [] && ids != {}
    ensures var g := q[0];
      if g.requestId in ids then
        var rest := AbortScan(q[1..], ids - {g.requestId});
        AbortScan(q, ids) == ([g] + rest.0, rest.1, rest.2)
      else
        var rest := AbortScan(q[1..], ids);
        AbortScan(q, ids) == (rest.0, [g] + rest.1, rest.2)
  {
  }

  /** An aborted group: each of its unfinished sequences becomes FINISHED_ABORTED. */
  function AbortStatuses(g: SequenceGroup): (r: SequenceGroup)
    ensures r.IsFinished() && r.requestId == g.requestId && |r.seqs| == |g.seqs|
    ensures forall k :: 0 <= k < |g.seqs| && g.seqs[k].status.IsFinished() ==> r.seqs[k] == g.seqs[k]
  {
    g.MapStatus((st: SeqStatus) => if st.IsFinished() then st else FINISHED_ABORTED)
  }

  /** The block manager after free_seq of each unfinished sequence of `ss`, marked FINISHED_ABORTED, in order. */
  function FreeSeqs<S>(ops: BlockManagerOps<S>, bm: S, ss: seq<Sequence>): S
    decreases |ss|
  {
    if ss == [] then bm
    else if ss[0].status.IsFinished() then FreeSeqs(ops, bm, ss[1..])
    else FreeSeqs(ops, ops.free(bm, ss[0].(status := FINISHED_ABORTED)), ss[1..])
  }

  /** The block manager after freeing the unfinished sequences of each aborted group in turn. */
  function FreeGroups<S>(ops: BlockManagerOps<S>, bm: S, gs: seq<SequenceGroup>): S
    decreases |gs|
  {
    if gs == [] then bm else FreeGroups(ops, FreeSeqs(ops, bm, gs[0].seqs), gs[1..])
  }

  /** The freeing loops of abort_seq_group for one queue's aborted groups. */
  method FreeAborted<S>(ops: BlockManagerOps<S>, bm0: S, gs: seq<SequenceGroup>) returns (bm: S)
    ensures bm == FreeGroups(ops, bm0, gs)
  {
    bm := bm0;
    var j := 0;
    while j < |gs|
      invariant 0 <= j <= |gs|
      invariant FreeGroups(ops, bm, gs[j..]) == FreeGroups(ops, bm0, gs)
    {
      var ss := gs[j].seqs;
      ghost var after := FreeGroups(ops, bm, gs[j..]);
      assert after == FreeGroups(ops, FreeSeqs(ops, bm, ss), gs[j + 1..]) by {
        assert gs[j..][1..] == gs[j + 1..];
      }
      var i := 0;
      while i < |ss|
        invariant 0 <= i <= |ss|
        invariant FreeGroups(ops, FreeSeqs(ops, bm, ss[i..]), gs[j + 1..]) == after
      {
        assert ss[i..][1..] == ss[i + 1..];
        if !ss[i].status.IsFinished() {
          bm := ops.free(bm, ss[i].(status := FINISHED_ABORTED));
        }
        i := i + 1;
      }
      assert ss[i..] == [];
      j := j + 1;
    }
  }

  /**
   * abort_seq_group: the waiting, running and swapped queues are scanned in turn for the
   * wanted ids, each id found once; the aborted groups leave their queue and their
   * unfinished sequences are freed.  The second result is the aborted groups as they end up.
   */
  function AbortSpec<S>(ops: BlockManagerOps<S>, q: Queues<S>, ids: set<string>): (r: (Queues<S>, seq<SequenceGroup>))
    ensures forall k :: 0 <= k < |r.1| ==> r.1[k].IsFinished() && r.1[k].requestId in ids
  {
    var (a1, k1, ids1) := AbortScan(q.waiting, ids);
    var (a2, k2, ids2) := AbortScan(q.running, ids1);
    var (a3, k3, _) := AbortScan(q.swapped, ids2);
    var bm := FreeGroups(ops, FreeGroups(ops, FreeGroups(ops, q.bm, a1), a2), a3);
    var aborted := a1 + a2 + a3;
    (Queues(k1, k2, k3, bm), seq(|aborted|, k requires 0 <= k < |aborted| => AbortStatuses(aborted[k])))
  }

  /** No two groups of a queue share a request id. */
  predicate DistinctReqs(q: seq<SequenceGroup>)
  {
    forall i, j :: 0 <= i < j < |q| ==> q[i].requestId != q[j].requestId
  }

  /** Each request id is in at most one place across the three queues. */
  predicate UniqueRequests<S>(q: Queues<S>)
  {
    DistinctReqs(q.waiting) && DistinctReqs(q.running) && DistinctReqs(q.swapped) &&
    IdSet(q.waiting) !! IdSet(q.running) && IdSet(q.waiting) !! IdSet(q.swapped) && IdSet(q.running) !! IdSet(q.swapped)
  }

  /** The ids the scan stopped wanting are those of the groups it aborted. */
  lemma {:induction false} AbortScanIds(q: seq<SequenceGroup>, ids: set<string>)
    ensures ids == AbortScan(q, ids).2 + IdSet(AbortScan(q, ids).0)
    decreases |q|
  {
    if q != [] && ids != {} {
      var g := q[0];
      AbortScanFront(q, ids);
      if g.requestId in ids {
        AbortScanIds(q[1..], ids - {g.requestId});
        var rest := AbortScan(q[1..], ids - {g.requestId});
        IdSetCons(g, rest.0);
      } else {
        AbortScanIds(q[1..], ids);
      }
    }
  }

  lemma IdSetCons(g: SequenceGroup, q: seq<SequenceGroup>)
    ensures IdSet([g] + q) == {g.requestId} + IdSet(q)
  {
    var l := [g] + q;
    forall i | i in IdSet(l)
      ensures i in {g.requestId} + IdSet(q)
    {
      var k :| 0 <= k < |l| && l[k].requestId == i;
      if k > 0 {
        assert l[k] == q[k - 1];
      }
    }
    forall i | i in IdSet(q)
      ensures i in IdSet(l)
    {
      var k :| 0 <= k < |q| && q[k].requestId == i;
      assert l[k + 1] == q[k];
    }
    assert l[0] == g;
  }

  /** In a queue of distinct ids, no group the scan keeps was wanted. */
  lemma {:induction false} AbortScanKept(q: seq<SequenceGroup>, ids: set<string>)
    requires DistinctReqs(q)
    ensures forall k :: 0 <= k < |AbortScan(q, ids).1| ==> AbortScan(q, ids).1[k].requestId !in ids
    decreases |q|
  {
    if q != [] && ids != {} {
      var g := q[0];
      AbortScanFront(q, ids);
      if g.requestId in ids {
        var ids' := ids - {g.requestId};
        AbortScanKept(q[1..], ids');
        AbortScanMerge(q[1..], ids');
        var kept := AbortScan(q[1..], ids').1;
        forall k | 0 <= k < |kept|
          ensures kept[k].requestId !in ids
        {
          var m :| 0 <= m < |q[1..]| && q[1..][m] == kept[k];
          assert q[m + 1] == kept[k];
        }
      } else {
        AbortScanKept(q[1..], ids);
      }
    }
  }

  /** A merge of groups is a merge of their request ids. */
  lemma {:induction false} InterleavesIds(xs: seq<SequenceGroup>, a: seq<SequenceGroup>, b: seq<SequenceGroup>,
                                          c: seq<SequenceGroup>)
    requires Interleaves(xs, a, b, c)
    ensures Interleaves(ReqIds(xs), ReqIds(a), ReqIds(b), ReqIds(c))
    decreases |xs|
  {
    if xs != [] {
      assert ReqIds(xs)[1..] == ReqIds(xs[1..]);
      if a != [] && a[0] == xs[0] && Interleaves(xs[1..], a[1..], b, c) {
        InterleavesIds(xs[1..], a[1..], b, c);
        assert ReqIds(a)[1..] == ReqIds(a[1..]);
      } else if b != [] && b[0] == xs[0] && Interleaves(xs[1..], a, b[1..], c) {
        InterleavesIds(xs[1..], a, b[1..], c);
        assert ReqIds(b)[1..] == ReqIds(b[1..]);
      } else {
        InterleavesIds(xs[1..], a, b, c[1..]);
        assert ReqIds(c)[1..] == ReqIds(c[1..]);
      }
    }
  }

  /** Every element of a merge comes from one of the merged lists. */
  lemma {:induction false} InterleavesIn<T>(xs: seq<T>, a: seq<T>, b: seq<T>, c: seq<T>, k: nat)
    requires Interleaves(xs, a, b, c) && k < |xs|
    ensures xs[k] in a || xs[k] in b || xs[k] in c
    decreases |xs|
  {
    if k > 0 {
      assert xs[k] == xs[1..][k - 1];
      if a != [] && a[0] == xs[0] && Interleaves(xs[1..], a[1..], b, c) {
        InterleavesIn(xs[1..], a[1..], b, c, k - 1);
      } else if b != [] && b[0] == xs[0] && Interleaves(xs[1..], a, b[1..], c) {
        InterleavesIn(xs[1..], a, b[1..], c, k - 1);
      } else {
        InterleavesIn(xs[1..], a, b, c[1..], k - 1);
      }
    }
  }

  /** One queue's scan: the kept and the aborted ids are those of the queue. */
  lemma ScanIds(q: seq<SequenceGroup>, ids: set<string>)
    ensures var r := AbortScan(q, ids);
      multiset(ReqIds(q)) == multiset(ReqIds(r.1)) + multiset(ReqIds(r.0))
  {
    var r := AbortScan(q, ids);
    AbortScanMerge(q, ids);
    InterleavesIds(q, r.1, r.0, []);
    InterleavesCount(ReqIds(q), ReqIds(r.1), ReqIds(r.0), []);
  }

  /**
   * abort_seq_group loses and duplicates no request: the groups left in the three queues,
   * together with the aborted ones, are those in the queues before.
   */
  lemma AbortConserves<S>(ops: BlockManagerOps<S>, q: Queues<S>, ids: set<string>)
    ensures var r := AbortSpec(ops, q, ids);
      Ids(r.0) + multiset(ReqIds(r.1)) == Ids(q)
  {
    var (a1, k1, ids1) := AbortScan(q.waiting, ids);
    var (a2, k2, ids2) := AbortScan(q.running, ids1);
    var (a3, k3, ids3) := AbortScan(q.swapped, ids2);
    ScanIds(q.waiting, ids);
    ScanIds(q.running, ids1);
    ScanIds(q.swapped, ids2);
    var r := AbortSpec(ops, q, ids);
    assert ReqIds(r.1) == ReqIds(a1) + ReqIds(a2) + ReqIds(a3) by {
      ReqIdsAppend(a1, a2);
      ReqIdsAppend(a1 + a2, a3);
    }
    AbortedIds(multiset(ReqIds(q.waiting)), multiset(ReqIds(k1)), multiset(ReqIds(a1)),
               multiset(ReqIds(q.running)), multiset(ReqIds(k2)), multiset(ReqIds(a2)),
               multiset(ReqIds(q.swapped)), multiset(ReqIds(k3)), multiset(ReqIds(a3)));
  }

  lemma AbortedIds(w: multiset<string>, w': multiset<string>, aw: multiset<string>,
                   r: multiset<string>, r': multiset<string>, ar: multiset<string>,
                   s: multiset<string>, s': multiset<string>, as_: multiset<string>)
    requires w == w' + aw && r == r' + ar && s == s' + as_
    ensures w' + r' + s' + (aw + ar + as_) == w + r + s
  {
  }

  /**
   * With each request in one place, abort_seq_group removes exactly the groups whose ids it
   * is given: no group left in a queue has a wanted id, and every group without one stays.
   */
  lemma AbortExact<S>(ops: BlockManagerOps<S>, q: Queues<S>, ids: set<string>)
    requires UniqueRequests(q)
    ensures var q' := AbortSpec(ops, q, ids).0;
      (forall k :: 0 <= k < |q'.waiting| ==> q'.waiting[k].requestId !in ids) &&
      (forall k :: 0 <= k < |q'.running| ==> q'.running[k].requestId !in ids) &&
      (forall k :: 0 <= k < |q'.swapped| ==> q'.swapped[k].requestId !in ids) &&
      (forall k :: 0 <= k < |q.waiting| && q.waiting[k].requestId !in ids ==> q.waiting[k] in q'.waiting) &&
      (forall k :: 0 <= k < |q.running| && q.running[k].requestId !in ids ==> q.running[k] in q'.running) &&
      (forall k :: 0 <= k < |q.swapped| && q.swapped[k].requestId !in ids ==> q.swapped[k] in q'.swapped)
  {
    var (a1, k1, ids1) := AbortScan(q.waiting, ids);
    var (a2, k2, ids2) := AbortScan(q.running, ids1);
    var (a3, k3, ids3) := AbortScan(q.swapped, ids2);
    AbortScanKept(q.waiting, ids);
    AbortScanKept(q.running, ids1);
    AbortScanKept(q.swapped, ids2);
    AbortScanMerge(q.waiting, ids);
    AbortScanMerge(q.running, ids1);
    AbortScanMerge(q.swapped, ids2);
    AbortScanIds(q.waiting, ids);
    AbortScanIds(q.running, ids1);
    forall k | 0 <= k < |k2|
      ensures k2[k].requestId !in ids
    {
      NotAbortedBefore(q.running, k2[k], a1, q.waiting);
    }
    forall k | 0 <= k < |k3|
      ensures k3[k].requestId !in ids
    {
      NotAbortedBefore(q.swapped, k3[k], a1, q.waiting);
      NotAbortedBefore(q.swapped, k3[k], a2, q.running);
    }
    KeptStays(q.waiting, ids);
    KeptStays(q.running, ids1);
    KeptStays(q.swapped, ids2);
  }

  /** A group of one queue does not share its id with a group taken from another. */
  lemma NotAbortedBefore(q: seq<SequenceGroup>, g: SequenceGroup, a: seq<SequenceGroup>, other: seq<SequenceGroup>)
    requires g in q && IdSet(q) !! IdSet(other)
    requires forall k :: 0 <= k < |a| ==> a[k] in other
    ensures g.requestId !in IdSet(a)
  {
    forall k | 0 <= k < |a|
      ensures a[k].requestId != g.requestId
    {
      assert a[k].requestId in IdSet(other);
    }
    assert g.requestId in IdSet(q);
  }

  /** A group the scan did not abort is kept, provided it was not wanted. */
  lemma KeptStays(q: seq<SequenceGroup>, ids: set<string>)
    ensures var r := AbortScan(q, ids);
      forall k :: 0 <= k < |q| && q[k].requestId !in ids ==> q[k] in r.1
  {
    var r := AbortScan(q, ids);
    AbortScanMerge(q, ids);
    forall k | 0 <= k < |q| && q[k].requestId !in ids
      ensures q[k] in r.1
    {
      InterleavesIn(q, r.1, r.0, [], k);
    }
  }

  /** Aborting every request the queues hold, each held once, empties them. */
  lemma AbortAll<S>(ops: BlockManagerOps<S>, q: Queues<S>, ids: set<string>)
    requires UniqueRequests(q)
    requires IdSet(q.waiting) <= ids && IdSet(q.running) <= ids && IdSet(q.swapped) <= ids
    ensures var q' := AbortSpec(ops, q, ids).0;
      q'.waiting == [] && q'.running == [] && q'.swapped == []
  {
    AbortExact(ops, q, ids);
    var (a1, k1, ids1) := AbortScan(q.waiting, ids);
    var (a2, k2, ids2) := AbortScan(q.running, ids1);
    var (a3, k3, ids3) := AbortScan(q.swapped, ids2);
    AbortScanMerge(q.waiting, ids);
    AbortScanMerge(q.running, ids1);
    AbortScanMerge(q.swapped, ids2);
  }

  /** The running groups that are not finished, in order. */
  function Unfinished(q: seq<SequenceGroup>): (r: seq<SequenceGroup>)
    ensures forall k :: 0 <= k < |r| ==> !r[k].IsFinished() && r[k] in q
    ensures forall k :: 0 <= k < |q| && !q[k].IsFinished() ==> q[k] in r
  {
    if q == [] then []
    else
      var rest := Unfinished(q[1..]);
      assert forall k :: 1 <= k < |q| ==> q[k] == q[1..][k - 1];
      if q[0].IsFinished() then rest else [q[0]] + rest
  }

  /** The decode part of _schedule, run with its loops. */
  method RunDecode<S>(cfg: SchedulerConfig, ops: BlockManagerOps<S>, policy: seq<SequenceGroup> -> seq<SequenceGroup>,
                      q: Queues<S>) returns (res: Result<(Queues<S>, SchedulerOutputs), SchedulerError>)
    ensures res == Decode(cfg, ops, policy, q)
  {
    var st0 := ReserveStart(policy, q);
    var reserved := RunReserve(ops, st0);
    if reserved.Err? {
      return Err(reserved.error);
    }
    var st := reserved.value;
    var swapped := policy(st.swapped);
    if st.preempted == [] {
      ReserveAllGrown(ops, st0);
      var r := RunSwapIn(cfg, ops, SwapRun(swapped, st.done, st.bm, SumMaxRunning(st.done), LorasOf(cfg, st.done),
                                           map[], st.copies, []));
      var out := MakeOutputs(r.running, false, NumRunningSeqs(r.running), r.swapIn, st.swapOut, r.copies, []);
      return Ok((Queues(st.waiting, r.running, ExtendLeft(r.swapped, r.leftover), r.bm), out));
    }
    var out := MakeOutputs(st.done, false, NumRunningSeqs(st.done), map[], st.swapOut, st.copies, []);
    return Ok((Queues(st.waiting, st.done, swapped, st.bm), out));
  }

  /**
   * The Scheduler: its configuration, block manager operations and priority policy are
   * fixed; the block manager's state and the three queues change.
   */
  class Scheduler<S> {
    const cfg: SchedulerConfig
    const ops: BlockManagerOps<S>
    const policy: seq<SequenceGroup> -> seq<SequenceGroup>
    var blockManager: S
    var waiting: seq<SequenceGroup>
    var running: seq<SequenceGroup>
    var swapped: seq<SequenceGroup>

    /** The queues and the block manager's state. */
    function State(): Queues<S>
      reads this
    {
      Queues(waiting, running, swapped, blockManager)
    }

    /** A scheduler with empty queues over a fresh block manager. */
    constructor(cfg: SchedulerConfig, ops: BlockManagerOps<S>, policy: seq<SequenceGroup> -> seq<SequenceGroup>, bm: S)
      ensures this.cfg == cfg && this.ops == ops && this.policy == policy && blockManager == bm
      ensures waiting == [] && running == [] && swapped == []
    {
      this.cfg := cfg;
      this.ops := ops;
      this.policy := policy;
      blockManager := bm;
      waiting, running, swapped := [], [], [];
    }

    /** add_seq_group: the group joins the back of waiting. */
    method AddSeqGroup(g: SequenceGroup)
      modifies this
      ensures waiting == old(waiting) + [g] && running == old(running) && swapped == old(swapped)
      ensures blockManager == old(blockManager)
      ensures GetNumUnfinishedSeqGroups() == old(GetNumUnfinishedSeqGroups()) + 1
    {
      waiting := waiting + [g];
    }

    /** get_num_unfinished_seq_groups: the number of requests the queues hold. */
    function GetNumUnfinishedSeqGroups(): (n: nat)
      reads this
      ensures n == |Ids(State())|
    {
      |waiting| + |running| + |swapped|
    }

    /** has_unfinished_seqs: some queue is not empty. */
    function HasUnfinishedSeqs(): (b: bool)
      reads this
      ensures b <==> GetNumUnfinishedSeqGroups() > 0
    {
      waiting != [] || running != [] || swapped != []
    }

    /**
     * abort_seq_group: each queue in turn is scanned, its aborted groups removed and their
     * unfinished sequences freed; the aborted groups are handed back as they end up.
     */
    method AbortSeqGroup(requestIds: set<string>) returns (aborted: seq<SequenceGroup>)
      modifies this
      ensures (State(), aborted) == AbortSpec(ops, old(State()), requestIds)
    {
      var a1, k1, ids1 := AbortQueue(waiting, requestIds);
      waiting := k1;
      blockManager := FreeAborted(ops, blockManager, a1);
      var a2, k2, ids2 := AbortQueue(running, ids1);
      running := k2;
      blockManager := FreeAborted(ops, blockManager, a2);
      var a3, k3, ids3 := AbortQueue(swapped, ids2);
      swapped := k3;
      blockManager := FreeAborted(ops, blockManager, a3);
      var all := a1 + a2 + a3;
      aborted := seq(|all|, k requires 0 <= k < |all| => AbortStatuses(all[k]));
    }

    /** free_finished_seq_groups: finished groups leave running. */
    method FreeFinishedSeqGroups()
      modifies this
      ensures running == Unfinished(old(running))
      ensures waiting == old(waiting) && swapped == old(swapped) && blockManager == old(blockManager)
    {
      running := Unfinished(running);
    }

    /**
     * _schedule: the queues and the block manager move as ScheduleSpec says and the outputs
     * are its outputs; on an exception the state is left as it was.
     */
    method Schedule() returns (res: Result<SchedulerOutputs, SchedulerError>)
      modifies this
      ensures var spec := ScheduleSpec(cfg, ops, policy, old(State()));
        match spec
        case Ok(v) => State() == v.0 && res == Ok(v.1)
        case Err(e) => State() == old(State()) && res == Err(e)
    {
      var q := State();
      if swapped == [] {
        var prompts := RunPrompts(cfg, ops, PromptStart(cfg, q));
        if prompts.Err? {
          return Err(prompts.error);
        }
        var r := prompts.value;
        var q1 := Queues(ExtendLeft(r.waiting, r.leftover), r.running, swapped, r.bm);
        if r.scheduled != [] || r.ignored != [] {
          waiting, running, blockManager := q1.waiting, q1.running, q1.bm;
          return Ok(MakeOutputs(r.scheduled, true, PaddedTokens(r.seqLens), map[], map[], map[], r.ignored));
        }
        q := q1;
      }
      var decoded := RunDecode(cfg, ops, policy, q);
      if decoded.Err? {
        return Err(decoded.error);
      }
      var (q', out) := decoded.value;
      waiting, running, swapped, blockManager := q'.waiting, q'.running, q'.swapped, q'.bm;
      return Ok(out);
    }
  }
}
