/**
 * The view of vllm/sequence.py that the block managers and the scheduler rely on.  The
 * Sequence and SequenceGroup classes are not part of this model: a sequence is its id,
 * status, token ids and number of logical blocks, and a group is its request id, its
 * sequences in insertion order, its LoRA id and the number of sequences it may run at once.
 */
module Sequences {

  datatype SeqStatus =
    | WAITING
    | RUNNING
    | SWAPPED
    | FINISHED_STOPPED
    | FINISHED_LENGTH_CAPPED
    | FINISHED_ABORTED
    | FINISHED_IGNORED
  {
    /** SequenceStatus.is_finished: the four FINISHED_* states. */
    predicate IsFinished()
    {
      FINISHED_STOPPED? || FINISHED_LENGTH_CAPPED? || FINISHED_ABORTED? || FINISHED_IGNORED?
    }
  }

  datatype Sequence = Sequence(seqId: int, status: SeqStatus, tokenIds: seq<int>, numLogicalBlocks: nat)
  {
    /** get_len: the number of tokens. */
    function GetLen(): nat
    {
      |tokenIds|
    }
  }

  datatype SequenceGroup = SequenceGroup(requestId: string, seqs: seq<Sequence>, loraIntId: int,
                                         maxNumRunningSeqs: nat)
  {
    /** get_seqs(status): the sequences with that status, in order. */
    function GetSeqs(status: SeqStatus): (r: seq<Sequence>)
      ensures |r| <= |seqs|
      ensures forall k :: 0 <= k < |r| ==> r[k].status == status && r[k] in seqs
      ensures forall s :: s in seqs && s.status == status ==> s in r
    {
      WithStatus(seqs, status)
    }

    /** num_seqs(status). */
    function NumSeqs(status: SeqStatus): (n: nat)
      ensures n == |GetSeqs(status)|
    {
      |WithStatus(seqs, status)|
    }

    /** is_finished: every sequence is finished. */
    predicate IsFinished()
    {
      forall k :: 0 <= k < |seqs| ==> seqs[k].status.IsFinished()
    }

    /** The group with each sequence's status replaced as `update` says. */
    function MapStatus(update: SeqStatus -> SeqStatus): (g: SequenceGroup)
      ensures g.requestId == requestId && g.loraIntId == loraIntId && g.maxNumRunningSeqs == maxNumRunningSeqs
      ensures |g.seqs| == |seqs|
      ensures forall k :: 0 <= k < |seqs| ==>
        g.seqs[k] == seqs[k].(status := update(seqs[k].status))
    {
      SequenceGroup(requestId, seq(|seqs|, k requires 0 <= k < |seqs| => seqs[k].(status := update(seqs[k].status))),
                    loraIntId, maxNumRunningSeqs)
    }
  }

  /** The sequences of `ss` whose status is `status`, in order. */
  function WithStatus(ss: seq<Sequence>, status: SeqStatus): (r: seq<Sequence>)
    ensures |r| <= |ss|
    ensures forall k :: 0 <= k < |r| ==> r[k].status == status && r[k] in ss
    ensures forall s :: s in ss && s.status == status ==> s in r
  {
    if ss == [] then []
    else (if ss[0].status == status then [ss[0]] else []) + WithStatus(ss[1..], status)
  }

  /** The ids of a list of sequences. */
  function SeqIds(ss: seq<Sequence>): (ids: set<int>)
    ensures forall k :: 0 <= k < |ss| ==> ss[k].seqId in ids
    ensures forall i :: i in ids ==> exists k :: 0 <= k < |ss| && ss[k].seqId == i
  {
    set k | 0 <= k < |ss| :: ss[k].seqId
  }

  /** No two sequences share an id (a group keeps its sequences by id). */
  predicate DistinctIds(ss: seq<Sequence>)
  {
    forall i, j :: 0 <= i < j < |ss| ==> ss[i].seqId != ss[j].seqId
  }

  /** Selecting by status keeps the ids distinct. */
  lemma {:induction false} WithStatusDistinct(ss: seq<Sequence>, status: SeqStatus)
    requires DistinctIds(ss)
    ensures DistinctIds(WithStatus(ss, status))
    decreases |ss|
  {
    if ss != [] {
      DistinctTail(ss);
      WithStatusDistinct(ss[1..], status);
      if ss[0].status == status {
        HeadNotInTail(ss, status);
        ConsDistinct(ss[0], WithStatus(ss[1..], status));
      } else {
        assert WithStatus(ss, status) == [] + WithStatus(ss[1..], status);
      }
    }
  }

  lemma DistinctTail(ss: seq<Sequence>)
    requires ss != [] && DistinctIds(ss)
    ensures DistinctIds(ss[1..])
  {
    forall i, j | 0 <= i < j < |ss| - 1
      ensures ss[1..][i].seqId != ss[1..][j].seqId
    {
      assert ss[1..][i] == ss[i + 1] && ss[1..][j] == ss[j + 1];
    }
  }

  /** A sequence whose id is new, in front of distinct ones, keeps them distinct. */
  lemma ConsDistinct(x: Sequence, tail: seq<Sequence>)
    requires DistinctIds(tail) && forall k :: 0 <= k < |tail| ==> tail[k].seqId != x.seqId
    ensures DistinctIds([x] + tail)
  {
    var r := [x] + tail;
    forall i, j | 0 <= i < j < |r|
      ensures r[i].seqId != r[j].seqId
    {
      assert r[j] == tail[j - 1];
      if i > 0 {
        assert r[i] == tail[i - 1];
      }
    }
  }

  /** A sequence's id is not among the selected ones after it. */
  lemma HeadNotInTail(ss: seq<Sequence>, status: SeqStatus)
    requires ss != [] && DistinctIds(ss)
    ensures forall k :: 0 <= k < |WithStatus(ss[1..], status)| ==> WithStatus(ss[1..], status)[k].seqId != ss[0].seqId
  {
    var tail := WithStatus(ss[1..], status);
    forall k | 0 <= k < |tail|
      ensures tail[k].seqId != ss[0].seqId
    {
      var m :| 0 <= m < |ss[1..]| && ss[1..][m] == tail[k];
      assert ss[m + 1] == tail[k];
    }
  }

  /** The tables after each sequence of `ss` is given its own copy of table `t`. */
  function Assigned<T>(tables: map<int, T>, ss: seq<Sequence>, t: T): (r: map<int, T>)
    ensures forall id :: id in r <==> id in tables || id in SeqIds(ss)
    ensures forall id :: id in r ==> r[id] == if id in SeqIds(ss) then t else tables[id]
  {
    if ss == [] then tables
    else
      var init := ss[..|ss| - 1];
      assert SeqIds(ss) == SeqIds(init) + {ss[|ss| - 1].seqId} by {
        forall id | id in SeqIds(ss)
          ensures id in SeqIds(init) + {ss[|ss| - 1].seqId}
        {
          var k :| 0 <= k < |ss| && ss[k].seqId == id;
          if k < |ss| - 1 {
            assert init[k] == ss[k];
          }
        }
        forall id | id in SeqIds(init)
          ensures id in SeqIds(ss)
        {
          var k :| 0 <= k < |init| && init[k].seqId == id;
          assert ss[k] == init[k];
        }
      }
      Assigned(tables, init, t)[ss[|ss| - 1].seqId := t]
  }
}
