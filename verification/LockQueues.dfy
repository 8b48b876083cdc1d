/** The FIFO wait queue of one record, and who blocks whom in it. */
module LockQueues {

  /** The phases of a transaction; a queue entry carries the phase of its request. */
  datatype Phase = Invalid | Read | FirstWrite | SecondWrite | Commit

  datatype Waiter = Waiter(tid: nat, phase: Phase)

  type Queue = seq<Waiter>

  ghost predicate Distinct(q: Queue) {
    forall a, b :: 0 <= a < b < |q| ==> q[a].tid != q[b].tid
  }

  ghost predicate InQueue(q: Queue, t: nat) {
    exists p :: 0 <= p < |q| && q[p].tid == t
  }

  ghost predicate NoWriter(q: Queue, lo: int, hi: int) {
    forall x :: lo <= x < hi && 0 <= x < |q| ==> q[x].phase == Read
  }

  /** The entry at `m` blocks the entry at `p`.  A reader waits for the nearest writer
      ahead of it; a writer waits for the writer directly ahead, or for every reader
      of the run of readers directly ahead. */
  ghost predicate Blocks(q: Queue, m: int, p: int) {
    && 0 <= m < p < |q|
    && if q[m].phase != Read
       then if q[p].phase == Read then NoWriter(q, m + 1, p) else m + 1 == p
       else q[p].phase != Read && NoWriter(q, m, p)
  }

  /** The threads that thread `t` waits for in this queue: a function of the queue. */
  ghost function Blk(q: Queue, t: nat): set<nat> {
    set m, p | 0 <= m < |q| && 0 <= p < |q| && q[p].tid == t && Blocks(q, m, p) :: q[m].tid
  }

  /** What it takes to be free to hold the lock: a writer is at the head, a reader has
      no writer ahead. */
  ghost predicate Free(q: Queue, p: nat) {
    p < |q| && if q[p].phase == Read then NoWriter(q, 0, p) else p == 0
  }

  ghost function Pos(q: Queue, t: nat): (p: nat)
    requires InQueue(q, t)
    ensures p < |q| && q[p].tid == t
  {
    var p: nat :| p < |q| && q[p].tid == t;
    p
  }

  ghost function RemoveAt(q: Queue, d: nat): (q': Queue)
    requires d < |q|
    ensures |q'| == |q| - 1
    ensures forall x :: 0 <= x < |q'| ==> q'[x] == q[Up(d, x)]
  {
    q[..d] + q[d + 1..]
  }

  /** Where position `x` of the queue without entry `d` was before the removal. */
  function Up(d: nat, x: int): int {
    if x < d then x else x + 1
  }

  lemma BlkMember(q: Queue, m: int, p: int)
    requires Blocks(q, m, p)
    ensures q[m].tid in Blk(q, q[p].tid)
  { }

  lemma BlkWitness(q: Queue, t: nat, u: nat) returns (m: int, p: int)
    requires u in Blk(q, t)
    ensures Blocks(q, m, p) && q[m].tid == u && q[p].tid == t
    ensures InQueue(q, u) && InQueue(q, t)
    ensures Distinct(q) ==> u != t
  {
    m, p :| 0 <= m < |q| && 0 <= p < |q| && q[p].tid == t && Blocks(q, m, p) && q[m].tid == u;
  }

  /** The writer closest in front of position `p`. */
  lemma {:induction false} NearestWriter(q: Queue, p: nat, hi: nat) returns (m: nat)
    requires hi <= p <= |q|
    requires !NoWriter(q, 0, hi) && NoWriter(q, hi, p)
    ensures m < hi && q[m].phase != Read && NoWriter(q, m + 1, p)
    decreases hi
  {
    if q[hi - 1].phase != Read {
      m := hi - 1;
    } else {
      m := NearestWriter(q, p, hi - 1);
    }
  }

  /** Having no blockers is the same as being free to hold the lock. */
  lemma FreeIffUnblocked(q: Queue, p: nat)
    requires Distinct(q) && p < |q|
    ensures Blk(q, q[p].tid) == {} <==> Free(q, p)
  {
    if Free(q, p) {
      if u :| u in Blk(q, q[p].tid) {
        var m, p' := BlkWitness(q, q[p].tid, u);
      }
    } else if q[p].phase == Read {
      var m := NearestWriter(q, p, p);
      BlkMember(q, m, p);
    } else {
      assert Blocks(q, p - 1, p);
      BlkMember(q, p - 1, p);
    }
  }

  lemma PushNoWriter(q: Queue, e: Waiter, lo: int, hi: int)
    requires hi <= |q|
    ensures NoWriter(q + [e], lo, hi) <==> NoWriter(q, lo, hi)
  {
    var q' := q + [e];
    if NoWriter(q', lo, hi) {
      forall x | lo <= x < hi && 0 <= x < |q| ensures q[x].phase == Read { assert q'[x] == q[x]; }
    }
    if NoWriter(q, lo, hi) {
      forall x | lo <= x < hi && 0 <= x < |q'| ensures q'[x].phase == Read { assert q'[x] == q[x]; }
    }
  }

  lemma PushBlk(q: Queue, e: Waiter, x: nat)
    requires !InQueue(q, e.tid) && x != e.tid
    ensures Blk(q + [e], x) == Blk(q, x)
  {
    var q' := q + [e];
    assert forall x :: 0 <= x < |q| ==> q'[x] == q[x];
    forall m, p | 0 <= m < |q| && 0 <= p < |q| ensures Blocks(q', m, p) <==> Blocks(q, m, p) {
      PushNoWriter(q, e, m, p);
      PushNoWriter(q, e, m + 1, p);
    }
    forall u | u in Blk(q', x) ensures u in Blk(q, x) {
      var m, p := BlkWitness(q', x, u);
      BlkMember(q, m, p);
    }
    forall u | u in Blk(q, x) ensures u in Blk(q', x) {
      var m, p := BlkWitness(q, x, u);
      BlkMember(q', m, p);
    }
  }

  lemma PushDistinct(q: Queue, e: Waiter)
    requires Distinct(q) && !InQueue(q, e.tid)
    ensures Distinct(q + [e])
    ensures forall u :: InQueue(q + [e], u) <==> InQueue(q, u) || u == e.tid
  {
    var q' := q + [e];
    forall u ensures InQueue(q', u) <==> InQueue(q, u) || u == e.tid {
      if InQueue(q, u) { var p :| 0 <= p < |q| && q[p].tid == u; assert q'[p].tid == u; }
      if u == e.tid { assert q'[|q|].tid == u; }
    }
  }

  /** Taking a free entry out of the queue shifts the blocking relation. */
  lemma ShiftBlocks(q: Queue, d: nat, m: int, p: int)
    requires Free(q, d)
    requires 0 <= m < |q| - 1 && 0 <= p < |q| - 1
    ensures Blocks(RemoveAt(q, d), m, p) <==> Blocks(q, Up(d, m), Up(d, p))
  {
    var q' := RemoveAt(q, d);
    if m < p {
      assert q'[m] == q[Up(d, m)] && q'[p] == q[Up(d, p)];
      ShiftNoWriter(q, d, m, p);
      ShiftNoWriter(q, d, m + 1, p);
      assert NoWriter(q, Up(d, m + 1), Up(d, p)) <==> NoWriter(q, Up(d, m) + 1, Up(d, p));
    }
  }

  lemma ShiftNoWriter(q: Queue, d: nat, lo: int, hi: int)
    requires Free(q, d) && 0 <= lo && hi < |q|
    ensures NoWriter(RemoveAt(q, d), lo, hi) <==> NoWriter(q, Up(d, lo), Up(d, hi))
  {
    var q' := RemoveAt(q, d);
    if NoWriter(q', lo, hi) {
      forall x | Up(d, lo) <= x < Up(d, hi) && 0 <= x < |q| ensures q[x].phase == Read {
        if x != d {
          var y := if x < d then x else x - 1;
          assert q'[y] == q[x];
        } else {
          assert d > 0 ==> q[d].phase == Read;
        }
      }
    }
    if NoWriter(q, Up(d, lo), Up(d, hi)) {
      forall y | lo <= y < hi && 0 <= y < |q'| ensures q'[y].phase == Read {
        assert q'[y] == q[Up(d, y)];
      }
    }
  }

  lemma RemoveBlkSub(q: Queue, d: nat, x: nat, u: nat)
    requires Distinct(q) && Free(q, d) && u in Blk(RemoveAt(q, d), x)
    ensures u in Blk(q, x) && u != q[d].tid
  {
    var m, p := BlkWitness(RemoveAt(q, d), x, u);
    ShiftBlocks(q, d, m, p);
    BlkMember(q, Up(d, m), Up(d, p));
  }

  lemma RemoveBlkSup(q: Queue, d: nat, x: nat, u: nat)
    requires Distinct(q) && Free(q, d) && x != q[d].tid && u != q[d].tid && u in Blk(q, x)
    ensures u in Blk(RemoveAt(q, d), x)
  {
    var m, p := BlkWitness(q, x, u);
    var m', p' := if m < d then m else m - 1, if p < d then p else p - 1;
    ShiftBlocks(q, d, m', p');
    BlkMember(RemoveAt(q, d), m', p');
  }

  /** Removing a free entry takes its thread out of everybody's blockers and changes
      nothing else. */
  lemma RemoveBlk(q: Queue, d: nat, x: nat)
    requires Distinct(q) && Free(q, d) && x != q[d].tid
    ensures Blk(RemoveAt(q, d), x) == Blk(q, x) - {q[d].tid}
  {
    forall u | u in Blk(RemoveAt(q, d), x) ensures u in Blk(q, x) - {q[d].tid} { RemoveBlkSub(q, d, x, u); }
    forall u | u in Blk(q, x) - {q[d].tid} ensures u in Blk(RemoveAt(q, d), x) { RemoveBlkSup(q, d, x, u); }
  }

  lemma RemoveDistinct(q: Queue, d: nat)
    requires Distinct(q) && d < |q|
    ensures Distinct(RemoveAt(q, d))
    ensures forall u :: InQueue(RemoveAt(q, d), u) <==> InQueue(q, u) && u != q[d].tid
    ensures Blk(RemoveAt(q, d), q[d].tid) == {}
  {
    var q' := RemoveAt(q, d);
    forall u ensures InQueue(q', u) <==> InQueue(q, u) && u != q[d].tid {
      if InQueue(q, u) && u != q[d].tid {
        var p :| 0 <= p < |q| && q[p].tid == u;
        assert q'[if p < d then p else p - 1].tid == u;
      }
      if InQueue(q', u) {
        var p :| 0 <= p < |q'| && q'[p].tid == u;
        assert q[Up(d, p)].tid == u;
      }
    }
    if u :| u in Blk(q', q[d].tid) {
      var m, p := BlkWitness(q', q[d].tid, u);
    }
  }
}
