/** The lock table as a value: what each operation on it means, and the wait-for graph
    as a function of the queues. */
module LockTables {
  import opened Graphs
  import opened LockQueues

  datatype Status = Unlocked | ReaderLock | WriterLock

  /** Per record: lock status, number of granted readers, wait queue.  Per thread: the
      stored out-edges of the wait-for graph.  Thread 0 is not used. */
  datatype Table = Table(status: seq<Status>, readers: seq<nat>, queues: seq<Queue>, graph: Graph)

  ghost predicate Shape(T: Table) {
    && |T.status| == |T.readers| == |T.queues|
    && forall r :: 0 <= r < |T.queues| ==> QueueOk(T.queues[r], |T.graph|)
  }

  ghost predicate QueueOk(q: Queue, n: nat) {
    && Distinct(q)
    && forall p :: 0 <= p < |q| ==> 1 <= q[p].tid < n && q[p].phase in {Read, FirstWrite, SecondWrite}
  }

  /** Thread `t` is blocked in the queue of record `r`. */
  ghost predicate WaitsAt(T: Table, t: nat, r: nat) {
    r < |T.queues| && Blk(T.queues[r], t) != {}
  }

  /** The stored graph is the blocker function of the queues, and a thread is blocked in
      at most one queue. */
  ghost predicate GraphExact(T: Table) {
    && (forall t: nat, r: nat :: t < |T.graph| && WaitsAt(T, t, r) ==> T.graph[t] == Blk(T.queues[r], t))
    && (forall t: nat :: t < |T.graph| && T.graph[t] != {} ==> exists r: nat :: WaitsAt(T, t, r))
    && (forall t: nat, r1: nat, r2: nat ::
          t < |T.graph| && WaitsAt(T, t, r1) && WaitsAt(T, t, r2) ==> r1 == r2)
  }

  ghost predicate TableInv(T: Table) {
    Shape(T) && GraphExact(T)
  }

  /** All threads that `t` waits for, over all queues. */
  ghost function WaitFor(queues: seq<Queue>, t: nat): set<nat> {
    set r, u | 0 <= r < |queues| && u in Blk(queues[r], t) :: u
  }

  /** The incrementally maintained graph equals the function of the queues. */
  lemma GraphIsWaitFor(T: Table, t: nat)
    requires TableInv(T) && t < |T.graph|
    ensures T.graph[t] == WaitFor(T.queues, t)
  {
    forall u | u in WaitFor(T.queues, t) ensures u in T.graph[t] {
      var r :| 0 <= r < |T.queues| && u in Blk(T.queues[r], t);
      assert WaitsAt(T, t, r);
    }
    if T.graph[t] != {} {
      var r: nat :| WaitsAt(T, t, r);
      assert forall u :: u in Blk(T.queues[r], t) ==> u in WaitFor(T.queues, t);
    }
  }

  /** Every edge leads to another existing thread, never to thread 0. */
  lemma GraphTargets(T: Table, t: nat, u: nat)
    requires TableInv(T) && t < |T.graph| && u in T.graph[t]
    ensures 1 <= u < |T.graph| && u != t && t != 0
  {
    var r: nat :| WaitsAt(T, t, r);
    var m, p := BlkWitness(T.queues[r], t, u);
    assert QueueOk(T.queues[r], |T.graph|);
  }

  // ----- the operations -----

  datatype Outcome = Granted | Waiting | Deadlock

  /** The request joins the queue, and the graph gets the edges to its blockers. */
  ghost function Enqueue(T: Table, t: nat, r: nat, ph: Phase): Table
    requires r < |T.queues| && t < |T.graph|
  {
    var q := T.queues[r] + [Waiter(t, ph)];
    T.(queues := T.queues[r := q], graph := T.graph[t := Blk(q, t)])
  }

  ghost function Grant(T: Table, r: nat, ph: Phase): Table
    requires r < |T.status| == |T.readers|
  {
    if ph == Read then
      T.(readers := T.readers[r := T.readers[r] + 1], status := T.status[r := ReaderLock])
    else
      T.(status := T.status[r := WriterLock])
  }

  /** A request is granted when nobody blocks it, refused when waiting would close a
      cycle of the wait-for graph, and goes to sleep otherwise. */
  ghost function RequestOutcome(T: Table, t: nat, r: nat, ph: Phase): Outcome
    requires r < |T.queues| && t < |T.graph|
  {
    var T1 := Enqueue(T, t, r, ph);
    if Blk(T1.queues[r], t) == {} then Granted
    else if OnCycle(T1.graph, t) then Deadlock
    else Waiting
  }

  /** A refused request leaves no trace in the table. */
  ghost function Request(T: Table, t: nat, r: nat, ph: Phase): Table
    requires r < |T.queues| == |T.status| == |T.readers| && t < |T.graph|
  {
    match RequestOutcome(T, t, r, ph)
    case Granted => Grant(Enqueue(T, t, r, ph), r, ph)
    case Waiting => Enqueue(T, t, r, ph)
    case Deadlock => T
  }

  /** A woken thread looks again and takes the lock if nobody blocks it any more. */
  ghost function Resume(T: Table, t: nat, r: nat, ph: Phase): Table
    requires r < |T.queues| == |T.status| == |T.readers|
  {
    if Blk(T.queues[r], t) == {} then Grant(T, r, ph) else T
  }

  ghost function GraphWithout(g: Graph, q: Queue, t: nat): (h: Graph)
    ensures |h| == |g|
  {
    seq(|g|, x requires 0 <= x < |g| => if t in Blk(q, x) then g[x] - {t} else g[x])
  }

  /** Releasing removes the entry and every edge to it.  The record stays reader-locked
      only when the new head of the queue is a reader. */
  ghost function Unlock(T: Table, t: nat, r: nat): Table
    requires r < |T.queues| == |T.status| == |T.readers| && InQueue(T.queues[r], t)
  {
    var q := T.queues[r];
    var q' := RemoveAt(q, Pos(q, t));
    var reader := T.status[r] == ReaderLock;
    Table(
      T.status[r := if reader && q' != [] && q'[0].phase == Read then ReaderLock else Unlocked],
      T.readers[r := if reader && T.readers[r] > 0 then T.readers[r] - 1 else T.readers[r]],
      T.queues[r := q'],
      GraphWithout(T.graph, q, t))
  }

  /** Releasing signals exactly the threads whose last blocker it was. */
  ghost function Woken(T: Table, t: nat, r: nat): set<nat>
    requires r < |T.queues|
  {
    set x | 0 <= x < |T.graph| && Blk(T.queues[r], x) == {t}
  }

  // ----- what the operations keep -----

  /** One queue changes, and every out-edge set either stays or follows its new blockers. */
  lemma ReplaceQueue(T: Table, r0: nat, q': Queue, T': Table)
    requires TableInv(T) && r0 < |T.queues|
    requires T'.queues == T.queues[r0 := q'] && |T'.graph| == |T.graph|
    requires forall t: nat :: t < |T.graph| ==>
               || (Blk(q', t) == Blk(T.queues[r0], t) && T'.graph[t] == T.graph[t])
               || ((forall r: nat :: WaitsAt(T, t, r) ==> r == r0) && T'.graph[t] == Blk(q', t))
    ensures GraphExact(T')
  {
    forall t: nat, r: nat | t < |T'.graph| && WaitsAt(T', t, r) ensures T'.graph[t] == Blk(T'.queues[r], t) {
      assert r != r0 ==> WaitsAt(T, t, r);
      assert Blk(q', t) == Blk(T.queues[r0], t) ==> WaitsAt(T, t, r);
    }
    forall t: nat | t < |T'.graph| && T'.graph[t] != {} ensures exists r: nat :: WaitsAt(T', t, r) {
      if Blk(q', t) == Blk(T.queues[r0], t) && T'.graph[t] == T.graph[t] {
        var r: nat :| WaitsAt(T, t, r);
        assert WaitsAt(T', t, r);
      } else {
        assert WaitsAt(T', t, r0);
      }
    }
    forall t: nat, r1: nat, r2: nat | t < |T'.graph| && WaitsAt(T', t, r1) && WaitsAt(T', t, r2)
      ensures r1 == r2
    {
      assert r1 != r0 ==> WaitsAt(T, t, r1);
      assert r2 != r0 ==> WaitsAt(T, t, r2);
      assert Blk(q', t) == Blk(T.queues[r0], t) && r1 == r0 ==> WaitsAt(T, t, r0);
      assert Blk(q', t) == Blk(T.queues[r0], t) && r2 == r0 ==> WaitsAt(T, t, r0);
    }
  }

  ghost predicate CanRequest(T: Table, t: nat, r: nat, ph: Phase) {
    && TableInv(T) && r < |T.queues| && 1 <= t < |T.graph|
    && !InQueue(T.queues[r], t) && T.graph[t] == {}
    && ph in {Read, FirstWrite, SecondWrite}
  }

  lemma EnqueueKeeps(T: Table, t: nat, r: nat, ph: Phase)
    requires CanRequest(T, t, r, ph)
    ensures TableInv(Enqueue(T, t, r, ph))
  {
    var q := T.queues[r];
    var e := Waiter(t, ph);
    var T' := Enqueue(T, t, r, ph);
    assert QueueOk(q, |T.graph|);
    PushDistinct(q, e);
    forall x: nat | x < |T.graph| && x != t ensures Blk(q + [e], x) == Blk(q, x) { PushBlk(q, e, x); }
    forall r2: nat ensures !WaitsAt(T, t, r2) { }
    ReplaceQueue(T, r, q + [e], T');
    forall r2 | 0 <= r2 < |T'.queues| ensures QueueOk(T'.queues[r2], |T'.graph|) {
      if r2 == r {
        forall p | 0 <= p < |q + [e]|
          ensures 1 <= (q + [e])[p].tid < |T.graph| && (q + [e])[p].phase in {Read, FirstWrite, SecondWrite}
        {
          if p < |q| { assert (q + [e])[p] == q[p]; }
        }
      } else { assert QueueOk(T.queues[r2], |T.graph|); }
    }
  }

  lemma GrantKeeps(T: Table, r: nat, ph: Phase)
    requires TableInv(T) && r < |T.queues|
    ensures TableInv(Grant(T, r, ph))
  {
    var T' := Grant(T, r, ph);
    assert forall t: nat, r2: nat :: WaitsAt(T', t, r2) <==> WaitsAt(T, t, r2);
  }

  lemma UnlockKeeps(T: Table, t: nat, r: nat)
    requires TableInv(T) && r < |T.queues| && InQueue(T.queues[r], t)
    requires Blk(T.queues[r], t) == {}
    ensures TableInv(Unlock(T, t, r))
    ensures SubGraph(Unlock(T, t, r).graph, T.graph)
    ensures forall x: nat :: x != t ==> Blk(Unlock(T, t, r).queues[r], x) == Blk(T.queues[r], x) - {t}
    ensures Blk(Unlock(T, t, r).queues[r], t) == {}
  {
    var q := T.queues[r];
    var d := Pos(q, t);
    var q' := RemoveAt(q, d);
    var T' := Unlock(T, t, r);
    assert QueueOk(q, |T.graph|);
    FreeIffUnblocked(q, d);
    RemoveDistinct(q, d);
    forall x: nat | x != t ensures Blk(q', x) == Blk(q, x) - {t} { RemoveBlk(q, d, x); }
    forall x: nat | x < |T.graph|
      ensures || (Blk(q', x) == Blk(q, x) && T'.graph[x] == T.graph[x])
              || ((forall r2: nat :: WaitsAt(T, x, r2) ==> r2 == r) && T'.graph[x] == Blk(q', x))
    {
      if t in Blk(q, x) { assert WaitsAt(T, x, r); }
    }
    ReplaceQueue(T, r, q', T');
    forall r2 | 0 <= r2 < |T'.queues| ensures QueueOk(T'.queues[r2], |T'.graph|) {
      if r2 == r {
        forall p | 0 <= p < |q'| ensures 1 <= q'[p].tid < |T.graph| && q'[p].phase in {Read, FirstWrite, SecondWrite} {
          assert q'[p] == q[Up(d, p)];
        }
      } else { assert QueueOk(T.queues[r2], |T.graph|); }
    }
  }

  /** Granting, queueing after a failed cycle search, and releasing all keep the graph
      free of cycles. */
  lemma RequestAcyclic(T: Table, t: nat, r: nat, ph: Phase)
    requires CanRequest(T, t, r, ph) && Acyclic(T.graph)
    ensures TableInv(Request(T, t, r, ph)) && Acyclic(Request(T, t, r, ph).graph)
  {
    var T1 := Enqueue(T, t, r, ph);
    EnqueueKeeps(T, t, r, ph);
    match RequestOutcome(T, t, r, ph)
    case Granted =>
      GrantKeeps(T1, r, ph);
      assert T1.graph == T.graph;
    case Waiting =>
      AcyclicExtend(T.graph, t, Blk(T1.queues[r], t));
    case Deadlock =>
  }
}
