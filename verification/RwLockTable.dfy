/** The lock table as the program runs it: loops over the wait queues that add and remove
    single edges.  Each method is one stretch of code under the global mutex, cut where
    the program waits on a condition variable; each is proved to do what the value-level
    operation of `LockTables` says. */
module RwLockTables {
  import opened Graphs
  import opened LockQueues
  import opened LockTables

  ghost function TidsIn(q: Queue, lo: nat, hi: nat): set<nat> {
    set x | lo <= x < hi && x < |q| :: q[x].tid
  }

  lemma TidsInStep(q: Queue, lo: nat, hi: nat)
    requires 0 < lo <= hi <= |q|
    ensures TidsIn(q, lo - 1, hi) == TidsIn(q, lo, hi) + {q[lo - 1].tid}
  {
    assert q[lo - 1].tid in TidsIn(q, lo - 1, hi);
  }

  lemma TidsInExtend(q: Queue, lo: nat, hi: nat)
    requires lo <= hi < |q|
    ensures TidsIn(q, lo, hi + 1) == TidsIn(q, lo, hi) + {q[hi].tid}
  {
    assert q[hi].tid in TidsIn(q, lo, hi + 1);
  }

  /** A reader waits for the nearest writer ahead and nobody else. */
  lemma ReaderBlk(q: Queue, m: nat, p: nat)
    requires Distinct(q) && m < p < |q| && q[p].phase == Read
    requires q[m].phase != Read && NoWriter(q, m + 1, p)
    ensures Blk(q, q[p].tid) == {q[m].tid}
  {
    BlkMember(q, m, p);
    forall u | u in Blk(q, q[p].tid) ensures u == q[m].tid {
      var m', p' := BlkWitness(q, q[p].tid, u);
    }
  }

  /** A writer behind a run of readers waits for the whole run. */
  lemma WriterBlkRun(q: Queue, a: nat, p: nat)
    requires Distinct(q) && a < p < |q| && q[p].phase != Read
    requires NoWriter(q, a, p) && (a == 0 || q[a - 1].phase != Read)
    ensures Blk(q, q[p].tid) == TidsIn(q, a, p)
  {
    forall u | u in Blk(q, q[p].tid) ensures u in TidsIn(q, a, p) {
      var m, p' := BlkWitness(q, q[p].tid, u);
      assert q[p - 1].phase == Read;
    }
    forall u | u in TidsIn(q, a, p) ensures u in Blk(q, q[p].tid) {
      var x :| a <= x < p && x < |q| && q[x].tid == u;
      assert Blocks(q, x, p);
      BlkMember(q, x, p);
    }
  }

  lemma WriterBlkWriter(q: Queue, p: nat)
    requires Distinct(q) && 0 < p < |q| && q[p].phase != Read && q[p - 1].phase != Read
    ensures Blk(q, q[p].tid) == {q[p - 1].tid}
  {
    assert Blocks(q, p - 1, p);
    BlkMember(q, p - 1, p);
    forall u | u in Blk(q, q[p].tid) ensures u == q[p - 1].tid {
      var m, p' := BlkWitness(q, q[p].tid, u);
    }
  }

  /** Only the first writer behind a granted reader waits for that reader. */
  lemma ReaderUnlockEdges(q: Queue, d: nat, w: nat)
    requires Distinct(q) && Free(q, d) && q[d].phase == Read
    requires d < w <= |q| && NoWriter(q, d, w) && (w < |q| ==> q[w].phase != Read)
    ensures forall x :: q[d].tid in Blk(q, x) <==> w < |q| && x == q[w].tid
    ensures w < |q| ==> (Blk(q, q[w].tid) == {q[d].tid} <==> d == 0 && w == 1)
  {
    assert NoWriter(q, 0, w);
    if w < |q| {
      WriterBlkRun(q, 0, w);
      assert q[d].tid in TidsIn(q, 0, w);
      assert q[0].tid in TidsIn(q, 0, w);
      assert d != 0 ==> q[0].tid != q[d].tid;
      if d == 0 && w > 1 { assert q[1].tid in TidsIn(q, 0, w) && q[1].tid != q[0].tid; }
    }
    forall x | q[d].tid in Blk(q, x) ensures w < |q| && x == q[w].tid {
      var m, p := BlkWitness(q, x, q[d].tid);
      assert m == d && q[p].phase != Read && NoWriter(q, d, p);
    }
  }

  /** Everybody who waits for the writer at the head waits for it alone: the writer
      behind it, or the readers behind it up to the next writer. */
  lemma WriterUnlockEdges(q: Queue, w: nat)
    requires Distinct(q) && 1 <= w <= |q| && q[0].phase != Read
    requires NoWriter(q, 1, w) && (w < |q| ==> q[w].phase != Read)
    ensures forall x :: q[0].tid in Blk(q, x) <==>
                        x in TidsIn(q, 1, w) || (w == 1 && w < |q| && x == q[1].tid)
    ensures forall x :: q[0].tid in Blk(q, x) ==> Blk(q, x) == {q[0].tid}
  {
    forall x | x in TidsIn(q, 1, w) ensures Blk(q, x) == {q[0].tid} {
      var p :| 1 <= p < w && p < |q| && q[p].tid == x;
      ReaderBlk(q, 0, p);
    }
    if w == 1 && w < |q| { WriterBlkWriter(q, 1); }
    forall x | q[0].tid in Blk(q, x)
      ensures x in TidsIn(q, 1, w) || (w == 1 && w < |q| && x == q[1].tid)
    {
      var m, p := BlkWitness(q, x, q[0].tid);
      if q[p].phase == Read {
      } else {
        assert p == 1;
      }
    }
  }

  class RwLockTable {
    var table: seq<Status>
    var readersCount: seq<nat>
    var queues: seq<Queue>
    const waitForGraph: DirectedGraph

    ghost function View(): Table
      reads this, waitForGraph
    {
      Table(table, readersCount, queues, EdgesOf(waitForGraph.nodes))
    }

    ghost predicate Valid()
      reads this, waitForGraph
    {
      waitForGraph.Valid() && TableInv(View())
    }

    /** `records` unlocked records with empty queues, and `threads` nodes without edges. */
    constructor (records: nat, threads: nat)
      ensures Valid() && fresh(waitForGraph)
      ensures table == seq(records, _ => Unlocked)
      ensures readersCount == seq(records, _ => 0)
      ensures queues == seq(records, _ => [])
      ensures EdgesOf(waitForGraph.nodes) == seq(threads, _ => {})
    {
      table := seq(records, _ => Unlocked);
      readersCount := seq(records, _ => 0);
      queues := seq(records, _ => []);
      waitForGraph := new DirectedGraph(threads);
      new;
      assert forall t: nat, r: nat :: !WaitsAt(View(), t, r);
    }

    /** The writer closest ahead of thread `tid`, or 0. */
    method FindAheadWriter(tid: nat, rid: nat) returns (writer: nat)
      requires rid < |queues| && QueueOk(queues[rid], waitForGraph.numberOfNodes) && InQueue(queues[rid], tid)
      ensures writer == 0 <==> NoWriter(queues[rid], 0, Pos(queues[rid], tid))
      ensures queues[rid][Pos(queues[rid], tid)].phase == Read ==>
                Blk(queues[rid], tid) == if writer == 0 then {} else {writer}
    {
      var q := queues[rid];
      ghost var p := Pos(q, tid);
      ghost var at := 0;
      writer := 0;
      var iter := 0;
      while q[iter].tid != tid
        invariant iter <= p
        invariant writer == 0 ==> NoWriter(q, 0, iter)
        invariant writer != 0 ==> at < iter && q[at].tid == writer && q[at].phase != Read && NoWriter(q, at + 1, iter)
        decreases p - iter
      {
        if q[iter].phase != Read {
          writer, at := q[iter].tid, iter;
        }
        iter := iter + 1;
      }
      if q[p].phase == Read {
        if writer != 0 { ReaderBlk(q, at, p); } else { FreeIffUnblocked(q, p); }
      }
    }

    /** The thread directly ahead of thread `tid`, or 0. */
    method FindAheadReaderOrWriter(tid: nat, rid: nat) returns (ahead: nat)
      requires rid < |queues| && QueueOk(queues[rid], waitForGraph.numberOfNodes) && InQueue(queues[rid], tid)
      ensures ahead == 0 <==> Pos(queues[rid], tid) == 0
      ensures ahead != 0 ==> ahead == queues[rid][Pos(queues[rid], tid) - 1].tid
      ensures queues[rid][Pos(queues[rid], tid)].phase != Read ==> (Blk(queues[rid], tid) == {} <==> ahead == 0)
    {
      var q := queues[rid];
      ghost var p := Pos(q, tid);
      ahead := 0;
      var iter := 0;
      while q[iter].tid != tid
        invariant iter <= p
        invariant ahead == if iter == 0 then 0 else q[iter - 1].tid
        decreases p - iter
      {
        ahead := q[iter].tid;
        iter := iter + 1;
      }
      FreeIffUnblocked(q, p);
    }

    /** Request of a read lock, up to the first wait. */
    method RdLock(tid: nat, rid: nat) returns (outcome: Outcome, cycle: seq<nat>, signalled: set<nat>)
      requires Valid() && CanRequest(View(), tid, rid, Read)
      modifies this, waitForGraph
      ensures Valid()
      ensures outcome == RequestOutcome(old(View()), tid, rid, Read)
      ensures View() == Request(old(View()), tid, rid, Read)
      ensures outcome == Deadlock ==> exists w ::
                signalled == {w} && Edge(Enqueue(old(View()), tid, rid, Read).graph, w, tid)
      ensures outcome != Deadlock ==> signalled == {}
      ensures outcome == Deadlock ==> |cycle| >= 2 && cycle[0] == tid
    {
      hide GraphExact;
      cycle, signalled := [], {};
      ghost var T1 := Enqueue(View(), tid, rid, Read);
      EnqueueKeeps(View(), tid, rid, Read);
      assert QueueOk(T1.queues[rid], |T1.graph|);
      queues := queues[rid := queues[rid] + [Waiter(tid, Read)]];
      var last := |queues[rid]| - 1;
      assert queues[rid][last].tid == tid;
      assert Pos(queues[rid], tid) == last;
      if |queues[rid]| == 1 {
        FreeIffUnblocked(queues[rid], 0);
      } else {
        var writer := FindAheadWriter(tid, rid);
        if writer != 0 {
          var m, p := BlkWitness(queues[rid], tid, writer);
          var _ := waitForGraph.AddEdge(tid, writer);
          assert View().graph[tid] == {writer};
          assert View() == T1;
          cycle := waitForGraph.GetCycle(tid);
          if |cycle| != 0 {
            signalled := RdLockClearAbort(tid, rid, old(View()));
            return Deadlock, cycle, signalled;
          }
          return Waiting, cycle, signalled;
        }
      }
      assert T1.graph == old(View()).graph;
      readersCount := readersCount[rid := readersCount[rid] + 1];
      table := table[rid := ReaderLock];
      assert View() == Grant(T1, rid, Read);
      GrantKeeps(T1, rid, Read);
      return Granted, cycle, signalled;
    }

    /** A read request after `pthread_cond_wait` returns: take the lock or sleep again. */
    method RdLockResume(tid: nat, rid: nat) returns (granted: bool)
      requires Valid() && rid < |queues| && InQueue(queues[rid], tid)
      requires queues[rid][Pos(queues[rid], tid)].phase == Read
      modifies this
      ensures Valid()
      ensures granted <==> Blk(old(queues[rid]), tid) == {}
      ensures View() == Resume(old(View()), tid, rid, Read)
    {
      assert QueueOk(View().queues[rid], |View().graph|);
      var writer := FindAheadWriter(tid, rid);
      if writer != 0 { return false; }
      GrantKeeps(View(), rid, Read);
      readersCount := readersCount[rid := readersCount[rid] + 1];
      table := table[rid := ReaderLock];
      return true;
    }

    /** Undo a read request that would deadlock: signal a thread that waits for the
        victim, remove the victim's edge and queue entry. */
    method RdLockClearAbort(tid: nat, rid: nat, ghost T0: Table) returns (signalled: set<nat>)
      requires CanRequest(T0, tid, rid, Read) && View() == Enqueue(T0, tid, rid, Read)
      requires Valid() && OnCycle(View().graph, tid)
      modifies this, waitForGraph
      ensures waitForGraph.Valid() && View() == T0
      ensures exists w :: signalled == {w} && Edge(old(View()).graph, w, tid)
    {
      hide GraphExact;
      var cycle := waitForGraph.GetCycle(tid);
      signalled := {cycle[1]};
      var q := queues[rid];
      assert QueueOk(View().queues[rid], |View().graph|);
      var myself := 0;
      while myself != |q| && q[myself].tid != tid
        invariant 0 <= myself <= |q| - 1
      {
        assert q[myself] == T0.queues[rid][myself];
        myself := myself + 1;
      }
      var ahead := |q| - 2;
      while ahead != -1 && q[ahead].phase == Read
        invariant -1 <= ahead <= |q| - 2
        invariant NoWriter(q, ahead + 1, |q| - 1)
      {
        ahead := ahead - 1;
      }
      if ahead != -1 {
        ReaderBlk(q, ahead, |q| - 1);
        assert View().graph[tid] == {q[ahead].tid};
        var _ := waitForGraph.RemoveEdge(tid, q[ahead].tid);
      } else {
        FreeIffUnblocked(q, |q| - 1);
      }
      assert EdgesOf(waitForGraph.nodes)[tid] == {};
      queues := queues[rid := q[..myself] + q[myself + 1..]];
      assert queues[rid] == T0.queues[rid];
      assert queues == T0.queues;
      assert EdgesOf(waitForGraph.nodes) == T0.graph;
    }

    /** Request of a write lock, up to the first wait.  The two last requirements are the
        program's own assertions about a record whose queue is empty. */
    method WrLock(tid: nat, phase: Phase, rid: nat)
      returns (outcome: Outcome, cycle: seq<nat>, signalled: set<nat>)
      requires phase == FirstWrite || phase == SecondWrite
      requires Valid() && CanRequest(View(), tid, rid, phase)
      requires queues[rid] == [] ==> table[rid] != WriterLock && readersCount[rid] == 0
      modifies this, waitForGraph
      ensures Valid()
      ensures outcome == RequestOutcome(old(View()), tid, rid, phase)
      ensures View() == Request(old(View()), tid, rid, phase)
      ensures outcome == Deadlock ==> exists w ::
                signalled == {w} && Edge(Enqueue(old(View()), tid, rid, phase).graph, w, tid)
      ensures outcome != Deadlock ==> signalled == {}
      ensures outcome == Deadlock ==> |cycle| >= 2 && cycle[0] == tid
    {
      cycle, signalled := [], {};
      ghost var T1 := Enqueue(View(), tid, rid, phase);
      EnqueueKeeps(View(), tid, rid, phase);
      assert QueueOk(T1.queues[rid], |T1.graph|);
      queues := queues[rid := queues[rid] + [Waiter(tid, phase)]];
      var q := queues[rid];
      var last := |q| - 1;
      FreeIffUnblocked(q, last);
      if q[0].tid != tid {
        AddBlockers(q, tid);
        assert View() == T1;
        cycle := waitForGraph.GetCycle(tid);
        if |cycle| != 0 {
          signalled := WrLockClearAbort(tid, rid, phase, old(View()));
          return Deadlock, cycle, signalled;
        }
        return Waiting, cycle, signalled;
      }
      assert last == 0;
      assert T1.graph == old(View()).graph;
      assert table[rid] != WriterLock && readersCount[rid] == 0 && queues[rid][0].tid == tid;
      table := table[rid := WriterLock];
      assert View() == Grant(T1, rid, phase);
      GrantKeeps(T1, rid, phase);
      return Granted, cycle, signalled;
    }

    /** The loop of `wrlock` that adds one edge per thread the last entry waits for. */
    method AddBlockers(q: Queue, tid: nat)
      requires waitForGraph.Valid() && QueueOk(q, waitForGraph.numberOfNodes) && |q| >= 2
      requires q[|q| - 1].tid == tid && q[|q| - 1].phase != Read
      requires EdgesOf(waitForGraph.nodes)[tid] == {}
      modifies waitForGraph
      ensures waitForGraph.Valid()
      ensures EdgesOf(waitForGraph.nodes) == old(EdgesOf(waitForGraph.nodes))[tid := Blk(q, tid)]
    {
      var last := |q| - 1;
      var ahead := last - 1;
      ghost var g := EdgesOf(waitForGraph.nodes);
      var _ := waitForGraph.AddEdge(tid, q[ahead].tid);
      assert EdgesOf(waitForGraph.nodes)[tid] == {q[ahead].tid};
      if q[ahead].phase == Read {
        assert TidsIn(q, ahead, last) == {q[ahead].tid};
        while ahead != 0 && q[ahead - 1].phase == Read
          invariant 0 <= ahead < last && NoWriter(q, ahead, last)
          invariant waitForGraph.Valid()
          invariant EdgesOf(waitForGraph.nodes) == g[tid := TidsIn(q, ahead, last)]
        {
          TidsInStep(q, ahead, last);
          assert EdgesOf(waitForGraph.nodes)[tid] == TidsIn(q, ahead, last);
          ahead := ahead - 1;
          var _ := waitForGraph.AddEdge(tid, q[ahead].tid);
        }
        WriterBlkRun(q, ahead, last);
      } else {
        WriterBlkWriter(q, last);
      }
    }

    /** A write request after `pthread_cond_wait` returns.  A thread that finds itself at
        the head must find the record without holders. */
    method WrLockResume(tid: nat, rid: nat, phase: Phase) returns (granted: bool)
      requires Valid() && rid < |queues| && InQueue(queues[rid], tid)
      requires phase != Read && queues[rid][Pos(queues[rid], tid)].phase == phase
      requires Blk(queues[rid], tid) == {} ==> table[rid] != WriterLock && readersCount[rid] == 0
      modifies this
      ensures Valid()
      ensures granted <==> Blk(old(queues[rid]), tid) == {}
      ensures View() == Resume(old(View()), tid, rid, phase)
    {
      assert QueueOk(View().queues[rid], |View().graph|);
      var ahead := FindAheadReaderOrWriter(tid, rid);
      if ahead != 0 { return false; }
      assert table[rid] != WriterLock && readersCount[rid] == 0 && queues[rid][0].tid == tid;
      GrantKeeps(View(), rid, phase);
      table := table[rid := WriterLock];
      return true;
    }

    method WrLockClearAbort(tid: nat, rid: nat, ghost phase: Phase, ghost T0: Table) returns (signalled: set<nat>)
      requires phase != Read
      requires CanRequest(T0, tid, rid, phase) && View() == Enqueue(T0, tid, rid, phase)
      requires Valid() && OnCycle(View().graph, tid) && |queues[rid]| >= 2
      modifies this, waitForGraph
      ensures waitForGraph.Valid() && View() == T0
      ensures exists w :: signalled == {w} && Edge(old(View()).graph, w, tid)
    {
      var cycle := waitForGraph.GetCycle(tid);
      signalled := {cycle[1]};
      var q := queues[rid];
      assert QueueOk(View().queues[rid], |View().graph|);
      var myself := |q| - 1;
      assert q[myself].tid == tid;
      RemoveBlockers(q, tid);
      queues := queues[rid := q[..myself] + q[myself + 1..]];
      assert queues[rid] == T0.queues[rid];
      assert queues == T0.queues;
      assert EdgesOf(waitForGraph.nodes) == T0.graph;
    }

    method RemoveBlockers(q: Queue, tid: nat)
      requires waitForGraph.Valid() && QueueOk(q, waitForGraph.numberOfNodes) && |q| >= 2
      requires q[|q| - 1].tid == tid && q[|q| - 1].phase != Read
      requires EdgesOf(waitForGraph.nodes)[tid] == Blk(q, tid)
      modifies waitForGraph
      ensures waitForGraph.Valid()
      ensures EdgesOf(waitForGraph.nodes) == old(EdgesOf(waitForGraph.nodes))[tid := {}]
    {
      var last := |q| - 1;
      var ahead := last - 1;
      ghost var g := EdgesOf(waitForGraph.nodes);
      assert Blocks(q, ahead, last);
      BlkMember(q, ahead, last);
      var _ := waitForGraph.RemoveEdge(tid, q[ahead].tid);
      assert EdgesOf(waitForGraph.nodes)[tid] == Blk(q, tid) - {q[ahead].tid};
      if q[ahead].phase == Read {
        assert TidsIn(q, ahead, last) == {q[ahead].tid};
        while ahead != 0 && q[ahead - 1].phase == Read
          invariant 0 <= ahead < last && NoWriter(q, ahead, last)
          invariant waitForGraph.Valid()
          invariant EdgesOf(waitForGraph.nodes) == g[tid := Blk(q, tid) - TidsIn(q, ahead, last)]
        {
          TidsInStep(q, ahead, last);
          ahead := ahead - 1;
          assert Blocks(q, ahead, last);
          BlkMember(q, ahead, last);
          assert EdgesOf(waitForGraph.nodes)[tid] == Blk(q, tid) - TidsIn(q, ahead + 1, last);
          var _ := waitForGraph.RemoveEdge(tid, q[ahead].tid);
          assert EdgesOf(waitForGraph.nodes)[tid] == Blk(q, tid) - TidsIn(q, ahead, last);
        }
        WriterBlkRun(q, ahead, last);
      } else {
        WriterBlkWriter(q, last);
      }
      assert EdgesOf(waitForGraph.nodes)[tid] == {};
    }

    /** Release, dispatched on the lock status.  The requirements are the assertions the
        program makes on the way. */
    method Unlock(tid: nat, rid: nat) returns (signalled: set<nat>)
      requires Valid() && rid < |queues| && InQueue(queues[rid], tid) && Blk(queues[rid], tid) == {}
      requires table[rid] == if queues[rid][Pos(queues[rid], tid)].phase == Read then ReaderLock else WriterLock
      requires table[rid] == ReaderLock ==> readersCount[rid] > 0
      modifies this, waitForGraph
      ensures Valid()
      ensures View() == LockTables.Unlock(old(View()), tid, rid)
      ensures signalled == LockTables.Woken(old(View()), tid, rid)
    {
      hide GraphExact, Blk, LockTables.Unlock, LockTables.Woken;
      UnlockKeeps(View(), tid, rid);
      assert QueueOk(View().queues[rid], |View().graph|);
      FreeIffUnblocked(queues[rid], Pos(queues[rid], tid));
      if table[rid] == ReaderLock {
        signalled := RdUnlock(tid, rid);
      } else if table[rid] == WriterLock {
        signalled := WrUnlock(tid, rid);
      } else {
        assert false;
      }
    }

    method RdUnlock(tid: nat, rid: nat) returns (signalled: set<nat>)
      requires Valid() && rid < |queues| && InQueue(queues[rid], tid)
      requires queues[rid][Pos(queues[rid], tid)].phase == Read && NoWriter(queues[rid], 0, Pos(queues[rid], tid))
      requires table[rid] == ReaderLock && readersCount[rid] > 0
      modifies this, waitForGraph
      ensures waitForGraph.Valid()
      ensures View() == LockTables.Unlock(old(View()), tid, rid)
      ensures signalled == LockTables.Woken(old(View()), tid, rid)
    {
      hide GraphExact, Blk, LockTables.Unlock, LockTables.Woken;
      var q := queues[rid];
      ghost var T := View();
      assert QueueOk(T.queues[rid], |T.graph|);
      var iter := FindReader(q, tid);
      forall w | iter < w < |q| && NoWriter(q, iter, w) && q[w].phase != Read
        ensures tid in EdgesOf(waitForGraph.nodes)[q[w].tid]
      {
        ReaderBlocks(T, tid, rid, w);
      }
      ghost var w;
      signalled, w := RdRelease(q, tid, rid, iter);
      readersCount := readersCount[rid := readersCount[rid] - 1];
      queues := queues[rid := q[..iter] + q[iter + 1..]];
      UnlockByReader(T, tid, rid, w);
    }

    /** The releasing reader's position; everything up to it must be a reader. */
    method FindReader(q: Queue, tid: nat) returns (iter: nat)
      requires Distinct(q) && InQueue(q, tid)
      requires q[Pos(q, tid)].phase == Read && NoWriter(q, 0, Pos(q, tid))
      ensures iter == Pos(q, tid)
    {
      iter := 0;
      while iter != |q| && q[iter].tid != tid
        invariant iter <= Pos(q, tid)
      {
        assert q[iter].phase == Read;
        iter := iter + 1;
      }
    }

    /** The case analysis of a reader's release: which edge goes, whether the record
        becomes unlocked, and who is signalled.  `w` is the first writer behind. */
    method RdRelease(q: Queue, tid: nat, rid: nat, iter: nat) returns (signalled: set<nat>, ghost w: nat)
      requires waitForGraph.Valid() && QueueOk(q, waitForGraph.numberOfNodes) && rid < |table|
      requires iter < |q| && q[iter] == Waiter(tid, Read) && table[rid] == ReaderLock
      requires forall x :: iter < x < |q| && NoWriter(q, iter, x) && q[x].phase != Read ==>
                 tid in EdgesOf(waitForGraph.nodes)[q[x].tid]
      modifies this`table, waitForGraph
      ensures waitForGraph.Valid()
      ensures iter < w <= |q| && NoWriter(q, iter, w) && (w < |q| ==> q[w].phase != Read)
      ensures table == old(table)[rid := if iter == 0 && w == 1 then Unlocked else ReaderLock]
      ensures var g := old(EdgesOf(waitForGraph.nodes));
              EdgesOf(waitForGraph.nodes) == if w < |q| then g[q[w].tid := g[q[w].tid] - {tid}] else g
      ensures signalled == if iter == 0 && w == 1 && w < |q| then {q[w].tid} else {}
    {
      signalled := {};
      var follower := iter + 1;
      if iter == 0 {
        if follower == |q| {
          table := table[rid := Unlocked];
        } else if q[follower].phase != Read {
          var _ := waitForGraph.RemoveEdge(q[follower].tid, tid);
          table := table[rid := Unlocked];
          signalled := {q[follower].tid};
        } else {
          follower := DropFollowerEdge(q, tid, iter);
        }
      } else {
        if follower == |q| {
        } else if q[follower].phase != Read {
          var _ := waitForGraph.RemoveEdge(q[follower].tid, tid);
        } else {
          follower := DropFollowerEdge(q, tid, iter);
        }
      }
      w := follower;
    }

    /** Behind a run of readers, remove the edge of the first writer, if there is one. */
    method DropFollowerEdge(q: Queue, tid: nat, iter: nat) returns (follower: nat)
      requires waitForGraph.Valid() && QueueOk(q, waitForGraph.numberOfNodes)
      requires iter + 1 < |q| && q[iter] == Waiter(tid, Read) && q[iter + 1].phase == Read
      requires forall x :: iter < x < |q| && NoWriter(q, iter, x) && q[x].phase != Read ==>
                 tid in EdgesOf(waitForGraph.nodes)[q[x].tid]
      modifies waitForGraph
      ensures waitForGraph.Valid()
      ensures iter + 1 < follower <= |q| && NoWriter(q, iter, follower)
      ensures follower < |q| ==> q[follower].phase != Read
      ensures var g := old(EdgesOf(waitForGraph.nodes));
              EdgesOf(waitForGraph.nodes) ==
              if follower < |q| then g[q[follower].tid := g[q[follower].tid] - {tid}] else g
    {
      follower := iter + 2;
      while follower != |q| && q[follower].phase == Read
        invariant iter + 1 < follower <= |q| && NoWriter(q, iter, follower)
      {
        follower := follower + 1;
      }
      if follower != |q| {
        var _ := waitForGraph.RemoveEdge(q[follower].tid, tid);
      }
    }

    method WrUnlock(tid: nat, rid: nat) returns (signalled: set<nat>)
      requires Valid() && rid < |queues| && InQueue(queues[rid], tid)
      requires queues[rid][0].tid == tid && queues[rid][0].phase != Read && table[rid] == WriterLock
      modifies this, waitForGraph
      ensures waitForGraph.Valid()
      ensures View() == LockTables.Unlock(old(View()), tid, rid)
      ensures signalled == LockTables.Woken(old(View()), tid, rid)
    {
      hide GraphExact, Blk, LockTables.Unlock, LockTables.Woken;
      var q := queues[rid];
      ghost var T := View();
      assert QueueOk(T.queues[rid], |T.graph|);
      forall p | 1 <= p < |q| && (p == 1 || NoWriter(q, 1, p + 1))
        ensures tid in EdgesOf(waitForGraph.nodes)[q[p].tid]
      {
        assert p == 1 || q[p].phase == Read;
        HeadBlocks(T, rid, p);
      }
      ghost var w;
      signalled, w := SignalFollowers(q, tid);
      UnlockByWriter(T, tid, rid, w, signalled);
      assert EdgesOf(waitForGraph.nodes) == GraphWithout(T.graph, q, tid);
      queues := queues[rid := q[1..]];
      table := table[rid := Unlocked];
    }

    /** Remove the edge of, and signal, the thread behind the head; behind it every
        further reader up to the next writer. */
    method SignalFollowers(q: Queue, tid: nat) returns (signalled: set<nat>, ghost w: nat)
      requires waitForGraph.Valid() && QueueOk(q, waitForGraph.numberOfNodes)
      requires |q| > 0 && q[0].tid == tid && q[0].phase != Read
      requires forall p :: 1 <= p < |q| && (p == 1 || NoWriter(q, 1, p + 1)) ==>
                 tid in EdgesOf(waitForGraph.nodes)[q[p].tid]
      modifies waitForGraph
      ensures waitForGraph.Valid()
      ensures 1 <= w <= |q| && NoWriter(q, 1, w) && (w < |q| ==> q[w].phase != Read)
      ensures signalled == if w == 1 && w < |q| then {q[1].tid} else TidsIn(q, 1, w)
      ensures |EdgesOf(waitForGraph.nodes)| == |old(EdgesOf(waitForGraph.nodes))|
      ensures forall x :: 0 <= x < |EdgesOf(waitForGraph.nodes)| ==>
                var out := old(EdgesOf(waitForGraph.nodes))[x];
                EdgesOf(waitForGraph.nodes)[x] == if x in signalled then out - {tid} else out
    {
      ghost var g := EdgesOf(waitForGraph.nodes);
      w := 1;
      signalled := {};
      var follower := 1;
      if follower != |q| {
        var _ := waitForGraph.RemoveEdge(q[follower].tid, tid);
        signalled := signalled + {q[follower].tid};
        if q[follower].phase == Read {
          follower := follower + 1;
          assert TidsIn(q, 1, 2) == {q[1].tid};
          follower, signalled := SignalReaders(q, tid, follower, signalled, g);
          w := follower;
        }
      }
    }

    /** The inner loop of `wr_unlock`: further readers, one edge and one signal each. */
    method SignalReaders(q: Queue, tid: nat, from: nat, already: set<nat>, ghost g: Graph)
      returns (follower: nat, signalled: set<nat>)
      requires waitForGraph.Valid() && QueueOk(q, waitForGraph.numberOfNodes)
      requires 2 <= from <= |q| && q[0].tid == tid && q[1].phase == Read
      requires |g| == waitForGraph.numberOfNodes && NoWriter(q, 1, from) && already == TidsIn(q, 1, from)
      requires forall p :: 1 <= p < |q| && NoWriter(q, 1, p + 1) ==> tid in g[q[p].tid]
      requires forall x :: 0 <= x < |g| ==>
                 EdgesOf(waitForGraph.nodes)[x] == if x in already then g[x] - {tid} else g[x]
      modifies waitForGraph
      ensures waitForGraph.Valid()
      ensures from <= follower <= |q| && NoWriter(q, 1, follower)
      ensures follower < |q| ==> q[follower].phase != Read
      ensures signalled == TidsIn(q, 1, follower)
      ensures |EdgesOf(waitForGraph.nodes)| == |g|
      ensures forall x :: 0 <= x < |g| ==>
                EdgesOf(waitForGraph.nodes)[x] == if x in signalled then g[x] - {tid} else g[x]
    {
      follower, signalled := from, already;
      while follower != |q| && q[follower].phase == Read
        invariant from <= follower <= |q| && NoWriter(q, 1, follower)
        invariant waitForGraph.Valid() && signalled == TidsIn(q, 1, follower)
        invariant forall x :: 0 <= x < |g| ==>
                    EdgesOf(waitForGraph.nodes)[x] == if x in signalled then g[x] - {tid} else g[x]
      {
        TidsInExtend(q, 1, follower);
        assert q[follower].tid !in signalled;
        var _ := waitForGraph.RemoveEdge(q[follower].tid, tid);
        signalled := signalled + {q[follower].tid};
        follower := follower + 1;
      }
    }
  }

  /** The first writer behind a granted reader has a stored edge to it. */
  lemma ReaderBlocks(T: Table, t: nat, r: nat, w: nat)
    requires TableInv(T) && r < |T.queues| && InQueue(T.queues[r], t)
    requires var d := Pos(T.queues[r], t);
             && T.queues[r][d].phase == Read && NoWriter(T.queues[r], d, w)
             && d < w < |T.queues[r]| && T.queues[r][w].phase != Read
    ensures var x := T.queues[r][w].tid; x < |T.graph| && t in T.graph[x]
  {
    var q, d := T.queues[r], Pos(T.queues[r], t);
    assert QueueOk(q, |T.graph|);
    assert Blocks(q, d, w);
    BlkMember(q, d, w);
    assert WaitsAt(T, q[w].tid, r);
  }

  /** What releasing a reader lock amounts to, given the first writer behind it. */
  lemma UnlockByReader(T: Table, t: nat, r: nat, w: nat)
    requires TableInv(T) && r < |T.queues| && InQueue(T.queues[r], t)
    requires T.status[r] == ReaderLock && T.readers[r] > 0
    requires var d := Pos(T.queues[r], t);
             && T.queues[r][d].phase == Read && NoWriter(T.queues[r], 0, d)
             && d < w <= |T.queues[r]| && NoWriter(T.queues[r], d, w)
             && (w < |T.queues[r]| ==> T.queues[r][w].phase != Read)
    ensures w < |T.queues[r]| ==>
              var x := T.queues[r][w].tid; x < |T.graph| && x != t && t < |T.graph| && t in T.graph[x]
    ensures Unlock(T, t, r) ==
            var q, d := T.queues[r], Pos(T.queues[r], t);
            Table(
              T.status[r := if d == 0 && w == 1 then Unlocked else ReaderLock],
              T.readers[r := T.readers[r] - 1],
              T.queues[r := q[..d] + q[d + 1..]],
              if w < |q| then T.graph[q[w].tid := T.graph[q[w].tid] - {t}] else T.graph)
    ensures Woken(T, t, r) ==
            if Pos(T.queues[r], t) == 0 && w == 1 && w < |T.queues[r]| then {T.queues[r][w].tid} else {}
  {
    var q := T.queues[r];
    var d := Pos(q, t);
    assert QueueOk(q, |T.graph|);
    ReaderUnlockEdges(q, d, w);
    if w < |q| { assert WaitsAt(T, q[w].tid, r); }
    forall x | x in Woken(T, t, r) ensures w < |q| && x == q[w].tid { assert t in Blk(q, x); }
    var q' := RemoveAt(q, d);
    if q' != [] { assert q'[0] == q[Up(d, 0)]; }
    if d == 0 && w > 1 { assert q[1].phase == Read; }
    assert GraphWithout(T.graph, q, t) == if w < |q| then T.graph[q[w].tid := T.graph[q[w].tid] - {t}] else T.graph;
  }

  /** Whoever stands right behind the writer at the head, or behind it with only readers
      in between, has a stored edge to it. */
  lemma HeadBlocks(T: Table, r: nat, p: nat)
    requires TableInv(T) && r < |T.queues| && 1 <= p < |T.queues[r]| && T.queues[r][0].phase != Read
    requires p == 1 || (T.queues[r][p].phase == Read && NoWriter(T.queues[r], 1, p))
    ensures var q := T.queues[r];
            && q[p].tid < |T.graph| && q[0].tid < |T.graph| && q[p].tid != q[0].tid
            && q[0].tid in T.graph[q[p].tid]
  {
    var q := T.queues[r];
    assert QueueOk(q, |T.graph|);
    assert Blocks(q, 0, p);
    BlkMember(q, 0, p);
    assert WaitsAt(T, q[p].tid, r);
  }

  lemma UnlockByWriter(T: Table, t: nat, r: nat, w: nat, woken: set<nat>)
    requires TableInv(T) && r < |T.queues| && InQueue(T.queues[r], t) && T.status[r] == WriterLock
    requires T.queues[r][0].tid == t && T.queues[r][0].phase != Read
    requires 1 <= w <= |T.queues[r]| && NoWriter(T.queues[r], 1, w)
    requires w < |T.queues[r]| ==> T.queues[r][w].phase != Read
    requires woken == if w == 1 && w < |T.queues[r]| then {T.queues[r][1].tid} else TidsIn(T.queues[r], 1, w)
    ensures Woken(T, t, r) == woken
    ensures forall x :: t in Blk(T.queues[r], x) <==> x in woken
    ensures Unlock(T, t, r) ==
            Table(T.status[r := Unlocked], T.readers, T.queues[r := T.queues[r][1..]],
                  GraphWithout(T.graph, T.queues[r], t))
  {
    var q := T.queues[r];
    assert QueueOk(q, |T.graph|);
    WriterUnlockEdges(q, w);
    assert Pos(q, t) == 0;
    assert RemoveAt(q, 0) == q[1..];
    forall x | x in woken ensures x in Woken(T, t, r) {
      assert w == 1 ==> TidsIn(q, 1, w) == {};
      assert InQueue(q, x);
    }
    forall x | x in Woken(T, t, r) ensures x in woken { assert t in Blk(q, x); }
    assert T.readers[r := T.readers[r]] == T.readers;
  }
}
