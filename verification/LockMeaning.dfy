/** What the lock operations decide, in terms of the entries of a queue and of who already waits for
    whom: when a request is granted, sleeps or is refused, when a sleeper may go on, and what a
    release leaves behind and whom it signals. */
module LockMeaning {
  import opened Graphs
  import opened LockQueues
  import opened LockTables

  // ----- a request -----

  /** The last entry of a queue is blocked by the nearest writer if it reads, and by the entry ahead,
      or the run of readers ahead, if it writes. */
  lemma LastBlockers(q: Queue, t: nat, ph: Phase, u: nat)
    requires Distinct(q + [Waiter(t, ph)])
    ensures u in Blk(q + [Waiter(t, ph)], t) <==>
            exists m :: 0 <= m < |q| && q[m].tid == u &&
              if ph == Read then q[m].phase != Read && forall x :: m < x < |q| ==> q[x].phase == Read
              else (q[m].phase != Read && m == |q| - 1) || forall x :: m <= x < |q| ==> q[x].phase == Read
  {
    var all := q + [Waiter(t, ph)];
    assert all[|q|] == Waiter(t, ph);
    if u in Blk(all, t) {
      var m, p := BlkWitness(all, t, u);
      assert p == |q|;
      assert q[m] == all[m];
      assert forall x :: 0 <= x < |q| ==> all[x] == q[x];
    }
    if m :| 0 <= m < |q| && q[m].tid == u &&
            if ph == Read then q[m].phase != Read && forall x :: m < x < |q| ==> q[x].phase == Read
            else (q[m].phase != Read && m == |q| - 1) || forall x :: m <= x < |q| ==> q[x].phase == Read
    {
      assert forall x :: 0 <= x < |q| ==> all[x] == q[x];
      assert Blocks(all, m, |q|);
      BlkMember(all, m, |q|);
    }
  }

  /** A read request is granted exactly if no writer is queued, a write request exactly if nobody is. */
  lemma GrantedMeans(T: Table, t: nat, r: nat, ph: Phase)
    requires CanRequest(T, t, r, ph)
    ensures RequestOutcome(T, t, r, ph) == Granted <==>
            forall m :: 0 <= m < |T.queues[r]| ==> ph == Read && T.queues[r][m].phase == Read
  {
    var q := T.queues[r];
    var all := q + [Waiter(t, ph)];
    assert QueueOk(q, |T.graph|);
    PushDistinct(q, Waiter(t, ph));
    FreeIffUnblocked(all, |q|);
    assert forall x :: 0 <= x < |q| ==> all[x] == q[x];
    assert Enqueue(T, t, r, ph).queues[r] == all;
  }

  lemma TailPath(g: Graph, p: seq<nat>)
    requires IsPath(g, p) && |p| > 1
    ensures IsPath(g, p[1..])
  {
    var rest := p[1..];
    forall x | 0 <= x < |rest| - 1 ensures Edge(g, rest[x], rest[x + 1]) {
      var y := x + 1;
      assert Edge(g, p[y], p[y + 1]);
    }
  }

  lemma {:induction false} BackTo(g: Graph, t: nat, out: set<nat>, p: seq<nat>) returns (p': seq<nat>)
    requires t < |g| && IsPath(g[t := out], p) && |p| > 0 && p[|p| - 1] == t
    ensures IsPath(g, p') && |p'| > 0 && p'[0] == p[0] && p'[|p'| - 1] == t
    decreases |p|
  {
    if p[0] == t {
      p' := [t];
    } else {
      assert Edge(g[t := out], p[0], p[0 + 1]);
      TailPath(g[t := out], p);
      p' := BackTo(g, t, out, p[1..]);
      p' := [p[0]] + p';
    }
  }

  /** Once `t` waits for `out`, it is on a cycle exactly if somebody in `out` already waits, directly
      or through others, for `t`. */
  lemma ClosesCycle(g: Graph, t: nat, out: set<nat>)
    requires t < |g| && g[t] == {}
    ensures OnCycle(g[t := out], t) <==>
            exists p :: |p| > 0 && IsPath(g, p) && p[0] in out && p[|p| - 1] == t
  {
    var h := g[t := out];
    if OnCycle(h, t) {
      var p :| IsCycle(h, p, t);
      assert Edge(h, p[0], p[0 + 1]);
      TailPath(h, p);
      var p' := BackTo(g, t, out, p[1..]);
      assert p'[0] in out;
    }
    if p :| |p| > 0 && IsPath(g, p) && p[0] in out && p[|p| - 1] == t {
      var c := [t] + p;
      forall x | 0 <= x < |c| - 1 ensures Edge(h, c[x], c[x + 1]) {
        if x > 0 { assert Edge(g, p[x - 1], p[(x - 1) + 1]); }
      }
      assert IsCycle(h, c, t);
    }
  }

  /** A request is refused exactly if a thread it would have to wait for already waits, directly or
      through others, for the requester. */
  lemma DeadlockMeans(T: Table, t: nat, r: nat, ph: Phase)
    requires CanRequest(T, t, r, ph)
    ensures RequestOutcome(T, t, r, ph) == Deadlock <==>
            exists p, m ::
              && |p| > 0 && IsPath(T.graph, p) && p[|p| - 1] == t
              && 0 <= m < |T.queues[r]| && T.queues[r][m].tid == p[0]
              && var q := T.queues[r];
                 if ph == Read then q[m].phase != Read && forall x :: m < x < |q| ==> q[x].phase == Read
                 else (q[m].phase != Read && m == |q| - 1) || forall x :: m <= x < |q| ==> q[x].phase == Read
  {
    var q := T.queues[r];
    var all := q + [Waiter(t, ph)];
    assert QueueOk(q, |T.graph|);
    PushDistinct(q, Waiter(t, ph));
    ClosesCycle(T.graph, t, Blk(all, t));
    assert Enqueue(T, t, r, ph).queues[r] == all && Enqueue(T, t, r, ph).graph == T.graph[t := Blk(all, t)];
    forall u ensures u in Blk(all, t) <==>
            exists m :: 0 <= m < |q| && q[m].tid == u &&
              if ph == Read then q[m].phase != Read && forall x :: m < x < |q| ==> q[x].phase == Read
              else (q[m].phase != Read && m == |q| - 1) || forall x :: m <= x < |q| ==> q[x].phase == Read
    {
      LastBlockers(q, t, ph, u);
    }
    hide Blk, OnCycle, IsPath, CanRequest;
  }

  /** What a request leaves behind: a granted one is queued and changes the record, a sleeping one is
      queued, a refused one leaves no trace. */
  lemma RequestMeans(T: Table, t: nat, r: nat, ph: Phase)
    requires CanRequest(T, t, r, ph) && r < |T.status| == |T.readers|
    ensures var T' := Request(T, t, r, ph); var q := T.queues[r];
            match RequestOutcome(T, t, r, ph)
            case Granted =>
              && T'.queues == T.queues[r := q + [Waiter(t, ph)]] && T'.graph == T.graph
              && T'.status == T.status[r := if ph == Read then ReaderLock else WriterLock]
              && T'.readers == T.readers[r := T.readers[r] + if ph == Read then 1 else 0]
            case Waiting =>
              && T'.queues == T.queues[r := q + [Waiter(t, ph)]] && T'.status == T.status && T'.readers == T.readers
              && |T'.graph| == |T.graph| && T'.graph[t] != {}
              && forall x :: 0 <= x < |T.graph| && x != t ==> T'.graph[x] == T.graph[x]
            case Deadlock => T' == T
  {
    hide Blk, OnCycle;
  }

  // ----- a wake-up -----

  /** A sleeper takes its lock exactly if, in front of it, a reader finds no writer and a writer
      finds nobody; otherwise nothing changes. */
  lemma ResumeMeans(T: Table, t: nat, r: nat, p: nat)
    requires r < |T.queues| == |T.status| == |T.readers| && Distinct(T.queues[r])
    requires p < |T.queues[r]| && T.queues[r][p].tid == t
    ensures var q := T.queues[r]; var T' := Resume(T, t, r, q[p].phase);
            if forall m :: 0 <= m < p ==> q[p].phase == Read && q[m].phase == Read then
              && T'.queues == T.queues && T'.graph == T.graph
              && T'.status == T.status[r := if q[p].phase == Read then ReaderLock else WriterLock]
              && T'.readers == T.readers[r := T.readers[r] + if q[p].phase == Read then 1 else 0]
            else T' == T
  {
    FreeIffUnblocked(T.queues[r], p);
    hide Blk;
  }

  // ----- a release -----

  /** A release takes the entry out of its queue and keeps the order of the others.  The record stays
      locked exactly if a reader released it and a reader is now at the head of the queue, and the
      reader count follows. */
  lemma ReleaseMeans(T: Table, t: nat, r: nat, p: nat)
    requires r < |T.queues| == |T.status| == |T.readers| && Distinct(T.queues[r])
    requires p < |T.queues[r]| && T.queues[r][p].tid == t && (T.status[r] == ReaderLock ==> T.readers[r] > 0)
    ensures InQueue(T.queues[r], t)
    ensures var q := T.queues[r]; var T' := Unlock(T, t, r);
            && T'.queues == T.queues[r := q[..p] + q[p + 1..]] && |T'.graph| == |T.graph|
            && T'.readers == T.readers[r := T.readers[r] - if T.status[r] == ReaderLock then 1 else 0]
            && var stays := T.status[r] == ReaderLock && |q| > 1 && q[if p == 0 then 1 else 0].phase == Read;
               T'.status == T.status[r := if stays then ReaderLock else Unlocked]
  {
    assert InQueue(T.queues[r], t);
    assert Pos(T.queues[r], t) == p;
    hide Blk;
  }

  /** A release signals exactly the threads that waited for somebody and now wait for nobody. */
  lemma SignalsMean(T: Table, t: nat, r: nat, x: nat)
    requires TableInv(T) && r < |T.queues| && InQueue(T.queues[r], t) && Blk(T.queues[r], t) == {} && x < |T.graph|
    ensures |T.queues| == |T.status| == |T.readers| && |Unlock(T, t, r).graph| == |T.graph|
    ensures x in Woken(T, t, r) <==> T.graph[x] != {} && Unlock(T, t, r).graph[x] == {}
  {
    var q := T.queues[r];
    if t in Blk(q, x) { assert WaitsAt(T, x, r); }
  }

  /** And it takes the releaser out of what the others wait for at that record, and nothing else. */
  lemma ReleaseEdges(T: Table, t: nat, r: nat, x: nat)
    requires TableInv(T) && r < |T.queues| && InQueue(T.queues[r], t) && Blk(T.queues[r], t) == {} && x < |T.graph|
    ensures |T.queues| == |T.status| == |T.readers| && |Unlock(T, t, r).graph| == |T.graph|
    ensures Unlock(T, t, r).graph[x] == if InQueue(T.queues[r], x) && T.graph[x] == Blk(T.queues[r], x)
                                        then T.graph[x] - {t} else T.graph[x]
  {
    var q := T.queues[r];
    if t in Blk(q, x) {
      assert WaitsAt(T, x, r);
      var m, p := BlkWitness(q, x, t);
    }
  }
}
