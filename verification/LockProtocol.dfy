/** The lock table together with what every thread holds and waits for: the invariant of
    reader/writer exclusion, exact waiting, no lost wake-up and no deadlock. */
module LockProtocol {
  import opened Graphs
  import opened LockQueues
  import opened LockTables
  import opened Options

  datatype Want = Want(rid: nat, phase: Phase)

  /** One thread as the lock table sees it: the locks it was granted, the request it
      sleeps on, and whether its condition variable has a signal it has not seen yet. */
  datatype LockView = LockView(held: map<nat, Phase>, wait: Option<Want>, pending: bool)

  type Views = seq<LockView>

  ghost function Entry(v: LockView, r: nat): Option<Phase> {
    if r in v.held then Some(v.held[r])
    else if v.wait.Some? && v.wait.value.rid == r then Some(v.wait.value.phase)
    else None
  }

  predicate Reads(v: LockView, r: nat) { r in v.held && v.held[r] == Read }

  predicate Writes(v: LockView, r: nat) { r in v.held && v.held[r] != Read }

  ghost function ReadersOf(V: Views, r: nat): set<nat> {
    set t | 0 <= t < |V| && Reads(V[t], r)
  }

  ghost predicate ViewOk(v: LockView, records: nat) {
    && (forall r :: r in v.held ==> r < records && v.held[r] in {Read, FirstWrite, SecondWrite})
    && (v.wait.Some? ==>
          && v.wait.value.rid < records && v.wait.value.rid !in v.held
          && v.wait.value.phase in {Read, FirstWrite, SecondWrite})
  }

  /** The queues hold exactly the granted and the sleeping requests. */
  ghost predicate Members(T: Table, V: Views) {
    && (forall r: nat, p: nat :: r < |T.queues| && p < |T.queues[r]| ==>
          && T.queues[r][p].tid < |V|
          && Entry(V[T.queues[r][p].tid], r) == Some(T.queues[r][p].phase))
    && (forall t: nat, r: nat :: t < |V| && r < |T.queues| && Entry(V[t], r).Some? ==> InQueue(T.queues[r], t))
  }

  /** Whoever was granted a lock is blocked by nobody. */
  ghost predicate HoldersFree(T: Table, V: Views) {
    forall t: nat, r: nat :: t < |V| && r in V[t].held ==> r < |T.queues| && Blk(T.queues[r], t) == {}
  }

  /** A sleeper without a pending signal is still blocked. */
  ghost predicate NoLostWakeUp(T: Table, V: Views) {
    forall t: nat :: t < |V| && V[t].wait.Some? && !V[t].pending ==>
      V[t].wait.value.rid < |T.queues| && Blk(T.queues[V[t].wait.value.rid], t) != {}
  }

  ghost predicate StatusOk(T: Table, V: Views) {
    && |T.status| == |T.readers|
    && (forall r: nat :: r < |T.status| ==> T.readers[r] == |ReadersOf(V, r)|)
    && (forall r: nat, t: nat :: r < |T.status| && t < |V| && Reads(V[t], r) ==> T.status[r] == ReaderLock)
    && (forall r: nat, t: nat :: r < |T.status| && t < |V| && Writes(V[t], r) ==> T.status[r] == WriterLock)
    && (forall r: nat :: r < |T.status| && T.status[r] == WriterLock ==> exists t: nat :: t < |V| && Writes(V[t], r))
  }

  ghost predicate LockInv(T: Table, V: Views) {
    && TableInv(T) && Acyclic(T.graph) && |V| == |T.graph| && |V| > 0
    && (forall t :: 0 <= t < |V| ==> ViewOk(V[t], |T.queues|))
    && V[0] == LockView(map[], None, false)
    && Members(T, V) && HoldersFree(T, V) && NoLostWakeUp(T, V) && StatusOk(T, V)
  }

  // ----- consequences of the invariant -----

  lemma HolderPos(T: Table, V: Views, t: nat, r: nat) returns (p: nat)
    requires LockInv(T, V) && t < |V| && r in V[t].held
    ensures r < |T.queues| && p < |T.queues[r]| && T.queues[r][p] == Waiter(t, V[t].held[r])
    ensures Distinct(T.queues[r]) && InQueue(T.queues[r], t) && Pos(T.queues[r], t) == p
    ensures Free(T.queues[r], p)
  {
    assert ViewOk(V[t], |T.queues|);
    assert Entry(V[t], r).Some?;
    p := Pos(T.queues[r], t);
    assert QueueOk(T.queues[r], |T.graph|);
    FreeIffUnblocked(T.queues[r], p);
  }

  lemma LockLengths(T: Table, V: Views)
    requires LockInv(T, V)
    ensures |T.queues| == |T.status| == |T.readers| && |T.graph| == |V|
  { }

  /** Two threads hold the same record only if both hold it for reading. */
  lemma Exclusion(T: Table, V: Views, t: nat, u: nat, r: nat)
    requires LockInv(T, V) && t < |V| && u < |V| && t != u
    requires r in V[t].held && r in V[u].held
    ensures V[t].held[r] == Read && V[u].held[r] == Read
  {
    var p := HolderPos(T, V, t, r);
    var q := HolderPos(T, V, u, r);
  }

  /** The whole picture of one record: a granted writer is alone and at the head, granted
      readers have no writer ahead, and the status and reader count say so. */
  lemma HoldersOfRecord(T: Table, V: Views, t: nat, r: nat)
    requires LockInv(T, V) && t < |V| && r in V[t].held
    ensures Writes(V[t], r) ==>
              && T.queues[r][0].tid == t && T.status[r] == WriterLock && T.readers[r] == 0
              && forall u: nat :: u < |V| && r in V[u].held ==> u == t
    ensures Reads(V[t], r) ==>
              && NoWriter(T.queues[r], 0, Pos(T.queues[r], t)) && T.status[r] == ReaderLock && T.readers[r] > 0
              && forall u: nat :: u < |V| && r in V[u].held ==> Reads(V[u], r)
  {
    var p := HolderPos(T, V, t, r);
    forall u: nat | u < |V| && r in V[u].held && u != t ensures Reads(V[u], r) && Reads(V[t], r) {
      Exclusion(T, V, t, u, r);
    }
    if Writes(V[t], r) {
      assert ReadersOf(V, r) == {};
    } else {
      assert t in ReadersOf(V, r);
    }
  }

  /** A thread that does not sleep has no out-edges. */
  lemma AwakeHasNoEdges(T: Table, V: Views, t: nat)
    requires LockInv(T, V) && t < |V| && V[t].wait.None?
    ensures T.graph[t] == {}
  {
    assert forall r: nat :: !WaitsAt(T, t, r);
  }

  /** A sleeper's out-edges are its blockers at the record it asked for. */
  lemma SleeperEdges(T: Table, V: Views, t: nat)
    requires LockInv(T, V) && t < |V| && V[t].wait.Some?
    ensures V[t].wait.value.rid < |T.queues|
    ensures T.graph[t] == Blk(T.queues[V[t].wait.value.rid], t)
  {
    assert ViewOk(V[t], |T.queues|);
    var r := V[t].wait.value.rid;
    if T.graph[t] != {} {
      var r2: nat :| WaitsAt(T, t, r2);
      var u :| u in Blk(T.queues[r2], t);
      var m, p := BlkWitness(T.queues[r2], t, u);
      assert Entry(V[t], r2).Some?;
      assert r2 !in V[t].held;
    } else {
      assert !WaitsAt(T, t, r);
    }
  }

  /** A new request meets every assertion on the way into the queue and the graph. */
  lemma RequestAllowed(T: Table, V: Views, t: nat, r: nat, ph: Phase)
    requires LockInv(T, V) && 1 <= t < |V| && r < |T.queues|
    requires V[t].wait.None? && r !in V[t].held && ph in {Read, FirstWrite, SecondWrite}
    ensures CanRequest(T, t, r, ph)
    ensures T.queues[r] == [] ==> T.status[r] != WriterLock && T.readers[r] == 0
  {
    AwakeHasNoEdges(T, V, t);
    if InQueue(T.queues[r], t) {
      var p := Pos(T.queues[r], t);
    }
    if T.queues[r] == [] { NobodyHolds(T, V, r); }
  }

  /** With an empty queue, nobody holds the record. */
  lemma NobodyHolds(T: Table, V: Views, r: nat)
    requires LockInv(T, V) && r < |T.queues| && T.queues[r] == []
    ensures T.status[r] != WriterLock && T.readers[r] == 0
  {
    forall t: nat | t < |V| ensures r !in V[t].held {
      if r in V[t].held { var p := HolderPos(T, V, t, r); }
    }
    assert ReadersOf(V, r) == {};
  }

  /** A woken writer at the head finds the record without holders, as asserted. */
  lemma ResumeAllowed(T: Table, V: Views, t: nat)
    requires LockInv(T, V) && t < |V| && V[t].wait.Some?
    ensures var w := V[t].wait.value;
            && w.rid < |T.queues| && InQueue(T.queues[w.rid], t)
            && T.queues[w.rid][Pos(T.queues[w.rid], t)].phase == w.phase
            && (w.phase != Read && Blk(T.queues[w.rid], t) == {} ==>
                  T.status[w.rid] != WriterLock && T.readers[w.rid] == 0)
  {
    var w := V[t].wait.value;
    assert ViewOk(V[t], |T.queues|);
    assert Entry(V[t], w.rid).Some?;
    var p := Pos(T.queues[w.rid], t);
    assert Entry(V[t], w.rid) == Some(T.queues[w.rid][p].phase);
    if w.phase != Read && Blk(T.queues[w.rid], t) == {} {
      assert QueueOk(T.queues[w.rid], |T.graph|);
      FreeIffUnblocked(T.queues[w.rid], p);
      forall u: nat | u < |V| ensures w.rid !in V[u].held {
        if w.rid in V[u].held { var pu := HolderPos(T, V, u, w.rid); }
      }
      assert ReadersOf(V, w.rid) == {};
    }
  }

  /** A release meets every assertion of `unlock`, `rd_unlock` and `wr_unlock`. */
  lemma UnlockAllowed(T: Table, V: Views, t: nat, r: nat)
    requires LockInv(T, V) && t < |V| && r in V[t].held
    ensures r < |T.queues| && InQueue(T.queues[r], t) && Blk(T.queues[r], t) == {}
    ensures T.status[r] == if T.queues[r][Pos(T.queues[r], t)].phase == Read then ReaderLock else WriterLock
    ensures T.status[r] == ReaderLock ==> T.readers[r] > 0
  {
    var p := HolderPos(T, V, t, r);
    HoldersOfRecord(T, V, t, r);
  }

  // ----- what the steps keep -----

  /** Condition-variable signals reach only threads that sleep. */
  function Signal(V: Views, woken: set<nat>): (V': Views)
    ensures |V'| == |V|
    ensures forall x :: 0 <= x < |V| ==>
              V'[x] == if x in woken && V[x].wait.Some? then V[x].(pending := true) else V[x]
  {
    seq(|V|, x requires 0 <= x < |V| => if x in woken && V[x].wait.Some? then V[x].(pending := true) else V[x])
  }

  /** A signal nobody needed only causes a re-check. */
  lemma SignalKeeps(T: Table, V: Views, woken: set<nat>)
    requires LockInv(T, V)
    ensures LockInv(T, Signal(V, woken))
  {
    hide TableInv, Members, StatusOk, Acyclic, Blk;
    var V' := Signal(V, woken);
    SameEntries(T, V, V');
    SameHolders(T, V, T, V');
  }

  /** The views after a request with the given outcome. */
  function AfterRequest(V: Views, t: nat, r: nat, ph: Phase, outcome: Outcome): Views
    requires t < |V|
  {
    match outcome
    case Granted => V[t := V[t].(held := V[t].held[r := ph])]
    case Waiting => V[t := V[t].(wait := Some(Want(r, ph)), pending := false)]
    case Deadlock => V
  }

  /** Joining the queue behind everybody else blocks nobody who was there before. */
  lemma EnqueueFrame(T: Table, t: nat, r: nat, ph: Phase, x: nat, r2: nat)
    requires CanRequest(T, t, r, ph) && r2 < |T.queues| && (x != t || r2 != r)
    ensures Blk(Enqueue(T, t, r, ph).queues[r2], x) == Blk(T.queues[r2], x)
  {
    if r2 == r { PushBlk(T.queues[r], Waiter(t, ph), x); }
  }

  lemma MembersAfterEnqueue(T: Table, V: Views, t: nat, r: nat, ph: Phase, V': Views)
    requires LockInv(T, V) && CanRequest(T, t, r, ph) && t < |V| == |V'|
    requires forall u: nat, r2: nat :: u < |V| && (u != t || r2 != r) ==> Entry(V'[u], r2) == Entry(V[u], r2)
    requires Entry(V'[t], r) == Some(ph)
    ensures Members(Enqueue(T, t, r, ph), V')
  {
    var T1 := Enqueue(T, t, r, ph);
    var e := Waiter(t, ph);
    PushDistinct(T.queues[r], e);
    forall r2: nat, p: nat | r2 < |T1.queues| && p < |T1.queues[r2]|
      ensures Entry(V'[T1.queues[r2][p].tid], r2) == Some(T1.queues[r2][p].phase)
    {
      if r2 == r && p == |T.queues[r]| {
        assert T1.queues[r2][p] == e;
      } else {
        assert T1.queues[r2][p] == T.queues[r2][p];
        assert Entry(V[T.queues[r2][p].tid], r2) == Some(T.queues[r2][p].phase);
      }
    }
    forall u: nat, r2: nat | u < |V'| && r2 < |T1.queues| && Entry(V'[u], r2).Some?
      ensures InQueue(T1.queues[r2], u)
    {
      if u != t || r2 != r { assert Entry(V[u], r2).Some?; }
    }
  }

  lemma RequestWaits(T: Table, V: Views, t: nat, r: nat, ph: Phase)
    requires LockInv(T, V) && 1 <= t < |V| && r < |T.queues|
    requires V[t].wait.None? && r !in V[t].held && ph in {Read, FirstWrite, SecondWrite}
    requires RequestOutcome(T, t, r, ph) == Waiting
    ensures LockInv(Enqueue(T, t, r, ph), AfterRequest(V, t, r, ph, Waiting))
  {
    hide TableInv, Members, StatusOk, Acyclic, Blk;
    RequestAllowed(T, V, t, r, ph);
    RequestAcyclic(T, t, r, ph);
    var T', V' := Enqueue(T, t, r, ph), AfterRequest(V, t, r, ph, Waiting);
    forall x: nat, r2: nat | r2 < |T.queues| && (x != t || r2 != r)
      ensures Blk(T'.queues[r2], x) == Blk(T.queues[r2], x)
    {
      EnqueueFrame(T, t, r, ph, x, r2);
    }
    assert ViewOk(V[t], |T.queues|);
    MembersAfterEnqueue(T, V, t, r, ph, V');
    forall x | 0 <= x < |V'| ensures ViewOk(V'[x], |T'.queues|) { assert ViewOk(V[x], |T.queues|); }
    forall x: nat, r2: nat | x < |V'| && r2 in V'[x].held ensures Blk(T'.queues[r2], x) == {} {
      assert ViewOk(V[x], |T.queues|);
    }
    forall x: nat | x < |V'| && V'[x].wait.Some? && !V'[x].pending
      ensures Blk(T'.queues[V'[x].wait.value.rid], x) != {}
    {
      assert ViewOk(V[x], |T.queues|);
    }
    SameHolders(T, V, T', V');
  }

  lemma SameRequests(T: Table, V: Views, V': Views)
    requires Members(T, V) && |V'| == |V|
    requires forall x: nat, r: nat :: x < |V| ==> Entry(V'[x], r) == Entry(V[x], r)
    ensures Members(T, V')
  { }

  lemma SameEntries(T: Table, V: Views, V': Views)
    requires Members(T, V) && |V'| == |V|
    requires forall x: nat :: x < |V| ==> V'[x].held == V[x].held && V'[x].wait == V[x].wait
    ensures Members(T, V')
  {
    assert forall x: nat, r: nat :: x < |V| ==> Entry(V'[x], r) == Entry(V[x], r);
  }

  /** Status and counts carry over when no lock changes hands. */
  lemma SameHolders(T: Table, V: Views, T': Table, V': Views)
    requires StatusOk(T, V) && |V'| == |V| && T'.status == T.status && T'.readers == T.readers
    requires forall x: nat :: x < |V| ==> V'[x].held == V[x].held
    ensures StatusOk(T', V')
  {
    forall r: nat ensures ReadersOf(V', r) == ReadersOf(V, r) { }
    forall r: nat | r < |T.status| && T.status[r] == WriterLock ensures exists t: nat :: t < |V'| && Writes(V'[t], r) {
      var t: nat :| t < |V| && Writes(V[t], r);
      assert Writes(V'[t], r);
    }
  }

  /** The state between queueing and granting: `t` is in the queue of `r`, unblocked, and
      everything except its own grant is in order. */
  ghost predicate AboutToHold(T: Table, V: Views, t: nat, r: nat, ph: Phase) {
    && TableInv(T) && Acyclic(T.graph) && |V| == |T.graph| && |V| > 0
    && 1 <= t < |V| && r < |T.queues| && r !in V[t].held && ph in {Read, FirstWrite, SecondWrite}
    && (forall x :: 0 <= x < |V| ==> ViewOk(V[x], |T.queues|))
    && V[t].wait.None? && V[0] == LockView(map[], None, false)
    && Members(T, V[t := V[t].(held := V[t].held[r := ph])])
    && HoldersFree(T, V) && Blk(T.queues[r], t) == {}
    && NoLostWakeUp(T, V) && StatusOk(T, V)
  }

  lemma GrantKeepsLocks(T: Table, V: Views, t: nat, r: nat, ph: Phase)
    requires AboutToHold(T, V, t, r, ph)
    ensures LockInv(Grant(T, r, ph), V[t := V[t].(held := V[t].held[r := ph])])
  {
    var T', V' := Grant(T, r, ph), V[t := V[t].(held := V[t].held[r := ph])];
    GrantKeeps(T, r, ph);
    assert ViewOk(V[t], |T.queues|);
    assert Entry(V'[t], r).Some?;
    var q := T.queues[r];
    var p := Pos(q, t);
    assert Entry(V'[t], r) == Some(q[p].phase);
    assert QueueOk(q, |T.graph|);
    FreeIffUnblocked(q, p);
    forall u: nat | u < |V| && r in V[u].held ensures u != t && Reads(V[u], r) && ph == Read {
      assert Entry(V'[u], r).Some?;
      var pu := Pos(q, u);
      assert Entry(V'[u], r) == Some(q[pu].phase);
      FreeIffUnblocked(q, pu);
    }
    GrantStatus(T, V, t, r, ph);
    forall x | 0 <= x < |V'| ensures ViewOk(V'[x], |T'.queues|) { assert ViewOk(V[x], |T.queues|); }
  }

  lemma GrantStatus(T: Table, V: Views, t: nat, r: nat, ph: Phase)
    requires StatusOk(T, V) && r < |T.status| && t < |V|
    requires forall u: nat :: u < |V| && r in V[u].held ==> u != t && Reads(V[u], r) && ph == Read
    ensures StatusOk(Grant(T, r, ph), V[t := V[t].(held := V[t].held[r := ph])])
  {
    var T', V' := Grant(T, r, ph), V[t := V[t].(held := V[t].held[r := ph])];
    forall r2: nat | r2 < |T.status| && r2 != r ensures ReadersOf(V', r2) == ReadersOf(V, r2) { }
    if ph == Read {
      assert ReadersOf(V', r) == ReadersOf(V, r) + {t};
    } else {
      assert ReadersOf(V', r) == ReadersOf(V, r);
      assert Writes(V'[t], r);
    }
    forall r2: nat | r2 < |T'.status| && T'.status[r2] == WriterLock
      ensures exists u: nat :: u < |V'| && Writes(V'[u], r2)
    {
      if r2 != r {
        var u: nat :| u < |V| && Writes(V[u], r2);
        assert Writes(V'[u], r2);
      }
    }
  }

  lemma RequestGranted(T: Table, V: Views, t: nat, r: nat, ph: Phase)
    requires LockInv(T, V) && 1 <= t < |V| && r < |T.queues|
    requires V[t].wait.None? && r !in V[t].held && ph in {Read, FirstWrite, SecondWrite}
    requires RequestOutcome(T, t, r, ph) == Granted
    ensures LockInv(Request(T, t, r, ph), AfterRequest(V, t, r, ph, Granted))
  {
    hide TableInv, Members, StatusOk, Acyclic, Blk;
    RequestAllowed(T, V, t, r, ph);
    EnqueueKeeps(T, t, r, ph);
    var T1 := Enqueue(T, t, r, ph);
    assert T1.graph == T.graph;
    forall x: nat, r2: nat | r2 < |T.queues| && (x != t || r2 != r)
      ensures Blk(T1.queues[r2], x) == Blk(T.queues[r2], x)
    {
      EnqueueFrame(T, t, r, ph, x, r2);
    }
    assert ViewOk(V[t], |T.queues|);
    MembersAfterEnqueue(T, V, t, r, ph, AfterRequest(V, t, r, ph, Granted));
    forall x: nat, r2: nat | x < |V| && r2 in V[x].held ensures Blk(T1.queues[r2], x) == {} {
      assert ViewOk(V[x], |T.queues|);
    }
    forall x: nat | x < |V| && V[x].wait.Some? && !V[x].pending ensures Blk(T1.queues[V[x].wait.value.rid], x) != {} {
      assert ViewOk(V[x], |T.queues|);
    }
    SameHolders(T, V, T1, V);
    GrantKeepsLocks(T1, V, t, r, ph);
  }

  /** A request keeps the invariant whatever its outcome. */
  lemma RequestKeeps(T: Table, V: Views, t: nat, r: nat, ph: Phase)
    requires LockInv(T, V) && 1 <= t < |V| && r < |T.queues|
    requires V[t].wait.None? && r !in V[t].held && ph in {Read, FirstWrite, SecondWrite}
    ensures LockInv(Request(T, t, r, ph), AfterRequest(V, t, r, ph, RequestOutcome(T, t, r, ph)))
  {
    match RequestOutcome(T, t, r, ph)
    case Granted => RequestGranted(T, V, t, r, ph);
    case Waiting => RequestWaits(T, V, t, r, ph);
    case Deadlock =>
  }

  /** The views after a woken thread has looked again. */
  ghost function AfterResume(T: Table, V: Views, t: nat): Views
    requires t < |V| && V[t].wait.Some? && V[t].wait.value.rid < |T.queues|
  {
    var w := V[t].wait.value;
    if Blk(T.queues[w.rid], t) == {} then V[t := LockView(V[t].held[w.rid := w.phase], None, false)]
    else V[t := V[t].(pending := false)]
  }

  lemma ResumeKeeps(T: Table, V: Views, t: nat)
    requires LockInv(T, V) && t < |V| && V[t].wait.Some?
    ensures V[t].wait.value.rid < |T.queues|
    ensures var w := V[t].wait.value;
            LockInv(Resume(T, t, w.rid, w.phase), AfterResume(T, V, t))
  {
    hide TableInv, Members, StatusOk, Acyclic, Blk;
    var w := V[t].wait.value;
    assert ViewOk(V[t], |T.queues|);
    var V1 := V[t := LockView(V[t].held, None, false)];
    if Blk(T.queues[w.rid], t) == {} {
      var V' := V1[t := V1[t].(held := V1[t].held[w.rid := w.phase])];
      SameRequests(T, V, V');
      forall x | 0 <= x < |V1| ensures ViewOk(V1[x], |T.queues|) { assert ViewOk(V[x], |T.queues|); }
      SameHolders(T, V, T, V1);
      GrantKeepsLocks(T, V1, t, w.rid, w.phase);
      assert V' == AfterResume(T, V, t);
    } else {
      var V' := AfterResume(T, V, t);
      SameEntries(T, V, V');
      forall x | 0 <= x < |V'| ensures ViewOk(V'[x], |T.queues|) { assert ViewOk(V[x], |T.queues|); }
      SameHolders(T, V, T, V');
    }
  }

  /** The views after `t` released `r` and the signals went out. */
  ghost function AfterUnlock(T: Table, V: Views, t: nat, r: nat): Views
    requires t < |V| && r < |T.queues|
  {
    Signal(V[t := V[t].(held := V[t].held - {r})], Woken(T, t, r))
  }

  /** Another holder of a released record is a reader, and keeps it reader-locked. */
  lemma UnlockOthers(T: Table, V: Views, t: nat, r: nat, u: nat)
    requires LockInv(T, V) && t < |V| && u < |V| && u != t && r in V[t].held && r in V[u].held
    requires r < |T.queues| && InQueue(T.queues[r], t)
    ensures Unlock(T, t, r).status[r] == ReaderLock && Reads(V[u], r)
  {
    var p := HolderPos(T, V, t, r);
    var pu := HolderPos(T, V, u, r);
    Exclusion(T, V, t, u, r);
    var q' := RemoveAt(T.queues[r], p);
    assert q'[0] == T.queues[r][Up(p, 0)];
    assert Up(p, 0) <= pu;
  }

  lemma ReadersAfterRelease(V: Views, t: nat, r: nat, r2: nat)
    requires t < |V| && r in V[t].held
    ensures var V' := V[t := V[t].(held := V[t].held - {r})];
            |ReadersOf(V', r2)| + (if r2 == r && Reads(V[t], r) then 1 else 0) == |ReadersOf(V, r2)|
  {
    var V' := V[t := V[t].(held := V[t].held - {r})];
    if r2 == r && Reads(V[t], r) {
      assert t in ReadersOf(V, r);
      assert ReadersOf(V', r2) == ReadersOf(V, r) - {t};
    } else {
      assert ReadersOf(V', r2) == ReadersOf(V, r2);
    }
  }

  lemma ReleaseStatus(T: Table, V: Views, t: nat, r: nat, T': Table)
    requires StatusOk(T, V) && t < |V| && r in V[t].held && r < |T.status|
    requires |T'.status| == |T'.readers| == |T.status| && T'.status[r] != WriterLock
    requires T'.readers[r] + (if Reads(V[t], r) then 1 else 0) == T.readers[r]
    requires forall r2: nat :: r2 < |T.status| && r2 != r ==>
               T'.status[r2] == T.status[r2] && T'.readers[r2] == T.readers[r2]
    requires forall u: nat :: u < |V| && u != t && r in V[u].held ==> T'.status[r] == ReaderLock && Reads(V[u], r)
    ensures StatusOk(T', V[t := V[t].(held := V[t].held - {r})])
  {
    var V' := V[t := V[t].(held := V[t].held - {r})];
    forall r2: nat | r2 < |T'.status|
      ensures T'.readers[r2] == |ReadersOf(V', r2)|
    {
      ReadersAfterRelease(V, t, r, r2);
    }
    forall r2: nat | r2 < |T'.status| && T'.status[r2] == WriterLock
      ensures exists u: nat :: u < |V'| && Writes(V'[u], r2)
    {
      var u: nat :| u < |V| && Writes(V[u], r2);
      assert Writes(V'[u], r2);
    }
  }

  lemma UnlockStatus(T: Table, V: Views, t: nat, r: nat)
    requires LockInv(T, V) && t < |V| && r in V[t].held && r < |T.queues| && InQueue(T.queues[r], t)
    ensures StatusOk(Unlock(T, t, r), V[t := V[t].(held := V[t].held - {r})])
  {
    HoldersOfRecord(T, V, t, r);
    forall u: nat | u < |V| && u != t && r in V[u].held
      ensures Unlock(T, t, r).status[r] == ReaderLock && Reads(V[u], r)
    {
      UnlockOthers(T, V, t, r, u);
    }
    ReleaseStatus(T, V, t, r, Unlock(T, t, r));
  }

  lemma UnlockMembers(T: Table, V: Views, t: nat, r: nat)
    requires LockInv(T, V) && t < |V| && r in V[t].held && r < |T.queues| && InQueue(T.queues[r], t)
    ensures Members(Unlock(T, t, r), V[t := V[t].(held := V[t].held - {r})])
  {
    hide GraphExact, StatusOk, HoldersFree, NoLostWakeUp, Acyclic, Blk;
    var p := HolderPos(T, V, t, r);
    var T', V' := Unlock(T, t, r), V[t := V[t].(held := V[t].held - {r})];
    assert ViewOk(V[t], |T.queues|);
    RemoveDistinct(T.queues[r], p);
    forall r2: nat, x: nat | r2 < |T'.queues| && x < |T'.queues[r2]|
      ensures Entry(V'[T'.queues[r2][x].tid], r2) == Some(T'.queues[r2][x].phase)
    {
      if r2 == r {
        var e := T'.queues[r][x];
        assert e == T.queues[r][Up(p, x)];
        assert e.tid != t;
      } else {
        assert T'.queues[r2][x] == T.queues[r2][x];
      }
    }
    forall u: nat, r2: nat | u < |V'| && r2 < |T'.queues| && Entry(V'[u], r2).Some? ensures InQueue(T'.queues[r2], u) {
      assert Entry(V[u], r2).Some?;
    }
  }

  /** If a release unblocks a sleeper without a signal, it signals it. */
  lemma UnlockWakesSleeper(T: Table, V: Views, t: nat, r: nat, x: nat)
    requires LockInv(T, V) && t < |V| && r in V[t].held && r < |T.queues| && InQueue(T.queues[r], t)
    requires x < |V| && V[x].wait.Some? && !V[x].pending && x !in Woken(T, t, r)
    ensures var r2 := V[x].wait.value.rid;
            r2 < |T.queues| && Blk(Unlock(T, t, r).queues[r2], x) != {}
  {
    assert ViewOk(V[x], |T.queues|);
    UnlockKeeps(T, t, r);
    var b := Blk(T.queues[r], x);
    assert b - {t} == {} ==> b == {} || b == {t};
  }

  lemma UnlockHolders(T: Table, V: Views, t: nat, r: nat)
    requires LockInv(T, V) && t < |V| && r in V[t].held && r < |T.queues| && InQueue(T.queues[r], t)
    ensures HoldersFree(Unlock(T, t, r), V[t := V[t].(held := V[t].held - {r})])
  {
    UnlockKeeps(T, t, r);
    var T', V' := Unlock(T, t, r), V[t := V[t].(held := V[t].held - {r})];
    forall x: nat, r2: nat | x < |V'| && r2 in V'[x].held ensures r2 < |T'.queues| && Blk(T'.queues[r2], x) == {} {
      assert r2 in V[x].held;
    }
  }

  /** A release keeps the invariant. */
  lemma UnlockKeepsLocks(T: Table, V: Views, t: nat, r: nat)
    requires LockInv(T, V) && t < |V| && r in V[t].held
    ensures r < |T.queues| && InQueue(T.queues[r], t)
    ensures LockInv(Unlock(T, t, r), AfterUnlock(T, V, t, r))
  {
    hide GraphExact, QueueOk, Members, StatusOk, Acyclic, Blk, Woken;
    UnlockAllowed(T, V, t, r);
    UnlockHolders(T, V, t, r);
    UnlockKeeps(T, t, r);
    var T', V1, V' := Unlock(T, t, r), V[t := V[t].(held := V[t].held - {r})], AfterUnlock(T, V, t, r);
    SubGraphAcyclic(T'.graph, T.graph);
    UnlockMembers(T, V, t, r);
    UnlockStatus(T, V, t, r);
    SameEntries(T', V1, V');
    SameHolders(T', V1, T', V');
    forall x: nat | x < |V'| && V'[x].wait.Some? && !V'[x].pending
      ensures V'[x].wait.value.rid < |T'.queues| && Blk(T'.queues[V'[x].wait.value.rid], x) != {}
    {
      UnlockWakesSleeper(T, V, t, r, x);
    }
    forall x | 0 <= x < |V'| ensures ViewOk(V'[x], |T'.queues|) { assert ViewOk(V[x], |T.queues|); }
  }

  // ----- no deadlock -----

  /** From every sleeping thread the waiting chain leads to a thread that is not blocked:
      one that does not sleep, or one that has a signal and may take its lock. */
  lemma WaitChainEnds(T: Table, V: Views, t: nat) returns (chain: seq<nat>)
    requires LockInv(T, V) && 1 <= t < |V|
    ensures IsPath(T.graph, chain) && chain[0] == t
    ensures var u := chain[|chain| - 1];
            && 1 <= u < |V| && T.graph[u] == {}
            && (V[u].wait.Some? ==> V[u].pending && V[u].wait.value.rid < |T.queues|
                                    && Blk(T.queues[V[u].wait.value.rid], u) == {})
    ensures |chain| > 1 ==>
              var u := chain[|chain| - 1];
              exists r: nat :: r < |T.queues| && Entry(V[u], r).Some?
  {
    forall u: nat, v: nat | u < |T.graph| && v in T.graph[u] ensures v < |T.graph| { GraphTargets(T, u, v); }
    chain := ChainEnds(T.graph, [t]);
    var u := chain[|chain| - 1];
    if |chain| > 1 {
      var x := chain[|chain| - 2];
      assert Edge(T.graph, x, chain[(|chain| - 2) + 1]);
      GraphTargets(T, x, u);
      var r: nat :| WaitsAt(T, x, r);
      var m, p := BlkWitness(T.queues[r], x, u);
      assert Entry(V[T.queues[r][m].tid], r).Some?;
    }
    if V[u].wait.Some? { SleeperEdges(T, V, u); }
  }

  /** A thread that holds nothing and asks for its first lock cannot close a cycle,
      because nobody can be waiting for it. */
  lemma FirstRequestNeverDeadlocks(T: Table, V: Views, t: nat, r: nat, ph: Phase)
    requires LockInv(T, V) && 1 <= t < |V| && r < |T.queues|
    requires V[t].wait.None? && V[t].held == map[] && ph in {Read, FirstWrite, SecondWrite}
    ensures RequestOutcome(T, t, r, ph) != Deadlock
  {
    RequestAllowed(T, V, t, r, ph);
    EnqueueKeeps(T, t, r, ph);
    var T1 := Enqueue(T, t, r, ph);
    if OnCycle(T1.graph, t) {
      var c :| IsCycle(T1.graph, c, t);
      var x := c[|c| - 2];
      assert Edge(T1.graph, x, c[(|c| - 2) + 1]);
      GraphTargets(T1, x, t);
      assert false;
    }
  }
}
