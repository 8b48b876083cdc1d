/** What holds in every state of every run of the transaction machine. */
module TransactionTheorems {
  import opened Graphs
  import opened LockQueues
  import opened LockTables
  import opened LockProtocol
  import opened Options
  import opened SerialReplay
  import opened Sums
  import opened Transactions
  import opened TransactionProofs

  /** Serializability in commit order: the log is numbered from 1 without a gap, its values
      are those of a serial execution in that order, and every record without an uncommitted
      write holds the serially computed value, which is 100 plus what the log says was added. */
  lemma Serializable(c: Config, run: seq<State>, n: nat)
    requires IsRun(c, run) && n < |run|
    ensures var s := run[n];
            && Serial(c.records, s.logs) && |s.records| == c.records
            && |s.logs| == (if s.order <= c.commits then s.order else c.commits)
            && (forall m :: 0 <= m < |s.logs| ==>
                  && s.logs[m].vi == ReplayTo(c.records, s.logs, m)[s.logs[m].i]
                  && s.logs[m].vj == ReplayPast(c.records, s.logs, m)[s.logs[m].j]
                  && s.logs[m].vk == ReplayPast(c.records, s.logs, m)[s.logs[m].k])
            && forall r: nat :: r < c.records && NotWritten(s.threads, r) ==>
                 s.records[r] == Replay(c.records, s.logs)[r] == 100 + Net(s.logs, r)
  {
    hide LockInv, TableInv, Serial, Replay;
    RunInv(c, run, n);
    var s := run[n];
    LoggedValues(c.records, s.logs);
    hide ReplayTo, ReplayPast;
    forall r: nat | r < c.records && NotWritten(s.threads, r)
      ensures s.records[r] == Replay(c.records, s.logs)[r] == 100 + Net(s.logs, r)
    {
      RecordIsNet(c.records, s.logs, r);
      if t :| 0 <= t < |s.threads| && WritesTo(s.threads[t], r) {
        assert ThreadOk(s.threads[t], s.records, Replay(c.records, s.logs));
        assert !HasWritten(s.threads[t], r);
      } else {
        assert Unwritten(s.threads, r);
      }
    }
  }

  lemma LoggedValues(n: nat, logs: seq<Log>)
    requires Serial(n, logs)
    ensures forall m :: 0 <= m < |logs| ==>
              && logs[m].vi == ReplayTo(n, logs, m)[logs[m].i]
              && logs[m].vj == ReplayPast(n, logs, m)[logs[m].j]
              && logs[m].vk == ReplayPast(n, logs, m)[logs[m].k]
  {
    hide AgreesAt, Replay;
    VerdictMeans(logs, n, false);
  }

  /** The transaction has written the record and not yet committed. */
  predicate HasWritten(th: Thread, r: nat) {
    (HasWrittenJ(th.pc) && r == th.j) || (th.pc == AtCommit && r == th.k)
  }

  ghost predicate NotWritten(threads: seq<Thread>, r: nat) {
    forall t :: 0 <= t < |threads| ==> !HasWritten(threads[t], r)
  }

  /** The marking program finds no fault with the log of any run. */
  method MarkerAccepts(logs: seq<Log>, ghost c: Config, ghost run: seq<State>, ghost n: nat)
    returns (wrongFound: bool, records: seq<int>)
    requires IsRun(c, run) && n < |run| && logs == run[n].logs
    ensures !wrongFound
  {
    wrongFound, records := Mark(logs);
    hide IsRun, LockInv, DataInv, AgreesAt;
    RunInv(c, run, n);
    ghost var more := c.records + 1;
    assert LogsOk(logs, more);
    forall m: nat | m < |logs| ensures AgreesAt(more, logs, m) {
      assert AgreesAt(c.records, logs, m);
      AgreesPrefix(c.records, more, logs, m);
    }
  }

  // ----- how a run ends -----

  /** A worker has left its loop only when the commits were used up. */
  ghost predicate LeftLate(c: Config, s: State) {
    forall t :: 1 <= t < |s.threads| && s.threads[t].pc == Done ==> s.order > c.commits
  }

  /** What a step does to the commit counter and to who has left. */
  lemma LoopShape(c: Config, s: State, step: Step, s': State)
    requires Next(c, s, step, s')
    ensures |s'.threads| == |s.threads| && s'.order >= s.order
    ensures forall t :: 0 <= t < |s.threads| && t != step.t ==> s'.threads[t].pc == s.threads[t].pc
    ensures s'.threads[step.t].pc == Done && s.threads[step.t].pc != Done ==> s'.order > c.commits
  {
    hide AskStep, WakeStep, AccessStep, FinishStep;
    match step
    case Begin(_, _, _, _) =>
    case Leave(_) =>
    case Ask(t, w) => AskLoop(c, s, t, w, s');
    case Wake(t) => WakeLoop(s, t, s');
    case Access(t) => AccessLoop(s, t, s');
    case Finish(t) => FinishLoop(c, s, t, s');
  }

  lemma AskLoop(c: Config, s: State, t: nat, w: nat, s': State)
    requires t < |s.threads| && Asking(s.threads[t].pc) && AskStep(s, t, w, s')
    ensures |s'.threads| == |s.threads| && s'.order == s.order && s'.threads[t].pc != Done
    ensures forall u :: 0 <= u < |s.threads| && u != t ==> s'.threads[u].pc == s.threads[u].pc
  {
    hide Rollback, LockTables.Request, RequestOutcome, Enqueue, Edge;
  }

  lemma WakeLoop(s: State, t: nat, s': State)
    requires t < |s.threads| && Asleep(s.threads[t].pc) && WakeStep(s, t, s')
    ensures |s'.threads| == |s.threads| && s'.order == s.order && s'.threads[t].pc != Done
    ensures forall u :: 0 <= u < |s.threads| && u != t ==> s'.threads[u].pc == s.threads[u].pc
  {
    hide Resume, Blk;
  }

  lemma AccessLoop(s: State, t: nat, s': State)
    requires t < |s.threads| && AccessStep(s, t, s')
    ensures |s'.threads| == |s.threads| && s'.order == s.order && s'.threads[t].pc != Done
    ensures forall u :: 0 <= u < |s.threads| && u != t ==> s'.threads[u].pc == s.threads[u].pc
  { }

  lemma FinishLoop(c: Config, s: State, t: nat, s': State)
    requires t < |s.threads| && FinishStep(c, s, t, s')
    ensures |s'.threads| == |s.threads| && s'.order == s.order + 1
    ensures s'.threads[t].pc == Done ==> s'.order > c.commits
    ensures forall u :: 0 <= u < |s.threads| && u != t ==> s'.threads[u].pc == s.threads[u].pc
  {
    hide Rollback, ReleaseLocks;
  }

  lemma {:induction false} LeftLateRun(c: Config, run: seq<State>, n: nat)
    requires IsRun(c, run) && n < |run|
    ensures LeftLate(c, run[n]) && |run[n].threads| == c.threads
  {
    hide Next;
    if n > 0 {
      LeftLateRun(c, run, n - 1);
      assert Steps(c, run[n - 1], run[n - 1 + 1]);
      var step :| Next(c, run[n - 1], step, run[n]);
      LoopShape(c, run[n - 1], step, run[n]);
      assert forall t :: 1 <= t < |run[n].threads| && run[n].threads[t].pc == Done && t != step.t ==>
                           run[n - 1].threads[t].pc == Done;
    }
  }

  /** A run in which every worker has finished has committed exactly as often as it was told to. */
  lemma FinishedRun(c: Config, run: seq<State>, n: nat)
    requires IsRun(c, run) && n < |run| && |run[n].threads| >= 2
    requires forall t :: 1 <= t < |run[n].threads| ==> run[n].threads[t].pc == Done
    ensures run[n].order > c.commits && |run[n].logs| == c.commits
  {
    hide IsRun, LockInv, TableInv, Serial, DataInv;
    LeftLateRun(c, run, n);
    RunInv(c, run, n);
    assert run[n].threads[1].pc == Done;
  }

  /** The loop test of a worker: a new transaction starts only while the commits are not used up,
      and the worker leaves between transactions only when they are. */
  lemma LoopTest(c: Config, run: seq<State>, n: nat, t: nat)
    requires IsRun(c, run) && n + 1 < |run| && t < |run[n].threads| == |run[n + 1].threads|
    requires run[n].threads[t].pc == Start && run[n + 1].threads[t].pc != Start
    ensures run[n + 1].threads[t].pc == (if run[n].order <= c.commits then AskRead else Done)
    ensures run[n + 1].records == run[n].records && run[n + 1].logs == run[n].logs && run[n + 1].order == run[n].order
  {
    hide Release, UndoRead, UndoFirst, UndoSecond, Rollback, ReleaseLocks, LockTables.Request, Resume,
         RequestOutcome, Enqueue, Blk;
    assert Steps(c, run[n], run[n + 1]);
    var step :| Next(c, run[n], step, run[n + 1]);
    if step.t != t { LoopShape(c, run[n], step, run[n + 1]); }
  }

  /** When no transaction is in progress, the records sum up to 100 per record plus one
      per commit: aborted transactions leave no trace. */
  lemma QuiescentSum(c: Config, run: seq<State>, n: nat)
    requires IsRun(c, run) && n < |run|
    requires forall t :: 0 <= t < |run[n].threads| ==> !Active(run[n].threads[t].pc)
    ensures Sum(run[n].records) == 100 * c.records + |run[n].logs|
  {
    hide LockInv, TableInv, Serial, Replay;
    RunInv(c, run, n);
    var s := run[n];
    forall r: nat | r < c.records ensures s.records[r] == Replay(c.records, s.logs)[r] {
      assert Unwritten(s.threads, r);
    }
    assert s.records == Replay(c.records, s.logs);
    SumOfReplay(c.records, s.logs);
  }

  /** The records that `th` wrote have their committed values again, the others are as
      they were, and thread `t` is in no queue. */
  ghost predicate ExactUndo(th: Thread, t: nat, records: seq<int>, base: seq<int>, e: Effect) {
    && |e.records| == |records| == |base| && th.j < |records| && th.k < |records|
    && e.records[th.j] == (if HasWrittenJ(th.pc) then base[th.j] else records[th.j])
    && e.records[th.k] == (if th.pc == AtCommit then base[th.k] else records[th.k])
    && (forall r :: 0 <= r < |records| && r != th.j && r != th.k ==> e.records[r] == records[r])
    && (forall r :: 0 <= r < |e.table.queues| ==> !InQueue(e.table.queues[r], t))
  }

  /** From whichever phase a transaction aborts, the undo is exact. */
  lemma RollbackIsExact(c: Config, run: seq<State>, n: nat, t: nat, phase: Phase, woken: set<nat>)
    requires IsRun(c, run) && n < |run| && 1 <= t < |run[n].threads| && AbortsIn(run[n].threads[t].pc, phase)
    ensures LogsOk(run[n].logs, c.records)
    ensures var s := run[n];
            ExactUndo(s.threads[t], t, s.records, Replay(c.records, s.logs),
                      Rollback(Effect(s.table, s.records, woken), t, s.threads[t], phase))
  {
    hide LockInv, TableInv, DataInv, Exclusive, Serial, Replay, Rollback, Release;
    RunInv(c, run, n);
    var s := run[n];
    var th := s.threads[t];
    ThreadFacts(c, s, t);
    StartReleasing(s.table, s.records, s.threads, t, woken);
    var e0 := Effect(s.table, s.records, woken);
    RollbackKeeps(e0, ViewsOf(s.threads), t, th, phase);
    RollbackRecords(e0, t, th, phase);
    LeftAllQueues(Rollback(e0, t, th, phase), ViewsOf(s.threads), t);
  }

  lemma LeftAllQueues(e: Effect, V: Views, t: nat)
    requires ReleasingOk(e, V, t, map[])
    ensures forall r :: 0 <= r < |e.table.queues| ==> !InQueue(e.table.queues[r], t)
  {
    assert forall r: nat :: Entry(Releasing(V, t, map[], e.woken)[t], r) == None;
  }

  /** The stored wait-for graph is, in every reachable state, the function of the queues. */
  lemma GraphFollowsQueues(c: Config, run: seq<State>, n: nat, t: nat)
    requires IsRun(c, run) && n < |run| && t < |run[n].threads|
    ensures |run[n].table.graph| == |run[n].threads|
    ensures run[n].table.graph[t] == WaitFor(run[n].table.queues, t)
    ensures Acyclic(run[n].table.graph)
  {
    RunInv(c, run, n);
    GraphIsWaitFor(run[n].table, t);
  }

  /** Every assertion of the lock table and the graph that the next critical section of a
      thread can reach is met. */
  ghost predicate CallAllowed(s: State, t: nat)
    requires t < |s.threads|
  {
    var th, T := s.threads[t], s.table;
    var a := Transactions.Request(th);
    && (Asking(th.pc) ==>
          && CanRequest(T, t, a.rid, a.phase) && |T.status| == |T.readers| == |T.queues|
          && (T.queues[a.rid] == [] ==> T.status[a.rid] != WriterLock && T.readers[a.rid] == 0)
          && forall woken :: RollbackAllowed(Effect(T, s.records, woken), t, th, a.phase))
    && (Asleep(th.pc) ==>
          && a.rid < |T.queues| == |T.status| == |T.readers| && InQueue(T.queues[a.rid], t)
          && T.queues[a.rid][Pos(T.queues[a.rid], t)].phase == a.phase
          && (a.phase != Read && Blk(T.queues[a.rid], t) == {} ==>
                T.status[a.rid] != WriterLock && T.readers[a.rid] == 0))
    && (th.pc == AtCommit ==>
          && ReleaseLocksAllowed(Effect(T, s.records, {}), t, th)
          && RollbackAllowed(Effect(T, s.records, {}), t, th, Commit))
  }

  lemma AssertionsHold(c: Config, run: seq<State>, n: nat, t: nat)
    requires IsRun(c, run) && n < |run| && 1 <= t < |run[n].threads|
    ensures CallAllowed(run[n], t)
  {
    hide LockInv, TableInv, DataInv, Exclusive, Serial, Replay, Blk;
    RunInv(c, run, n);
    var s := run[n];
    var th, V := s.threads[t], ViewsOf(s.threads);
    var a := Transactions.Request(th);
    ThreadFacts(c, s, t);
    LockLengths(s.table, V);
    if Asking(th.pc) {
      RequestAllowed(s.table, V, t, a.rid, a.phase);
      forall woken ensures RollbackAllowed(Effect(s.table, s.records, woken), t, th, a.phase) {
        StartReleasing(s.table, s.records, s.threads, t, woken);
        RollbackKeeps(Effect(s.table, s.records, woken), V, t, th, a.phase);
      }
    }
    if Asleep(th.pc) { ResumeAllowed(s.table, V, t); }
    if th.pc == AtCommit {
      var e := Effect(s.table, s.records, {});
      StartReleasing(s.table, s.records, s.threads, t, {});
      RollbackKeeps(e, V, t, th, Commit);
      ReleaseLocksKeeps(e, V, t, th);
    }
  }

  /** One writer at the head of the queue and nobody else, or readers with no writer
      ahead; status and reader count to match. */
  ghost predicate RecordOk(T: Table, V: Views, r: nat) {
    && r < |T.queues| == |T.status| == |T.readers|
    && T.readers[r] == |ReadersOf(V, r)|
    && (T.status[r] == WriterLock <==> exists t: nat :: t < |V| && Writes(V[t], r))
    && (forall t: nat, u: nat :: t < |V| && u < |V| && Writes(V[t], r) && r in V[u].held ==> u == t)
    && (forall t: nat :: t < |V| && r in V[t].held ==>
          && InQueue(T.queues[r], t)
          && (Writes(V[t], r) ==> T.queues[r][0].tid == t)
          && (Reads(V[t], r) ==> T.status[r] == ReaderLock && NoWriter(T.queues[r], 0, Pos(T.queues[r], t))))
  }

  /** Reader/writer exclusion on every record in every state. */
  lemma ReadersWriters(c: Config, run: seq<State>, n: nat, r: nat)
    requires IsRun(c, run) && n < |run| && r < c.records
    ensures RecordOk(run[n].table, ViewsOf(run[n].threads), r)
  {
    RunInv(c, run, n);
    var T, V := run[n].table, ViewsOf(run[n].threads);
    forall t: nat | t < |V| && r in V[t].held
      ensures InQueue(T.queues[r], t) && (Reads(V[t], r) ==> NoWriter(T.queues[r], 0, Pos(T.queues[r], t)))
      ensures Writes(V[t], r) ==> T.queues[r][0].tid == t && forall u: nat :: u < |V| && r in V[u].held ==> u == t
    {
      HoldersOfRecord(T, V, t, r);
      var p := HolderPos(T, V, t, r);
    }
  }

  /** No lost wake-up: a thread that sleeps without a pending signal still has a writer
      ahead of it, or, when it wants to write, anybody ahead of it. */
  lemma SleepersAreBlocked(c: Config, run: seq<State>, n: nat, t: nat)
    requires IsRun(c, run) && n < |run| && t < |run[n].threads|
    requires Asleep(run[n].threads[t].pc) && !run[n].threads[t].pending
    ensures var a := Transactions.Request(run[n].threads[t]); var T := run[n].table;
            && a.rid < |T.queues| && InQueue(T.queues[a.rid], t)
            && if a.phase == Read then !NoWriter(T.queues[a.rid], 0, Pos(T.queues[a.rid], t))
               else Pos(T.queues[a.rid], t) > 0
  {
    RunInv(c, run, n);
    var s := run[n];
    var a := Transactions.Request(s.threads[t]);
    ResumeAllowed(s.table, ViewsOf(s.threads), t);
    assert QueueOk(s.table.queues[a.rid], |s.table.graph|);
    assert ViewsOf(s.threads)[t].wait.Some?;
    FreeIffUnblocked(s.table.queues[a.rid], Pos(s.table.queues[a.rid], t));
  }

  /** A read request never reports a deadlock, so the rollback of a transaction in its
      read phase is dead code. */
  lemma ReadNeverDeadlocks(c: Config, run: seq<State>, n: nat, t: nat)
    requires IsRun(c, run) && n < |run| && 1 <= t < |run[n].threads| && run[n].threads[t].pc == AskRead
    ensures var s := run[n]; s.threads[t].i < |s.table.queues| && t < |s.table.graph|
    ensures RequestOutcome(run[n].table, t, run[n].threads[t].i, Read) != Deadlock
  {
    RunInv(c, run, n);
    ThreadFacts(c, run[n], t);
    FirstRequestNeverDeadlocks(run[n].table, ViewsOf(run[n].threads), t, run[n].threads[t].i, Read);
  }

  // ----- progress -----

  /** The thread can move: it runs, or it sleeps with a signal and nobody blocks it. */
  ghost predicate Ready(s: State, t: nat) {
    && 1 <= t < |s.threads| && s.threads[t].pc != Done
    && (Asleep(s.threads[t].pc) ==>
          var a := Transactions.Request(s.threads[t]);
          s.threads[t].pending && a.rid < |s.table.queues| && Blk(s.table.queues[a.rid], t) == {})
  }

  /** A ready thread has a step, and the step moves it forward. */
  lemma ReadyMoves(c: Config, s: State, t: nat) returns (step: Step, s': State)
    requires Inv(c, s) && Ready(s, t) && c.records >= 3
    ensures Next(c, s, step, s') && step.t == t
    ensures |s'.threads| == |s.threads| && s'.threads[t].pc != s.threads[t].pc
  {
    hide LockInv, TableInv, DataInv, Exclusive;
    ThreadFacts(c, s, t);
    var th := s.threads[t];
    if th.pc == Start {
      if s.order <= c.commits {
        step, s' := Begin(t, 0, 1, 2), s.(threads := s.threads[t := Idle(AskRead).(i := 0, j := 1, k := 2)]);
      } else {
        step, s' := Leave(t), s.(threads := s.threads[t := Idle(Done)]);
      }
    } else if Asking(th.pc) {
      step, s' := AskMoves(c, s, t);
    } else if Asleep(th.pc) {
      var a := Transactions.Request(th);
      LockLengths(s.table, ViewsOf(s.threads));
      step := Wake(t);
      s' := s.(table := Resume(s.table, t, a.rid, a.phase),
               threads := s.threads[t := th.(pc := WhenGranted(th.pc), pending := false)]);
    } else if th.pc == AtCommit {
      step, s' := FinishMoves(c, s, t);
    } else {
      step, s' := AccessMoves(c, s, t);
    }
  }

  lemma FinishMoves(c: Config, s: State, t: nat) returns (step: Step, s': State)
    requires 1 <= t < |s.threads| && s.threads[t].pc == AtCommit
    ensures Next(c, s, step, s') && step.t == t
    ensures |s'.threads| == |s.threads| && s'.threads[t].pc != s.threads[t].pc
  {
    var th := s.threads[t];
    var e := Effect(s.table, s.records, {});
    step := Finish(t);
    if s.order + 1 > c.commits {
      s' := Apply(s.(order := s.order + 1), t, Idle(Done), Rollback(e, t, th, Commit));
    } else {
      s' := Apply(s.(order := s.order + 1, logs := s.logs + [LogOf(th, s.order + 1)]), t,
                  Idle(Start), ReleaseLocks(e, t, th));
    }
  }

  lemma AccessMoves(c: Config, s: State, t: nat) returns (step: Step, s': State)
    requires 1 <= t < |s.threads| && s.threads[t].i < |s.records| && s.threads[t].j < |s.records|
    requires s.threads[t].k < |s.records|
    requires s.threads[t].pc in {LoadI, LoadJ, StoreJ, LoadK, StoreK}
    ensures Next(c, s, step, s') && step.t == t
    ensures |s'.threads| == |s.threads| && s'.threads[t].pc != s.threads[t].pc
  {
    var th := s.threads[t];
    step := Access(t);
    match th.pc
    case LoadI => s' := s.(threads := s.threads[t := th.(pc := AskFirst, vi := s.records[th.i])]);
    case LoadJ => s' := s.(threads := s.threads[t := th.(pc := StoreJ, tmp := s.records[th.j])]);
    case StoreJ =>
      s' := s.(records := s.records[th.j := th.tmp + (th.vi + 1)],
               threads := s.threads[t := th.(pc := AskSecond, vj := th.tmp + (th.vi + 1))]);
    case LoadK => s' := s.(threads := s.threads[t := th.(pc := StoreK, tmp := s.records[th.k])]);
    case StoreK =>
      s' := s.(records := s.records[th.k := th.tmp - th.vi],
               threads := s.threads[t := th.(pc := AtCommit, vk := th.tmp - th.vi)]);
  }

  lemma AskMoves(c: Config, s: State, t: nat) returns (step: Step, s': State)
    requires Inv(c, s) && 1 <= t < |s.threads| && Asking(s.threads[t].pc)
    ensures Next(c, s, step, s') && step.t == t
    ensures |s'.threads| == |s.threads| && s'.threads[t].pc != s.threads[t].pc
  {
    hide LockInv;
    ThreadFacts(c, s, t);
    LockLengths(s.table, ViewsOf(s.threads));
    var th := s.threads[t];
    var a := Transactions.Request(th);
    var outcome := RequestOutcome(s.table, t, a.rid, a.phase);
    step := Ask(t, 0);
    if outcome == Granted {
      s' := s.(table := LockTables.Request(s.table, t, a.rid, a.phase),
               threads := s.threads[t := th.(pc := WhenGranted(th.pc))]);
    } else if outcome == Waiting {
      s' := s.(table := LockTables.Request(s.table, t, a.rid, a.phase),
               threads := s.threads[t := th.(pc := WhenWaiting(th.pc), pending := false)]);
    } else {
      var g := Enqueue(s.table, t, a.rid, a.phase).graph;
      var p :| IsCycle(g, p, t);
      var w := p[|p| - 2];
      assert Edge(g, p[|p| - 2], p[(|p| - 2) + 1]);
      step := Ask(t, w);
      s' := Apply(s, t, Idle(Start), Rollback(Effect(s.table, s.records, {w}), t, th, a.phase));
    }
  }

  /** Every blocked thread has a chain of waiting threads that ends in a ready one, and no
      chain ends in a thread that has finished. */
  lemma ChainToReady(c: Config, run: seq<State>, n: nat, t: nat) returns (chain: seq<nat>)
    requires IsRun(c, run) && n < |run| && 1 <= t < |run[n].threads| && run[n].threads[t].pc != Done
    ensures IsPath(run[n].table.graph, chain) && chain[0] == t
    ensures Ready(run[n], chain[|chain| - 1])
  {
    hide LockInv, TableInv, DataInv, Blk, Acyclic, Serial, Replay;
    RunInv(c, run, n);
    chain := WaitChainEnds(run[n].table, ViewsOf(run[n].threads), t);
    UnblockedIsReady(run[n], chain[|chain| - 1]);
  }

  lemma UnblockedIsReady(s: State, u: nat)
    requires 1 <= u < |s.threads|
    requires var v := ViewOf(s.threads[u]);
             && (v.wait.Some? ==>
                   v.pending && v.wait.value.rid < |s.table.queues| && Blk(s.table.queues[v.wait.value.rid], u) == {})
             && (s.threads[u].pc != Done || exists r: nat :: Entry(v, r).Some?)
    ensures Ready(s, u)
  {
    hide Blk;
  }

  /** No deadlock: as long as a thread has not finished, some thread has a step that moves
      it forward. */
  lemma NeverStuck(c: Config, run: seq<State>, n: nat, t: nat) returns (step: Step, s': State)
    requires IsRun(c, run) && n < |run| && c.records >= 3
    requires 1 <= t < |run[n].threads| && run[n].threads[t].pc != Done
    ensures Next(c, run[n], step, s')
    ensures |s'.threads| == |run[n].threads| && 1 <= step.t < |s'.threads|
    ensures s'.threads[step.t].pc != run[n].threads[step.t].pc
  {
    RunInv(c, run, n);
    var chain := ChainToReady(c, run, n, t);
    step, s' := ReadyMoves(c, run[n], chain[|chain| - 1]);
  }
}
