/** Every run of the transaction machine is serializable in commit order, loses no
    wake-up, trips no assertion, and never gets stuck. */
module TransactionProofs {
  import opened Graphs
  import opened LockQueues
  import opened LockTables
  import opened LockProtocol
  import opened Options
  import opened SerialReplay
  import opened Transactions

  // ----- the invariant -----

  predicate Active(pc: Pc) { pc != Start && pc != Done }

  predicate HasRead(pc: Pc) { Active(pc) && pc != AskRead && pc != SleepRead && pc != LoadI }

  predicate DistinctIds(th: Thread) { th.i != th.j && th.k != th.i && th.k != th.j }

  predicate WritesTo(th: Thread, r: nat) { (HoldsJ(th.pc) && r == th.j) || (HoldsK(th.pc) && r == th.k) }

  predicate Uses(th: Thread, r: nat) { (HoldsI(th.pc) && r == th.i) || WritesTo(th, r) }

  /** What a thread knows about the records it has locked, where `base` is the replay of
      everything committed so far. */
  ghost predicate ThreadOk(th: Thread, records: seq<int>, base: seq<int>) {
    && |records| == |base|
    && (Active(th.pc) ==>
          && th.i < |base| && th.j < |base| && th.k < |base| && DistinctIds(th))
    && (HasRead(th.pc) ==> th.vi == base[th.i])
    && (th.pc == LoadJ || th.pc == StoreJ ==> records[th.j] == base[th.j])
    && (th.pc == StoreJ ==> th.tmp == records[th.j])
    && (HasWrittenJ(th.pc) ==> th.vj == records[th.j] == base[th.j] + (th.vi + 1))
    && (th.pc == LoadK || th.pc == StoreK ==> records[th.k] == base[th.k])
    && (th.pc == StoreK ==> th.tmp == records[th.k])
    && (th.pc == AtCommit ==> th.vk == records[th.k] == base[th.k] - th.vi)
  }

  ghost predicate Unwritten(threads: seq<Thread>, r: nat) {
    forall t :: 0 <= t < |threads| ==> !WritesTo(threads[t], r)
  }

  ghost predicate DataInv(threads: seq<Thread>, records: seq<int>, base: seq<int>) {
    && |records| == |base|
    && (forall t :: 0 <= t < |threads| ==> ThreadOk(threads[t], records, base))
    && (forall r: nat :: r < |base| && Unwritten(threads, r) ==> records[r] == base[r])
  }

  ghost predicate Inv(c: Config, s: State) {
    && c.threads > 0 && |s.threads| == c.threads && |s.table.queues| == c.records
    && LockInv(s.table, ViewsOf(s.threads))
    && LogsOk(s.logs, c.records) && Serial(c.records, s.logs)
    && |s.logs| == (if s.order <= c.commits then s.order else c.commits)
    && DataInv(s.threads, s.records, Replay(c.records, s.logs))
  }

  // ----- locks -----

  /** The views while thread `t` gives its locks back one by one. */
  function Releasing(V: Views, t: nat, held: map<nat, Phase>, woken: set<nat>): Views
    requires t < |V|
  {
    Signal(V[t := LockView(held, None, false)], woken)
  }

  ghost predicate ReleasingOk(e: Effect, V: Views, t: nat, held: map<nat, Phase>) {
    t < |V| && LockInv(e.table, Releasing(V, t, held, e.woken))
  }

  lemma ReleaseKeeps(e: Effect, V: Views, t: nat, held: map<nat, Phase>, r: nat)
    requires ReleasingOk(e, V, t, held) && r in held
    ensures CanUnlock(e.table, t, r)
    ensures ReleasingOk(Release(e, t, r), V, t, held - {r})
    ensures |Release(e, t, r).table.queues| == |e.table.queues|
  {
    hide LockInv, TableInv, Blk;
    var V1 := Releasing(V, t, held, e.woken);
    LockLengths(e.table, V1);
    UnlockAllowed(e.table, V1, t, r);
    UnlockKeepsLocks(e.table, V1, t, r);
    assert AfterUnlock(e.table, V1, t, r) == Releasing(V, t, held - {r}, Release(e, t, r).woken);
  }

  lemma UndoReadKeeps(e: Effect, V: Views, t: nat, th: Thread)
    requires ReleasingOk(e, V, t, map[th.i := Read])
    ensures UndoReadAllowed(e, t, th)
    ensures ReleasingOk(UndoRead(e, t, th), V, t, map[])
    ensures |UndoRead(e, t, th).table.queues| == |e.table.queues|
  {
    hide LockInv, TableInv;
    ReleaseKeeps(e, V, t, map[th.i := Read], th.i);
    assert map[th.i := Read] - {th.i} == map[];
  }

  lemma UndoFirstKeeps(e: Effect, V: Views, t: nat, th: Thread)
    requires th.i != th.j && ReleasingOk(e, V, t, map[th.i := Read, th.j := FirstWrite])
    ensures th.j < |e.records| ==> UndoFirstAllowed(e, t, th)
    ensures ReleasingOk(UndoFirst(e, t, th), V, t, map[])
    ensures |UndoFirst(e, t, th).table.queues| == |e.table.queues|
  {
    hide LockInv, TableInv;
    var h := map[th.i := Read, th.j := FirstWrite];
    var e0 := AddTo(e, th.j, -(th.vi + 1));
    ReleaseKeeps(e0, V, t, h, th.j);
    assert h - {th.j} == map[th.i := Read];
    UndoReadKeeps(Release(e0, t, th.j), V, t, th);
  }

  lemma UndoSecondKeeps(e: Effect, V: Views, t: nat, th: Thread)
    requires th.i != th.j && th.k != th.i && th.k != th.j
    requires ReleasingOk(e, V, t, map[th.i := Read, th.j := FirstWrite, th.k := SecondWrite])
    ensures th.j < |e.records| && th.k < |e.records| ==> UndoSecondAllowed(e, t, th)
    ensures ReleasingOk(UndoSecond(e, t, th), V, t, map[])
    ensures |UndoSecond(e, t, th).table.queues| == |e.table.queues|
  {
    hide LockInv, TableInv;
    var h := map[th.i := Read, th.j := FirstWrite, th.k := SecondWrite];
    var e0 := AddTo(e, th.k, th.vi);
    ReleaseKeeps(e0, V, t, h, th.k);
    assert h - {th.k} == map[th.i := Read, th.j := FirstWrite];
    UndoFirstKeeps(Release(e0, t, th.k), V, t, th);
  }

  /** The phase in which a thread at this point aborts. */
  predicate AbortsIn(pc: Pc, phase: Phase) {
    match pc
    case AskRead => phase == Read
    case AskFirst => phase == FirstWrite
    case AskSecond => phase == SecondWrite
    case AtCommit => phase == Commit
    case _ => false
  }

  /** Rolling back gives back exactly the locks the transaction was granted. */
  lemma RollbackKeeps(e: Effect, V: Views, t: nat, th: Thread, phase: Phase)
    requires AbortsIn(th.pc, phase) && ReleasingOk(e, V, t, Held(th))
    requires th.i != th.j && th.k != th.i && th.k != th.j
    ensures th.j < |e.records| && th.k < |e.records| ==> RollbackAllowed(e, t, th, phase)
    ensures ReleasingOk(Rollback(e, t, th, phase), V, t, map[])
    ensures |Rollback(e, t, th, phase).table.queues| == |e.table.queues|
  {
    hide LockInv, TableInv;
    match th.pc
    case AskFirst => UndoReadKeeps(e, V, t, th);
    case AskSecond => UndoFirstKeeps(e, V, t, th);
    case AtCommit => UndoSecondKeeps(e, V, t, th);
    case _ =>
  }

  lemma ReleaseLocksKeeps(e: Effect, V: Views, t: nat, th: Thread)
    requires th.i != th.j && th.k != th.i && th.k != th.j
    requires ReleasingOk(e, V, t, map[th.i := Read, th.j := FirstWrite, th.k := SecondWrite])
    ensures ReleaseLocksAllowed(e, t, th)
    ensures ReleasingOk(ReleaseLocks(e, t, th), V, t, map[])
    ensures |ReleaseLocks(e, t, th).table.queues| == |e.table.queues|
  {
    hide LockInv, TableInv;
    var h := map[th.i := Read, th.j := FirstWrite, th.k := SecondWrite];
    ReleaseKeeps(e, V, t, h, th.i);
    assert h - {th.i} == map[th.j := FirstWrite, th.k := SecondWrite];
    ReleaseTwo(Release(e, t, th.i), V, t, th);
  }

  lemma ReleaseTwo(e: Effect, V: Views, t: nat, th: Thread)
    requires th.j != th.k && ReleasingOk(e, V, t, map[th.j := FirstWrite, th.k := SecondWrite])
    ensures CanUnlock(e.table, t, th.j) && CanUnlock(Release(e, t, th.j).table, t, th.k)
    ensures ReleasingOk(Release(Release(e, t, th.j), t, th.k), V, t, map[])
    ensures |Release(Release(e, t, th.j), t, th.k).table.queues| == |e.table.queues|
  {
    hide LockInv, TableInv;
    ReleaseKeeps(e, V, t, map[th.j := FirstWrite, th.k := SecondWrite], th.j);
    assert map[th.j := FirstWrite, th.k := SecondWrite] - {th.j} == map[th.k := SecondWrite];
    ReleaseKeeps(Release(e, t, th.j), V, t, map[th.k := SecondWrite], th.k);
    assert map[th.k := SecondWrite] - {th.k} == map[];
  }

  lemma StartReleasing(T: Table, records: seq<int>, threads: seq<Thread>, t: nat, woken: set<nat>)
    requires LockInv(T, ViewsOf(threads)) && t < |threads| && !Asleep(threads[t].pc)
    ensures ReleasingOk(Effect(T, records, woken), ViewsOf(threads), t, Held(threads[t]))
  {
    hide LockInv, TableInv;
    SignalKeeps(T, ViewsOf(threads), woken);
    assert ViewsOf(threads)[t := LockView(Held(threads[t]), None, false)] == ViewsOf(threads);
  }

  lemma AppliedViews(threads: seq<Thread>, t: nat, pc: Pc, woken: set<nat>)
    requires t < |threads| && (pc == Start || pc == Done)
    ensures ViewsOf(SignalThreads(threads[t := Idle(pc)], woken)) == Releasing(ViewsOf(threads), t, map[], woken)
  {
    forall x | 0 <= x < |threads|
      ensures ViewsOf(SignalThreads(threads[t := Idle(pc)], woken))[x] ==
              Releasing(ViewsOf(threads), t, map[], woken)[x]
    {
      SignalledView(if x == t then Idle(pc) else threads[x], x in woken);
      IdleView(pc);
      hide ViewOf, Asleep, Held;
    }
  }

  lemma IdleView(pc: Pc)
    requires pc == Start || pc == Done
    ensures ViewOf(Idle(pc)) == LockView(map[], None, false)
  { }

  lemma SignalledView(th: Thread, woken: bool)
    ensures ViewOf(th).wait.Some? <==> Asleep(th.pc)
    ensures ViewOf(if woken && Asleep(th.pc) then th.(pending := true) else th)
            == if woken && ViewOf(th).wait.Some? then ViewOf(th).(pending := true) else ViewOf(th)
  { }

  ghost predicate LocksOk(c: Config, s: State) {
    && c.threads > 0 && |s.threads| == c.threads && |s.table.queues| == c.records
    && LockInv(s.table, ViewsOf(s.threads))
  }

  lemma AskLocks(c: Config, s: State, t: nat, w: nat, s': State)
    requires LocksOk(c, s) && 1 <= t < |s.threads| && Asking(s.threads[t].pc) && DistinctIds(s.threads[t])
    requires AskStep(s, t, w, s')
    ensures LocksOk(c, s')
  {
    hide LockInv, TableInv, Rollback, LockTables.Request;
    var th, V := s.threads[t], ViewsOf(s.threads);
    var a := Transactions.Request(th);
    var outcome := RequestOutcome(s.table, t, a.rid, a.phase);
    if outcome == Deadlock {
      AbortLocks(s, t, {w}, a.phase);
    } else {
      RequestKeeps(s.table, V, t, a.rid, a.phase);
      RequestLengths(s.table, t, a.rid, a.phase);
      hide RequestOutcome;
      RequestViews(s.threads, t, outcome);
    }
  }

  lemma AbortLocks(s: State, t: nat, woken: set<nat>, phase: Phase)
    requires LockInv(s.table, ViewsOf(s.threads)) && t < |s.threads| && AbortsIn(s.threads[t].pc, phase)
    requires DistinctIds(s.threads[t])
    ensures var s' := Apply(s, t, Idle(Start), Rollback(Effect(s.table, s.records, woken), t, s.threads[t], phase));
            LockInv(s'.table, ViewsOf(s'.threads)) && |s'.table.queues| == |s.table.queues|
  {
    hide LockInv, TableInv, Rollback;
    var e := Effect(s.table, s.records, woken);
    StartReleasing(s.table, s.records, s.threads, t, woken);
    RollbackKeeps(e, ViewsOf(s.threads), t, s.threads[t], phase);
    AppliedViews(s.threads, t, Start, Rollback(e, t, s.threads[t], phase).woken);
  }

  lemma RequestLengths(T: Table, t: nat, r: nat, ph: Phase)
    requires r < |T.queues| == |T.status| == |T.readers| && t < |T.graph|
    ensures |LockTables.Request(T, t, r, ph).queues| == |T.queues|
  { }

  lemma RequestViews(threads: seq<Thread>, t: nat, outcome: Outcome)
    requires t < |threads| && Asking(threads[t].pc) && DistinctIds(threads[t]) && outcome != Deadlock
    ensures var th := threads[t]; var a := Transactions.Request(th);
            ViewsOf(threads[t := if outcome == Granted then th.(pc := WhenGranted(th.pc))
                                 else th.(pc := WhenWaiting(th.pc), pending := false)])
            == AfterRequest(ViewsOf(threads), t, a.rid, a.phase, outcome)
  {
    var th := threads[t];
    var a := Transactions.Request(th);
    assert ViewOf(th.(pc := WhenGranted(th.pc))) == ViewOf(th).(held := ViewOf(th).held[a.rid := a.phase]);
    assert ViewOf(th.(pc := WhenWaiting(th.pc), pending := false)) == ViewOf(th).(wait := Some(a), pending := false);
  }

  lemma WakeLocks(c: Config, s: State, t: nat, s': State)
    requires LocksOk(c, s) && 1 <= t < |s.threads| && Asleep(s.threads[t].pc) && WakeStep(s, t, s')
    ensures LocksOk(c, s')
  {
    hide LockInv, TableInv;
    ResumeKeeps(s.table, ViewsOf(s.threads), t);
    assert ViewsOf(s'.threads) == AfterResume(s.table, ViewsOf(s.threads), t);
  }

  lemma FinishLocks(c: Config, s: State, t: nat, s': State)
    requires LocksOk(c, s) && 1 <= t < |s.threads| && s.threads[t].pc == AtCommit && DistinctIds(s.threads[t])
    requires FinishStep(c, s, t, s')
    ensures LocksOk(c, s')
  {
    hide LockInv, TableInv;
    var th, V := s.threads[t], ViewsOf(s.threads);
    var e := Effect(s.table, s.records, {});
    StartReleasing(s.table, s.records, s.threads, t, {});
    if s.order + 1 > c.commits {
      RollbackKeeps(e, V, t, th, Commit);
      AppliedViews(s.threads, t, Done, Rollback(e, t, th, Commit).woken);
    } else {
      ReleaseLocksKeeps(e, V, t, th);
      AppliedViews(s.threads, t, Start, ReleaseLocks(e, t, th).woken);
    }
  }

  // ----- data -----

  /** A record that one thread may write is used by no other thread. */
  ghost predicate Exclusive(threads: seq<Thread>) {
    forall t, u, r :: 0 <= t < |threads| && 0 <= u < |threads| && t != u && WritesTo(threads[t], r) ==>
      !Uses(threads[u], r)
  }

  lemma UsesHeld(th: Thread, r: nat)
    requires Active(th.pc) ==> DistinctIds(th)
    ensures Uses(th, r) ==> r in Held(th)
    ensures WritesTo(th, r) ==> r in Held(th) && Held(th)[r] != Read
  { }

  lemma LocksExclude(T: Table, threads: seq<Thread>)
    requires LockInv(T, ViewsOf(threads))
    requires forall t :: 0 <= t < |threads| && Active(threads[t].pc) ==> DistinctIds(threads[t])
    ensures Exclusive(threads)
  {
    hide LockInv, Uses, WritesTo, Held;
    forall t, u, r | 0 <= t < |threads| && 0 <= u < |threads| && t != u && WritesTo(threads[t], r)
      ensures !Uses(threads[u], r)
    {
      UsesHeld(threads[t], r);
      UsesHeld(threads[u], r);
      if Uses(threads[u], r) { Exclusion(T, ViewsOf(threads), t, u, r); }
    }
  }

  /** A thread's knowledge survives when the records it has locked do not change. */
  lemma ThreadStable(th: Thread, th': Thread, records: seq<int>, base: seq<int>, records': seq<int>, base': seq<int>)
    requires ThreadOk(th, records, base) && th' == th.(pending := th'.pending)
    requires |records'| == |base'| == |records|
    requires forall r: nat :: r < |records| && Uses(th, r) ==> records'[r] == records[r] && base'[r] == base[r]
    ensures ThreadOk(th', records', base')
  { }

  ghost predicate OnlyMoved(threads: seq<Thread>, threads': seq<Thread>, t: nat) {
    && t < |threads| == |threads'|
    && forall u :: 0 <= u < |threads| && u != t ==> threads'[u] == threads[u].(pending := threads'[u].pending)
  }

  /** One thread moves: it may change only records it has locked for writing, and what it
      unlocks must be up to date with the commits. */
  lemma DataFrame(threads: seq<Thread>, records: seq<int>, base: seq<int>, t: nat,
                  threads': seq<Thread>, records': seq<int>, base': seq<int>)
    requires Exclusive(threads) && DataInv(threads, records, base)
    requires OnlyMoved(threads, threads', t) && |records'| == |base'| == |records|
    requires forall r: nat :: r < |base| && !WritesTo(threads[t], r) ==>
               records'[r] == records[r] && base'[r] == base[r]
    requires ThreadOk(threads'[t], records', base')
    requires forall r: nat :: r < |base| && WritesTo(threads[t], r) && !WritesTo(threads'[t], r) ==>
               records'[r] == base'[r]
    ensures DataInv(threads', records', base')
  {
    forall u | 0 <= u < |threads'| ensures ThreadOk(threads'[u], records', base') {
      if u != t { ThreadStable(threads[u], threads'[u], records, base, records', base'); }
    }
    forall r: nat | r < |base'| && Unwritten(threads', r) ensures records'[r] == base'[r] {
      if !WritesTo(threads[t], r) {
        forall u | 0 <= u < |threads| ensures !WritesTo(threads[u], r) {
          if u != t { assert !WritesTo(threads'[u], r); }
        }
      }
    }
  }

  /** A record that thread `t` has just locked for writing is up to date. */
  lemma FreshlyLocked(threads: seq<Thread>, records: seq<int>, base: seq<int>, t: nat, threads': seq<Thread>, r: nat)
    requires Exclusive(threads') && DataInv(threads, records, base) && OnlyMoved(threads, threads', t) && r < |base|
    requires !WritesTo(threads[t], r) && WritesTo(threads'[t], r)
    ensures records[r] == base[r]
  {
    forall u | 0 <= u < |threads| ensures !WritesTo(threads[u], r) {
      if u != t { assert !Uses(threads'[u], r); }
    }
    assert Unwritten(threads, r);
  }

  /** What a thread knows once a lock is granted, or it goes to sleep, or wakes up in vain. */
  lemma LockedThread(th: Thread, th': Thread, records: seq<int>, base: seq<int>)
    requires ThreadOk(th, records, base) && (Asking(th.pc) || Asleep(th.pc))
    requires th' == th.(pc := th'.pc, pending := th'.pending)
    requires th'.pc == th.pc || th'.pc == WhenGranted(th.pc) || (Asking(th.pc) && th'.pc == WhenWaiting(th.pc))
    requires th'.pc == LoadJ ==> records[th.j] == base[th.j]
    requires th'.pc == LoadK ==> records[th.k] == base[th.k]
    ensures ThreadOk(th', records, base)
    ensures forall r: nat :: WritesTo(th, r) ==> WritesTo(th', r)
  { }

  /** A lock is granted, or the thread goes to sleep, or wakes up in vain. */
  lemma LockedData(threads: seq<Thread>, records: seq<int>, base: seq<int>, t: nat, threads': seq<Thread>)
    requires Exclusive(threads) && Exclusive(threads') && DataInv(threads, records, base)
    requires OnlyMoved(threads, threads', t)
    requires Asking(threads[t].pc) || Asleep(threads[t].pc)
    requires var th, th' := threads[t], threads'[t];
             && th' == th.(pc := th'.pc, pending := th'.pending)
             && (th'.pc == th.pc || th'.pc == WhenGranted(th.pc) || (Asking(th.pc) && th'.pc == WhenWaiting(th.pc)))
    ensures DataInv(threads', records, base)
  {
    hide Exclusive;
    var th, th' := threads[t], threads'[t];
    assert ThreadOk(th, records, base);
    hide DataInv;
    if th'.pc == LoadJ { FreshlyLocked(threads, records, base, t, threads', th.j); }
    if th'.pc == LoadK { FreshlyLocked(threads, records, base, t, threads', th.k); }
    LockedThread(th, th', records, base);
    hide ThreadOk, WritesTo;
    DataFrame(threads, records, base, t, threads', records, base);
  }

  /** A record that is only read holds its committed value. */
  lemma ReadsCommitted(threads: seq<Thread>, records: seq<int>, base: seq<int>, t: nat)
    requires Exclusive(threads) && DataInv(threads, records, base) && t < |threads| && threads[t].pc == LoadI
    ensures threads[t].i < |records| == |base| && records[threads[t].i] == base[threads[t].i]
  {
    var th := threads[t];
    assert ThreadOk(th, records, base);
    assert Uses(th, th.i);
    assert Unwritten(threads, th.i);
  }

  lemma LoadThread(s: State, base: seq<int>, t: nat, s': State)
    requires t < |s.threads| && ThreadOk(s.threads[t], s.records, base)
    requires AccessStep(s, t, s') && s.threads[t].pc in {LoadI, LoadJ, LoadK}
    requires s.threads[t].pc == LoadI ==> s.records[s.threads[t].i] == base[s.threads[t].i]
    ensures OnlyMoved(s.threads, s'.threads, t) && s'.records == s.records
    ensures ThreadOk(s'.threads[t], s.records, base)
    ensures forall r: nat :: WritesTo(s.threads[t], r) ==> WritesTo(s'.threads[t], r)
  { }

  lemma LoadData(s: State, base: seq<int>, t: nat, s': State)
    requires Exclusive(s.threads) && DataInv(s.threads, s.records, base)
    requires t < |s.threads| && AccessStep(s, t, s') && s.threads[t].pc in {LoadI, LoadJ, LoadK}
    ensures DataInv(s'.threads, s'.records, base)
  {
    hide Exclusive, AccessStep;
    assert ThreadOk(s.threads[t], s.records, base);
    hide DataInv, ThreadOk, WritesTo;
    if s.threads[t].pc == LoadI { ReadsCommitted(s.threads, s.records, base, t); }
    LoadThread(s, base, t, s');
    assert |base| == |s.records| by { SameLength(s.threads, s.records, base); }
    DataFrame(s.threads, s.records, base, t, s'.threads, s.records, base);
  }

  lemma SameLength(threads: seq<Thread>, records: seq<int>, base: seq<int>)
    requires DataInv(threads, records, base)
    ensures |records| == |base|
  { }

  lemma StoreData(s: State, base: seq<int>, t: nat, s': State)
    requires Exclusive(s.threads) && DataInv(s.threads, s.records, base)
    requires t < |s.threads| && AccessStep(s, t, s') && s.threads[t].pc in {StoreJ, StoreK}
    ensures DataInv(s'.threads, s'.records, base)
  {
    assert ThreadOk(s.threads[t], s.records, base);
    hide DataInv, Exclusive;
    DataFrame(s.threads, s.records, base, t, s'.threads, s'.records, base);
  }

  ghost function Undone(records: seq<int>, th: Thread, phase: Phase): seq<int>
    requires th.j < |records| && th.k < |records|
  {
    match phase
    case Commit => records[th.k := records[th.k] + th.vi][th.j := records[th.j] - (th.vi + 1)]
    case SecondWrite => records[th.j := records[th.j] - (th.vi + 1)]
    case _ => records
  }

  lemma RollbackRecords(e: Effect, t: nat, th: Thread, phase: Phase)
    requires th.j < |e.records| && th.k < |e.records| && th.j != th.k
    ensures Rollback(e, t, th, phase).records == Undone(e.records, th, phase)
  {
    match phase
    case Commit =>
      var e0 := AddTo(e, th.k, th.vi);
      assert AddTo(Release(e0, t, th.k), th.j, -(th.vi + 1)).records == Undone(e.records, th, phase);
    case _ =>
  }

  /** Whatever phase a transaction aborts in, the undo restores the records it wrote. */
  lemma RollbackData(threads: seq<Thread>, records: seq<int>, base: seq<int>, t: nat,
                     phase: Phase, threads': seq<Thread>)
    requires Exclusive(threads) && DataInv(threads, records, base) && OnlyMoved(threads, threads', t)
    requires AbortsIn(threads[t].pc, phase) && !Active(threads'[t].pc)
    requires threads[t].j < |records| && threads[t].k < |records|
    ensures DataInv(threads', Undone(records, threads[t], phase), base)
  {
    assert ThreadOk(threads[t], records, base);
    hide DataInv, Exclusive;
    DataFrame(threads, records, base, t, threads', Undone(records, threads[t], phase), base);
  }

  lemma CommittedData(threads: seq<Thread>, records: seq<int>, base: seq<int>, t: nat,
                      threads': seq<Thread>, base': seq<int>)
    requires Exclusive(threads) && DataInv(threads, records, base) && OnlyMoved(threads, threads', t)
    requires threads[t].pc == AtCommit && !Active(threads'[t].pc) && |base'| == |base|
    requires var th := threads[t];
             && forall r: nat :: r < |base| ==> base'[r] == if r == th.j || r == th.k then records[r] else base[r]
    ensures DataInv(threads', records, base')
  {
    assert ThreadOk(threads[t], records, base);
    hide DataInv, Exclusive;
    DataFrame(threads, records, base, t, threads', records, base');
  }

  lemma CommitData(n: nat, threads: seq<Thread>, records: seq<int>, logs: seq<Log>, t: nat, threads': seq<Thread>)
    requires Serial(n, logs) && Exclusive(threads) && DataInv(threads, records, Replay(n, logs))
    requires OnlyMoved(threads, threads', t) && threads[t].pc == AtCommit && !Active(threads'[t].pc)
    ensures var logs' := logs + [LogOf(threads[t], |logs| + 1)];
            LogsOk(logs', n) && Serial(n, logs') && DataInv(threads', records, Replay(n, logs'))
  {
    var th, base := threads[t], Replay(n, logs);
    var log := LogOf(th, |logs| + 1);
    assert ThreadOk(th, records, base);
    hide DataInv, Exclusive;
    SerialAppend(n, logs, log);
    var base' := Replay1(base, log);
    assert forall r: nat :: r < |base| ==> base'[r] == if r == th.j || r == th.k then records[r] else base[r];
    CommittedData(threads, records, base, t, threads', base');
  }

  // ----- the steps -----

  lemma ThreadFacts(c: Config, s: State, t: nat)
    requires Inv(c, s) && t < |s.threads|
    ensures ThreadOk(s.threads[t], s.records, Replay(c.records, s.logs)) && Exclusive(s.threads)
  {
    hide LockInv, Serial, Replay;
    forall u | 0 <= u < |s.threads| && Active(s.threads[u].pc) ensures DistinctIds(s.threads[u]) {
      assert ThreadOk(s.threads[u], s.records, Replay(c.records, s.logs));
    }
    LocksExclude(s.table, s.threads);
  }

  /** What a request changes besides the lock table. */
  lemma AskShape(s: State, t: nat, w: nat, s': State)
    requires t < |s.threads| && Asking(s.threads[t].pc) && AskStep(s, t, w, s')
    ensures OnlyMoved(s.threads, s'.threads, t) && s'.order == s.order && s'.logs == s.logs
    ensures var th, th' := s.threads[t], s'.threads[t]; var a := Transactions.Request(th);
            if RequestOutcome(s.table, t, a.rid, a.phase) == Deadlock then
              && !Active(th'.pc)
              && s'.records == Rollback(Effect(s.table, s.records, {w}), t, th, a.phase).records
            else
              && s'.records == s.records && th' == th.(pc := th'.pc, pending := th'.pending)
              && (th'.pc == WhenGranted(th.pc) || th'.pc == WhenWaiting(th.pc))
  {
    hide RequestOutcome, Rollback, LockTables.Request;
  }

  lemma AskKeeps(c: Config, s: State, t: nat, w: nat, s': State)
    requires Inv(c, s) && 1 <= t < |s.threads| && Asking(s.threads[t].pc) && AskStep(s, t, w, s')
    ensures Inv(c, s')
  {
    hide LockInv, TableInv, DataInv, Exclusive, Serial, Replay;
    var th, base := s.threads[t], Replay(c.records, s.logs);
    ThreadFacts(c, s, t);
    AskLocks(c, s, t, w, s');
    AskShape(s, t, w, s');
    hide AskStep, RequestOutcome, Rollback;
    var a := Transactions.Request(th);
    if RequestOutcome(s.table, t, a.rid, a.phase) == Deadlock {
      RollbackRecords(Effect(s.table, s.records, {w}), t, th, a.phase);
      RollbackData(s.threads, s.records, base, t, a.phase, s'.threads);
    } else {
      StillExclusive(c, s, t, s');
      LockedData(s.threads, s.records, base, t, s'.threads);
    }
  }

  /** A grant keeps the locks exclusive. */
  lemma StillExclusive(c: Config, s: State, t: nat, s': State)
    requires Inv(c, s) && OnlyMoved(s.threads, s'.threads, t) && LockInv(s'.table, ViewsOf(s'.threads))
    requires s'.threads[t] == s.threads[t].(pc := s'.threads[t].pc, pending := s'.threads[t].pending)
    requires Active(s.threads[t].pc)
    ensures Exclusive(s'.threads)
  {
    hide LockInv, Serial, Replay;
    forall u | 0 <= u < |s'.threads| && Active(s'.threads[u].pc) ensures DistinctIds(s'.threads[u]) {
      assert ThreadOk(s.threads[u], s.records, Replay(c.records, s.logs));
    }
    LocksExclude(s'.table, s'.threads);
  }

  lemma WakeKeeps(c: Config, s: State, t: nat, s': State)
    requires Inv(c, s) && 1 <= t < |s.threads| && Asleep(s.threads[t].pc) && WakeStep(s, t, s')
    ensures Inv(c, s')
  {
    hide LockInv, TableInv, DataInv, Exclusive, Serial, Replay;
    ThreadFacts(c, s, t);
    WakeLocks(c, s, t, s');
    StillExclusive(c, s, t, s');
    LockedData(s.threads, s.records, Replay(c.records, s.logs), t, s'.threads);
  }

  lemma AccessKeeps(c: Config, s: State, t: nat, s': State)
    requires Inv(c, s) && 1 <= t < |s.threads| && AccessStep(s, t, s')
    ensures Inv(c, s')
  {
    hide LockInv, TableInv, DataInv, Exclusive, Serial, Replay;
    assert ViewsOf(s'.threads) == ViewsOf(s.threads);
    ThreadFacts(c, s, t);
    var base := Replay(c.records, s.logs);
    if s.threads[t].pc == StoreJ || s.threads[t].pc == StoreK {
      StoreData(s, base, t, s');
    } else {
      LoadData(s, base, t, s');
    }
  }

  /** A committing step moves one thread, keeps the records and appends to the log. */
  lemma CommitShape(c: Config, s: State, t: nat, s': State)
    requires t < |s.threads| && s.order + 1 <= c.commits && FinishStep(c, s, t, s')
    ensures OnlyMoved(s.threads, s'.threads, t) && s'.threads[t] == Idle(Start)
    ensures s'.records == s.records && s'.order == s.order + 1
    ensures s'.logs == s.logs + [LogOf(s.threads[t], s.order + 1)]
  {
    hide Release;
  }

  lemma OverrunKeeps(c: Config, s: State, t: nat, s': State)
    requires Inv(c, s) && 1 <= t < |s.threads| && s.threads[t].pc == AtCommit && FinishStep(c, s, t, s')
    requires s.order + 1 > c.commits
    ensures Inv(c, s')
  {
    hide LockInv, TableInv, DataInv, Exclusive, Serial, Replay;
    ThreadFacts(c, s, t);
    FinishLocks(c, s, t, s');
    RollbackRecords(Effect(s.table, s.records, {}), t, s.threads[t], Commit);
    RollbackData(s.threads, s.records, Replay(c.records, s.logs), t, Commit, s'.threads);
  }

  lemma CommitKeeps(c: Config, s: State, t: nat, s': State)
    requires Inv(c, s) && 1 <= t < |s.threads| && s.threads[t].pc == AtCommit && FinishStep(c, s, t, s')
    requires s.order + 1 <= c.commits
    ensures Inv(c, s')
  {
    hide LockInv, TableInv, DataInv, Exclusive, Serial, Replay, FinishStep;
    ThreadFacts(c, s, t);
    FinishLocks(c, s, t, s');
    CommitShape(c, s, t, s');
    CommitData(c.records, s.threads, s.records, s.logs, t, s'.threads);
  }

  lemma IdleData(threads: seq<Thread>, records: seq<int>, base: seq<int>, t: nat, th': Thread)
    requires Exclusive(threads) && DataInv(threads, records, base)
    requires t < |threads| && threads[t].pc == Start && ThreadOk(th', records, base) && !HoldsI(th'.pc)
    ensures DataInv(threads[t := th'], records, base)
  {
    DataFrame(threads, records, base, t, threads[t := th'], records, base);
  }

  lemma IdleKeeps(c: Config, s: State, t: nat, th': Thread)
    requires Inv(c, s) && 1 <= t < |s.threads| && s.threads[t].pc == Start
    requires th'.pc == Done || th'.pc == AskRead
    requires ThreadOk(th', s.records, Replay(c.records, s.logs))
    ensures Inv(c, s.(threads := s.threads[t := th']))
  {
    hide LockInv, TableInv, DataInv, Exclusive, Serial, Replay;
    assert ViewsOf(s.threads[t := th']) == ViewsOf(s.threads);
    ThreadFacts(c, s, t);
    IdleData(s.threads, s.records, Replay(c.records, s.logs), t, th');
  }

  lemma BeginKeeps(c: Config, s: State, t: nat, i: nat, j: nat, k: nat)
    requires Inv(c, s) && 1 <= t < |s.threads| && s.threads[t].pc == Start
    requires i < c.records && j < c.records && k < c.records && i != j && k != i && k != j
    ensures Inv(c, s.(threads := s.threads[t := Idle(AskRead).(i := i, j := j, k := k)]))
  {
    hide LockInv, Serial, Replay;
    IdleKeeps(c, s, t, Idle(AskRead).(i := i, j := j, k := k));
  }

  lemma LeaveKeeps(c: Config, s: State, t: nat)
    requires Inv(c, s) && 1 <= t < |s.threads| && s.threads[t].pc == Start
    ensures Inv(c, s.(threads := s.threads[t := Idle(Done)]))
  {
    hide LockInv, Serial, Replay;
    IdleKeeps(c, s, t, Idle(Done));
  }

  lemma InitLocks(T: Table, V: Views, n: nat, records: nat)
    requires n > 0
    requires T == Table(seq(records, _ => Unlocked), seq(records, _ => 0), seq(records, _ => []), seq(n, _ => {}))
    requires |V| == n && forall x :: 0 <= x < n ==> V[x] == LockView(map[], None, false)
    ensures LockInv(T, V)
  {
    assert forall r :: 0 <= r < |T.queues| ==> T.queues[r] == [];
    assert forall t: nat, r: nat :: !WaitsAt(T, t, r);
    forall u: nat, p ensures !IsCycle(T.graph, p, u) {
      if |p| >= 2 { assert !Edge(T.graph, p[0], p[0 + 1]); }
    }
    forall r: nat ensures ReadersOf(V, r) == {} { }
  }

  lemma InitInv(c: Config, s: State)
    requires Init(c, s)
    ensures Inv(c, s)
  {
    hide LockInv, TableInv;
    InitLocks(s.table, ViewsOf(s.threads), c.threads, c.records);
    assert s.records == Replay(c.records, []);
  }

  /** Every step of every thread keeps the invariant. */
  lemma NextKeeps(c: Config, s: State, step: Step, s': State)
    requires Inv(c, s) && Next(c, s, step, s')
    ensures Inv(c, s')
  {
    hide Inv, AskStep, WakeStep, AccessStep, FinishStep;
    match step
    case Begin(t, i, j, k) => BeginKeeps(c, s, t, i, j, k);
    case Leave(t) => LeaveKeeps(c, s, t);
    case Ask(t, w) => AskKeeps(c, s, t, w, s');
    case Wake(t) => WakeKeeps(c, s, t, s');
    case Access(t) => AccessKeeps(c, s, t, s');
    case Finish(t) =>
      if s.order + 1 > c.commits { OverrunKeeps(c, s, t, s'); } else { CommitKeeps(c, s, t, s'); }
  }

  lemma {:induction false} RunInv(c: Config, run: seq<State>, n: nat)
    requires IsRun(c, run) && n < |run|
    ensures Inv(c, run[n])
  {
    if n == 0 {
      InitInv(c, run[0]);
    } else {
      RunInv(c, run, n - 1);
      assert Steps(c, run[n - 1], run[(n - 1) + 1]);
      var step :| Next(c, run[n - 1], step, run[n]);
      NextKeeps(c, run[n - 1], step, run[n]);
    }
  }
}
