/** The queue lock that chains its waiters by heap flags: a thread swaps a fresh raised flag
    into the tail, waits for the flag it got in exchange to be lowered, and frees that one when
    it unlocks. */
module ClhLock {
  import opened Sums

  /** The next thing a thread will do. */
  datatype Pc = Allocate | Raise | Swap | Spin | Load | StoreCount | FreePred | Lower

  type Addr = nat

  datatype Thread = Thread(pc: Pc, node: Addr, pred: Addr, tmp: int)

  /** `heap` holds the live flags; an address that was freed may be allocated again.
      `made` counts each thread's finished increments; `queue`, `swaps` and `entries` list the
      threads between their swap and the lowering of their flag, and the order of all swaps
      and of all entries so far.  These four do not influence the run. */
  datatype State = State(heap: map<Addr, bool>, tail: Addr, count: int, threads: seq<Thread>,
                         made: seq<int>, queue: seq<nat>, swaps: seq<nat>, entries: seq<nat>)

  ghost predicate Init(s: State) {
    && s.heap == map[s.tail := false] && s.count == 0
    && (forall t :: 0 <= t < |s.threads| ==> s.threads[t].pc == Allocate)
    && s.made == seq(|s.threads|, _ => 0)
    && s.queue == [] && s.swaps == [] && s.entries == []
  }

  function Behind(queue: seq<nat>): seq<nat> {
    if queue == [] then [] else queue[1..]
  }

  function Goto(s: State, t: nat, pc: Pc): State
    requires t < |s.threads|
  {
    s.(threads := s.threads[t := s.threads[t].(pc := pc)])
  }

  /** The flags a step reads, writes or frees are live. */
  predicate AccessOk(s: State, t: nat)
    requires t < |s.threads|
  {
    var th := s.threads[t];
    match th.pc
    case Raise => th.node in s.heap
    case Spin => th.pred in s.heap
    case FreePred => th.pred in s.heap
    case Lower => th.node in s.heap
    case _ => true
  }

  ghost predicate Moves(s: State, t: nat, s': State) {
    && t < |s.threads| == |s.made|
    && var th := s.threads[t];
       match th.pc
       case Allocate =>
         exists a: Addr :: a !in s.heap
                           && s' == s.(heap := s.heap[a := false],
                                  threads := s.threads[t := th.(pc := Raise, node := a)])
       case Raise => s' == Goto(s, t, Swap).(heap := s.heap[th.node := true])
       case Swap =>
         s' == s.(tail := th.node, threads := s.threads[t := th.(pc := Spin, pred := s.tail)],
                  queue := s.queue + [t], swaps := s.swaps + [t])
       case Spin =>
         if th.pred in s.heap && s.heap[th.pred] then s' == s
         else s' == Goto(s, t, Load).(entries := s.entries + [t])
       case Load => s' == s.(threads := s.threads[t := th.(pc := StoreCount, tmp := s.count)])
       case StoreCount => s' == Goto(s, t, FreePred).(count := th.tmp + 1, made := s.made[t := s.made[t] + 1])
       case FreePred => s' == Goto(s, t, Lower).(heap := s.heap - {th.pred})
       case Lower =>
         s' == Goto(s, t, Allocate).(heap := s.heap[th.node := false], queue := Behind(s.queue))
  }

  ghost predicate Next(s: State, s': State) {
    exists t: nat :: Moves(s, t, s')
  }

  ghost predicate IsRun(run: seq<State>) {
    && |run| > 0 && Init(run[0])
    && forall n :: 0 <= n < |run| - 1 ==> Next(run[n], run[n + 1])
  }

  // ----- the invariant -----

  /** Inside the lock: past the spin loop and not yet past the last write of unlock. */
  predicate Inside(th: Thread) {
    th.pc == Load || th.pc == StoreCount || th.pc == FreePred || th.pc == Lower
  }

  predicate Queued(th: Thread) {
    th.pc == Spin || Inside(th)
  }

  /** The thread has allocated a flag and has not yet freed its predecessor's. */
  predicate Owes(th: Thread) {
    th.pc != Allocate && th.pc != Lower
  }

  /** The flag the head of the queue waits for, or will hand on. */
  function Base(s: State): Addr
    requires s.queue != [] ==> s.queue[0] < |s.threads|
  {
    if s.queue == [] then s.tail
    else if s.threads[s.queue[0]].pc == Lower then s.threads[s.queue[0]].node
    else s.threads[s.queue[0]].pred
  }

  /** The queue lists the queued threads, each once; all but its head are spinning. */
  ghost predicate QueueOk(s: State) {
    InQueue(s.threads, s.queue) && Distinct(s.queue) && AllQueued(s.threads, s.queue)
  }

  ghost predicate InQueue(threads: seq<Thread>, queue: seq<nat>) {
    forall i :: 0 <= i < |queue| ==>
      queue[i] < |threads| && Queued(threads[queue[i]]) && (i > 0 ==> threads[queue[i]].pc == Spin)
  }

  ghost predicate Distinct(queue: seq<nat>) {
    forall i, k :: 0 <= i < k < |queue| ==> queue[i] != queue[k]
  }

  ghost predicate AllQueued(threads: seq<Thread>, queue: seq<nat>) {
    forall t: nat :: t < |threads| && Queued(threads[t]) ==> t in queue
  }

  /** Each waiter watches the flag of the thread that swapped just before it. */
  ghost predicate Chained(s: State)
    requires InQueue(s.threads, s.queue)
  {
    && (forall i, k :: 0 <= i < |s.queue| && 0 <= k < |s.queue| && k == i + 1 ==>
          s.threads[s.queue[k]].pred == s.threads[s.queue[i]].node)
    && (s.queue != [] ==> s.tail == s.threads[s.queue[|s.queue| - 1]].node)
  }

  /** The live flags are the base and one for each thread that owes, all different. */
  ghost predicate HeapOk(s: State)
    requires InQueue(s.threads, s.queue)
  {
    && Base(s) in s.heap
    && s.heap[Base(s)] == (s.queue != [] && s.threads[s.queue[0]].pc == Lower)
    && (forall t :: 0 <= t < |s.threads| && Owes(s.threads[t]) ==>
          && s.threads[t].node in s.heap && s.threads[t].node != Base(s)
          && s.heap[s.threads[t].node] == (s.threads[t].pc != Raise))
    && (forall t, u :: 0 <= t < u < |s.threads| && Owes(s.threads[t]) && Owes(s.threads[u]) ==>
          s.threads[t].node != s.threads[u].node)
    && |s.heap| == 1 + |Owing(s.threads)|
  }

  function Owing(threads: seq<Thread>): set<nat> {
    set t: nat | t < |threads| && Owes(threads[t])
  }

  ghost predicate CountOk(s: State) {
    && |s.made| == |s.threads| && s.count == Sum(s.made)
    && (forall t :: 0 <= t < |s.threads| && s.threads[t].pc == StoreCount ==> s.threads[t].tmp == s.count)
  }

  /** Threads enter in the order in which they swapped. */
  ghost predicate OrderOk(s: State)
    requires InQueue(s.threads, s.queue)
  {
    s.swaps == s.entries + (if s.queue != [] && Inside(s.threads[s.queue[0]]) then s.queue[1..] else s.queue)
  }

  ghost predicate Inv(s: State) {
    QueueOk(s) && Chained(s) && HeapOk(s) && CountOk(s) && OrderOk(s)
  }

  /** A thread inside the lock is the head of the queue. */
  lemma InsideIsHead(s: State, t: nat)
    requires QueueOk(s) && t < |s.threads| && Inside(s.threads[t])
    ensures s.queue != [] && s.queue[0] == t
  {
    var i :| 0 <= i < |s.queue| && s.queue[i] == t;
  }

  // ----- every step keeps the invariant -----

  lemma InitInv(s: State)
    requires Init(s)
    ensures Inv(s)
  {
    SumConstant(|s.threads|, 0);
    assert Owing(s.threads) == {};
  }

  /** A waiter that is not the head watches a raised flag, so only the head can enter. */
  lemma OnlyHeadEnters(s: State, t: nat)
    requires QueueOk(s) && Chained(s) && HeapOk(s) && t < |s.threads| && s.threads[t].pc == Spin
    ensures s.threads[t].pred in s.heap && s.queue != [] && (s.heap[s.threads[t].pred] <==> s.queue[0] != t)
  {
    var i :| 0 <= i < |s.queue| && s.queue[i] == t;
    if i > 0 {
      var p := s.queue[i - 1];
      assert Queued(s.threads[p]) && s.threads[t].pred == s.threads[p].node;
      assert s.threads[p].pc == Lower ==> i - 1 == 0;
    }
  }

  /** Steps that neither join nor leave the queue keep its shape. */
  lemma QuietQueue(s: State, t: nat, th: Thread, s': State)
    requires QueueOk(s) && Chained(s) && OrderOk(s) && t < |s.threads|
    requires s'.threads == s.threads[t := th] && s'.tail == s.tail
    requires s'.queue == s.queue && s'.swaps == s.swaps && s'.entries == s.entries
    requires Queued(th) == Queued(s.threads[t]) && Inside(th) == Inside(s.threads[t])
    requires Queued(th) ==> th.node == s.threads[t].node && th.pred == s.threads[t].pred
    ensures QueueOk(s') && Chained(s') && OrderOk(s')
  {
    assert AllQueued(s'.threads, s'.queue);
    hide AllQueued;
    if Inside(th) { InsideIsHead(s, t); }
    assert InQueue(s'.threads, s'.queue);
    assert Chained(s');
  }

  lemma JoinQueue(threads: seq<Thread>, queue: seq<nat>, t: nat, th: Thread)
    requires InQueue(threads, queue) && Distinct(queue) && AllQueued(threads, queue)
    requires t < |threads| && t !in queue && th.pc == Spin
    ensures InQueue(threads[t := th], queue + [t]) && Distinct(queue + [t]) && AllQueued(threads[t := th], queue + [t])
  { }

  lemma SwapChain(s: State, t: nat, s': State)
    requires InQueue(s.threads, s.queue) && Chained(s) && t < |s.threads| && t !in s.queue
    requires |s'.threads| == |s.threads| && s'.queue == s.queue + [t]
    requires s'.tail == s'.threads[t].node && s'.threads[t].pred == s.tail
    requires s'.threads == s.threads[t := s'.threads[t]] && InQueue(s'.threads, s'.queue)
    ensures Chained(s')
  {
    forall i | 0 <= i < |s.queue|
      ensures s'.queue[i] == s.queue[i] && s'.threads[s'.queue[i]] == s.threads[s.queue[i]]
    { }
    hide InQueue;
  }

  lemma SwapOrder(s: State, t: nat, s': State)
    requires InQueue(s.threads, s.queue) && OrderOk(s) && t < |s.threads| && t !in s.queue && s.threads[t].pc == Swap
    requires s'.queue == s.queue + [t] && s'.swaps == s.swaps + [t] && s'.entries == s.entries
    requires |s'.threads| == |s.threads| && s'.threads[t].pc == Spin && InQueue(s'.threads, s'.queue)
    requires forall u :: 0 <= u < |s.threads| && u != t ==> s'.threads[u] == s.threads[u]
    ensures OrderOk(s')
  {
    if s.queue == [] {
      assert s'.queue == [t];
    } else {
      assert s'.queue[0] == s.queue[0] && s'.queue[1..] == s.queue[1..] + [t];
    }
  }

  lemma SwapQueue(s: State, t: nat, s': State)
    requires QueueOk(s) && Chained(s) && OrderOk(s) && Moves(s, t, s') && s.threads[t].pc == Swap
    ensures QueueOk(s') && Chained(s') && OrderOk(s')
  {
    assert t !in s.queue;
    hide AllQueued, Distinct, Chained;
    JoinQueue(s.threads, s.queue, t, s'.threads[t]);
    SwapChain(s, t, s');
    SwapOrder(s, t, s');
  }

  /** The head may enter without disturbing the queue behind it. */
  lemma HeadEnters(s: State, t: nat, s': State)
    requires QueueOk(s) && Chained(s) && s.queue != [] && s.queue[0] == t && s.threads[t].pc == Spin
    requires s'.threads == s.threads[t := s.threads[t].(pc := Load)] && s'.tail == s.tail && s'.queue == s.queue
    ensures QueueOk(s') && Chained(s')
  {
    assert AllQueued(s'.threads, s'.queue);
    hide AllQueued;
  }

  lemma EnterQueue(s: State, t: nat, s': State)
    requires QueueOk(s) && Chained(s) && HeapOk(s) && OrderOk(s) && Moves(s, t, s') && s.threads[t].pc == Spin
    ensures QueueOk(s') && Chained(s') && OrderOk(s')
  {
    hide HeapOk, AllQueued, Distinct, Chained;
    OnlyHeadEnters(s, t);
    if s' != s {
      HeadEnters(s, t, s');
      assert s.queue == [t] + s.queue[1..];
    }
  }

  lemma LeaveQueue(threads: seq<Thread>, queue: seq<nat>, th: Thread)
    requires InQueue(threads, queue) && Distinct(queue) && AllQueued(threads, queue)
    requires queue != [] && !Queued(th)
    ensures var t, q := queue[0], queue[1..];
            InQueue(threads[t := th], q) && Distinct(q) && AllQueued(threads[t := th], q)
  {
    var t, q := queue[0], queue[1..];
    assert queue == [t] + q;
    assert AllQueued(threads[t := th], q) by {
      forall u: nat | u < |threads| && u != t && Queued(threads[u]) ensures u in q {
        assert u in [t] + q;
      }
    }
    hide AllQueued;
    forall i | 0 <= i < |q|
      ensures q[i] < |threads| && q[i] != t && threads[q[i]].pc == Spin
    {
      assert q[i] == queue[i + 1];
    }
    forall i, k | 0 <= i < k < |q| ensures q[i] != q[k] {
      assert q[i] == queue[i + 1] && q[k] == queue[k + 1];
    }
  }

  lemma LowerChain(s: State, t: nat, s': State)
    requires QueueOk(s) && Chained(s) && s.queue != [] && s.queue[0] == t && t < |s.threads|
    requires s'.queue == s.queue[1..] && s'.tail == s.tail && |s'.threads| == |s.threads|
    requires forall u :: 0 <= u < |s.threads| && u != t ==> s'.threads[u] == s.threads[u]
    requires InQueue(s'.threads, s'.queue)
    ensures Chained(s')
  {
    hide AllQueued;
    var q := s'.queue;
    forall i | 0 <= i < |q| ensures q[i] == s.queue[i + 1] && s'.threads[q[i]] == s.threads[s.queue[i + 1]] {
      assert s.queue[0] != s.queue[i + 1];
    }
  }

  lemma LowerQueue(s: State, t: nat, s': State)
    requires QueueOk(s) && Chained(s) && OrderOk(s) && Moves(s, t, s') && s.threads[t].pc == Lower
    ensures QueueOk(s') && Chained(s') && OrderOk(s')
  {
    hide AllQueued, Distinct, Chained;
    InsideIsHead(s, t);
    LeaveQueue(s.threads, s.queue, s'.threads[t]);
    LowerChain(s, t, s');
  }

  lemma QueueKeeps(s: State, t: nat, s': State)
    requires Inv(s) && Moves(s, t, s')
    ensures QueueOk(s') && Chained(s') && OrderOk(s')
  {
    hide QueueOk, Chained, OrderOk, HeapOk, CountOk;
    match s.threads[t].pc
    case Swap => SwapQueue(s, t, s');
    case Spin => EnterQueue(s, t, s');
    case Lower => LowerQueue(s, t, s');
    case _ => QuietQueue(s, t, s'.threads[t], s');
  }

  lemma CountKeeps(s: State, t: nat, s': State)
    requires QueueOk(s) && CountOk(s) && Moves(s, t, s')
    ensures CountOk(s')
  {
    if s.threads[t].pc == StoreCount {
      SumUpdate(s.made, t, s.made[t] + 1);
      InsideIsHead(s, t);
      forall u: nat | u < |s.threads| && u != t ensures s.threads[u].pc != StoreCount {
        if s.threads[u].pc == StoreCount { InsideIsHead(s, u); }
      }
    }
    hide Sum;
  }

  lemma FreshFlag(s: State, t: nat, a: Addr, s': State)
    requires InQueue(s.threads, s.queue) && HeapOk(s) && t < |s.threads| && t !in s.queue && a !in s.heap
    requires s.threads[t].pc == Allocate && s'.threads == s.threads[t := s.threads[t].(pc := Raise, node := a)]
    requires s'.heap == s.heap[a := false] && s'.queue == s.queue && s'.tail == s.tail
    requires InQueue(s'.threads, s'.queue)
    ensures HeapOk(s')
  {
    assert Base(s') == Base(s);
    assert Owing(s'.threads) == Owing(s.threads) + {t};
  }

  lemma AllocateHeap(s: State, t: nat, s': State)
    requires QueueOk(s) && HeapOk(s) && QueueOk(s') && Moves(s, t, s') && s.threads[t].pc == Allocate
    ensures HeapOk(s')
  {
    assert t !in s.queue;
    hide HeapOk, AllQueued, Distinct, InQueue;
    FreshFlag(s, t, s'.threads[t].node, s');
  }

  lemma RaiseHeap(s: State, t: nat, s': State)
    requires QueueOk(s) && HeapOk(s) && QueueOk(s') && Moves(s, t, s') && s.threads[t].pc == Raise
    ensures HeapOk(s')
  {
    assert t !in s.queue;
    assert Base(s') == Base(s);
    assert Owing(s'.threads) == Owing(s.threads);
    assert s'.heap.Keys == s.heap.Keys;
  }

  /** Steps that leave the heap, the base and the debts alone. */
  lemma QuietHeap(s: State, t: nat, s': State)
    requires QueueOk(s) && HeapOk(s) && QueueOk(s') && Base(s') == Base(s) && t < |s.threads|
    requires s'.heap == s.heap && (s'.queue != [] ==> s'.threads[s'.queue[0]].pc != Lower)
    requires s.queue != [] ==> s.threads[s.queue[0]].pc != Lower
    requires |s'.threads| == |s.threads| && forall u :: 0 <= u < |s.threads| && u != t ==> s'.threads[u] == s.threads[u]
    requires Owes(s.threads[t]) && Owes(s'.threads[t]) && s.threads[t].node == s'.threads[t].node
    requires s.threads[t].pc != Raise && s'.threads[t].pc != Raise
    ensures HeapOk(s')
  {
    assert Owing(s'.threads) == Owing(s.threads);
  }

  lemma SwapHeap(s: State, t: nat, s': State)
    requires QueueOk(s) && HeapOk(s) && QueueOk(s') && Moves(s, t, s') && s.threads[t].pc == Swap
    ensures HeapOk(s')
  {
    assert Base(s') == Base(s);
    assert Owing(s'.threads) == Owing(s.threads);
  }

  lemma FreeHeap(s: State, t: nat, s': State)
    requires QueueOk(s) && HeapOk(s) && QueueOk(s') && Moves(s, t, s') && s.threads[t].pc == FreePred
    ensures HeapOk(s')
  {
    InsideIsHead(s, t);
    assert Owing(s'.threads) == Owing(s.threads) - {t};
    assert t in Owing(s.threads);
    assert s'.heap.Keys == s.heap.Keys - {s.threads[t].pred};
  }

  lemma LowerBase(s: State, t: nat, s': State)
    requires QueueOk(s) && Chained(s) && QueueOk(s') && Moves(s, t, s') && s.threads[t].pc == Lower
    ensures s.queue != [] && s.queue[0] == t && Base(s') == Base(s) == s.threads[t].node
    ensures s'.queue != [] ==> s'.threads[s'.queue[0]].pc == Spin
  {
    InsideIsHead(s, t);
    hide AllQueued;
    if |s.queue| > 1 {
      assert s.queue[1..][0] == s.queue[1] && s.threads[s.queue[1]].pred == s.threads[s.queue[0]].node;
    }
  }

  lemma LowerHeap(s: State, t: nat, s': State)
    requires QueueOk(s) && Chained(s) && HeapOk(s) && QueueOk(s') && Moves(s, t, s') && s.threads[t].pc == Lower
    ensures HeapOk(s')
  {
    hide AllQueued;
    LowerBase(s, t, s');
    assert Owing(s'.threads) == Owing(s.threads);
    assert s'.heap.Keys == s.heap.Keys;
  }

  lemma HeapKeeps(s: State, t: nat, s': State)
    requires Inv(s) && Moves(s, t, s') && QueueOk(s')
    ensures HeapOk(s')
  {
    hide CountOk, OrderOk, HeapOk;
    match s.threads[t].pc
    case Allocate => AllocateHeap(s, t, s');
    case Raise => RaiseHeap(s, t, s');
    case Swap => SwapHeap(s, t, s');
    case Spin =>
      OnlyHeadEnters(s, t);
      if s' != s { QuietHeap(s, t, s'); }
    case Load =>
      InsideIsHead(s, t);
      QuietHeap(s, t, s');
    case StoreCount =>
      InsideIsHead(s, t);
      QuietHeap(s, t, s');
    case FreePred => FreeHeap(s, t, s');
    case Lower => LowerHeap(s, t, s');
  }

  lemma NextKeeps(s: State, s': State)
    requires Inv(s) && Next(s, s')
    ensures Inv(s')
  {
    hide QueueOk, Chained, OrderOk, HeapOk, CountOk, Moves;
    var t: nat :| Moves(s, t, s');
    QueueKeeps(s, t, s');
    HeapKeeps(s, t, s');
    CountKeeps(s, t, s');
  }

  lemma {:induction false} RunInv(run: seq<State>, n: nat)
    requires IsRun(run) && n < |run|
    ensures Inv(run[n])
  {
    hide Inv, Next;
    if n == 0 {
      InitInv(run[0]);
    } else {
      RunInv(run, n - 1);
      assert Next(run[n - 1], run[n - 1 + 1]);
      NextKeeps(run[n - 1], run[n]);
    }
  }

  // ----- what every run satisfies -----

  /** At most one thread is between its spin loop and the lowering of its flag. */
  lemma MutualExclusion(run: seq<State>, n: nat, t: nat, u: nat)
    requires IsRun(run) && n < |run| && t < |run[n].threads| && u < |run[n].threads|
    requires Inside(run[n].threads[t]) && Inside(run[n].threads[u])
    ensures t == u
  {
    hide IsRun;
    RunInv(run, n);
    InsideIsHead(run[n], t);
    InsideIsHead(run[n], u);
  }

  /** Entries happen in the order of the swaps, and what has swapped without entering waits
      in that order. */
  lemma FirstComeFirstServed(run: seq<State>, n: nat)
    requires IsRun(run) && n < |run|
    ensures run[n].entries <= run[n].swaps
  {
    hide IsRun;
    RunInv(run, n);
  }

  /** No step touches a flag that has been freed, nor frees one twice. */
  lemma NoUseAfterFree(run: seq<State>, n: nat, t: nat)
    requires IsRun(run) && n < |run| && t < |run[n].threads|
    ensures AccessOk(run[n], t)
  {
    hide IsRun;
    RunInv(run, n);
    var s := run[n];
    if s.threads[t].pc == Spin {
      OnlyHeadEnters(s, t);
    } else if Inside(s.threads[t]) {
      InsideIsHead(s, t);
    }
  }

  /** The live flags number one more than the threads that still owe a free. */
  lemma LiveFlags(run: seq<State>, n: nat)
    requires IsRun(run) && n < |run|
    ensures |run[n].heap| == 1 + |Owing(run[n].threads)|
  {
    hide IsRun;
    RunInv(run, n);
  }

  lemma HeadQueued(s: State)
    requires InQueue(s.threads, s.queue)
    ensures s.queue != [] ==> s.queue[0] < |s.threads| && Queued(s.threads[s.queue[0]])
  { }

  /** With every thread outside, one lowered flag is left and the tail is the way to it, so the
      last free of the program releases everything. */
  lemma NoLeak(run: seq<State>, n: nat)
    requires IsRun(run) && n < |run|
    requires forall t :: 0 <= t < |run[n].threads| ==> run[n].threads[t].pc == Allocate
    ensures run[n].heap == map[run[n].tail := false]
  {
    hide IsRun;
    RunInv(run, n);
    var s := run[n];
    HeadQueued(s);
    assert Owing(s.threads) == {};
    assert |s.heap.Keys - {s.tail}| == 0;
    assert s.heap.Keys == {s.tail};
  }

  /** No increment is lost. */
  lemma CounterIsExact(run: seq<State>, n: nat)
    requires IsRun(run) && n < |run|
    ensures |run[n].made| == |run[n].threads| && run[n].count == Sum(run[n].made)
  {
    hide IsRun, Sum;
    RunInv(run, n);
  }

  /** When every thread has done its work the counter is threads times work. */
  lemma FinalCount(run: seq<State>, n: nat, work: int)
    requires IsRun(run) && n < |run| && run[n].made == seq(|run[n].threads|, _ => work)
    ensures run[n].count == |run[n].threads| * work
  {
    hide IsRun;
    CounterIsExact(run, n);
    SumConstant(|run[n].threads|, work);
  }

  /** A waiter spins exactly while it is not at the head of the queue. */
  lemma WaitsExactlyBehindHead(run: seq<State>, n: nat, t: nat)
    requires IsRun(run) && n < |run| && t < |run[n].threads| && run[n].threads[t].pc == Spin
    ensures run[n].threads[t].pred in run[n].heap && run[n].queue != []
    ensures run[n].heap[run[n].threads[t].pred] <==> run[n].queue[0] != t
  {
    hide IsRun;
    RunInv(run, n);
    OnlyHeadEnters(run[n], t);
  }

  /** Whenever a thread is queued, the head of the queue can take a step that changes the state. */
  lemma HeadMoves(run: seq<State>, n: nat) returns (s': State)
    requires IsRun(run) && n < |run| && run[n].queue != []
    ensures run[n].queue[0] < |run[n].threads|
    ensures Moves(run[n], run[n].queue[0], s') && s'.threads[run[n].queue[0]].pc != run[n].threads[run[n].queue[0]].pc
  {
    hide IsRun, Sum;
    RunInv(run, n);
    var s := run[n];
    var t := s.queue[0];
    assert Queued(s.threads[t]);
    s' := HeadStep(s, t);
  }

  lemma HeadStep(s: State, t: nat) returns (s': State)
    requires Inv(s) && s.queue != [] && s.queue[0] == t && t < |s.threads| && Queued(s.threads[t])
    ensures Moves(s, t, s') && s'.threads[t].pc != s.threads[t].pc
  {
    hide Sum;
    var th := s.threads[t];
    if th.pc == Spin {
      OnlyHeadEnters(s, t);
      s' := Goto(s, t, Load).(entries := s.entries + [t]);
    } else if th.pc == Load {
      s' := s.(threads := s.threads[t := th.(pc := StoreCount, tmp := s.count)]);
    } else if th.pc == StoreCount {
      s' := Goto(s, t, FreePred).(count := th.tmp + 1, made := s.made[t := s.made[t] + 1]);
    } else if th.pc == FreePred {
      s' := Goto(s, t, Lower).(heap := s.heap - {th.pred});
    } else {
      s' := Goto(s, t, Allocate).(heap := s.heap[th.node := false], queue := s.queue[1..]);
    }
  }
}
