/** What the queue lock keeps count of, measured on the run itself: on the threads that pass from one
    line of the program to the next. */
module ClhLockCounts {
  import opened ClhLock
  import opened Sums

  /** Thread `t` passes from one line to another in this step. */
  predicate Crosses(s: State, s': State, t: nat, from: Pc, to: Pc) {
    t < |s.threads| == |s'.threads| && s.threads[t].pc == from && s'.threads[t].pc == to
  }

  ghost function Crossing(s: State, s': State, from: Pc, to: Pc): seq<nat> {
    if exists t: nat :: Crosses(s, s', t, from, to) then
      var t: nat :| Crosses(s, s', t, from, to); [t]
    else []
  }

  /** The threads that have passed from one line to another before state `n`, in order. */
  ghost function Passed(run: seq<State>, n: nat, from: Pc, to: Pc): seq<nat>
    requires n < |run|
  {
    if n == 0 then [] else Passed(run, n - 1, from, to) + Crossing(run[n - 1], run[n], from, to)
  }

  /** How often a thread has passed. */
  ghost function Times(run: seq<State>, n: nat, t: nat, from: Pc, to: Pc): nat
    requires n < |run|
  {
    multiset(Passed(run, n, from, to))[t]
  }

  lemma OneMover(s: State, t: nat, s': State)
    requires Moves(s, t, s')
    ensures |s'.threads| == |s.threads| && t < |s.threads|
    ensures forall u :: 0 <= u < |s.threads| && u != t ==> s'.threads[u] == s.threads[u]
  { }

  lemma CrossingIs(s: State, t: nat, s': State, from: Pc, to: Pc)
    requires Moves(s, t, s') && from != to
    ensures |s'.threads| == |s.threads|
    ensures Crossing(s, s', from, to) == if s.threads[t].pc == from && s'.threads[t].pc == to then [t] else []
  {
    OneMover(s, t, s');
    hide Moves;
    OnlyCrossing(s, t, s', from, to);
  }

  lemma OnlyCrossing(s: State, t: nat, s': State, from: Pc, to: Pc)
    requires t < |s.threads| == |s'.threads| && from != to
    requires forall u :: 0 <= u < |s.threads| && u != t ==> s'.threads[u] == s.threads[u]
    ensures Crossing(s, s', from, to) == if s.threads[t].pc == from && s'.threads[t].pc == to then [t] else []
  {
    if s.threads[t].pc == from && s'.threads[t].pc == to {
      assert Crosses(s, s', t, from, to);
    }
    forall u: nat | Crosses(s, s', u, from, to) ensures u == t { }
    hide Crosses;
  }

  // ----- the order of the swaps and of the entries -----

  lemma StepPasses(s: State, t: nat, s': State)
    requires Moves(s, t, s')
    ensures |s'.threads| == |s.threads|
    ensures s'.entries == s.entries + if s.threads[t].pc == Spin && s'.threads[t].pc == Load then [t] else []
    ensures s'.swaps == s.swaps + if s.threads[t].pc == Swap && s'.threads[t].pc == Spin then [t] else []
  { }

  /** `entries` lists the threads that have left their spin loop and `swaps` those that have swapped, in
      the order in which they did. */
  lemma {:induction false} ListsAreRun(run: seq<State>, n: nat)
    requires IsRun(run) && n < |run|
    ensures run[n].entries == Passed(run, n, Spin, Load) && run[n].swaps == Passed(run, n, Swap, Spin)
  {
    if n > 0 {
      hide Moves, Init, Crossing;
      ListsAreRun(run, n - 1);
      assert Next(run[n - 1], run[n - 1 + 1]);
      var t: nat :| Moves(run[n - 1], t, run[n]);
      StepPasses(run[n - 1], t, run[n]);
      CrossingIs(run[n - 1], t, run[n], Spin, Load);
      CrossingIs(run[n - 1], t, run[n], Swap, Spin);
    }
  }

  /** First come, first served: the threads leave their spin loops in the order in which they swapped. */
  lemma ServedInOrder(run: seq<State>, n: nat)
    requires IsRun(run) && n < |run|
    ensures Passed(run, n, Spin, Load) <= Passed(run, n, Swap, Spin)
  {
    hide IsRun, Passed;
    ListsAreRun(run, n);
    FirstComeFirstServed(run, n);
  }

  // ----- the counter -----

  /** Between entering and the store to the counter. */
  predicate Counting(th: Thread) { th.pc == Load || th.pc == StoreCount }

  function CountingThreads(threads: seq<Thread>): set<nat> {
    set t: nat | t < |threads| && Counting(threads[t])
  }

  ghost predicate MadeOk(s: State) {
    && |s.made| == |s.threads| && s.count == |s.entries| - |CountingThreads(s.threads)|
    && forall t: nat :: t < |s.made| ==> s.made[t] + (if Counting(s.threads[t]) then 1 else 0) == multiset(s.entries)[t]
  }

  lemma CountingStep(threads: seq<Thread>, t: nat, th: Thread)
    requires t < |threads|
    ensures |CountingThreads(threads[t := th])| ==
            |CountingThreads(threads)| - (if Counting(threads[t]) then 1 else 0) + if Counting(th) then 1 else 0
  {
    var a, b := CountingThreads(threads), CountingThreads(threads[t := th]);
    assert a - {t} == b - {t};
    assert t in a <==> Counting(threads[t]);
    assert t in b <==> Counting(th);
    hide CountingThreads, Counting;
    if t in a { assert a == (a - {t}) + {t}; } else { assert a == a - {t}; }
    if t in b { assert b == (b - {t}) + {t}; } else { assert b == b - {t}; }
  }

  lemma CountStep(s: State, t: nat, s': State)
    requires Moves(s, t, s') && CountOk(s)
    ensures s'.count == s.count + if s.threads[t].pc == StoreCount then 1 else 0
    ensures s'.made == if s.threads[t].pc == StoreCount then s.made[t := s.made[t] + 1] else s.made
    ensures |s'.threads| == |s.threads|
    ensures s.threads[t].pc == StoreCount ==> s'.threads[t].pc == FreePred
    ensures Counting(s'.threads[t]) <==>
            s.threads[t].pc == Load || (s.threads[t].pc == Spin && s'.threads[t].pc == Load)
  {
    hide Sum;
  }

  lemma MadeKeeps(s: State, t: nat, s': State)
    requires Moves(s, t, s') && CountOk(s) && MadeOk(s)
    ensures MadeOk(s')
  {
    OneMover(s, t, s');
    CountStep(s, t, s');
    assert s'.threads == s.threads[t := s'.threads[t]];
    CountingStep(s.threads, t, s'.threads[t]);
    StepPasses(s, t, s');
    hide Moves, CountOk, CountingThreads;
  }

  lemma {:induction false} MadeRun(run: seq<State>, n: nat)
    requires IsRun(run) && n < |run|
    ensures MadeOk(run[n])
  {
    if n == 0 {
      assert CountingThreads(run[0].threads) == {};
    } else {
      hide Moves, Init, MadeOk;
      MadeRun(run, n - 1);
      RunInv(run, n - 1);
      assert Next(run[n - 1], run[n - 1 + 1]);
      var t: nat :| Moves(run[n - 1], t, run[n]);
      MadeKeeps(run[n - 1], t, run[n]);
    }
  }

  /** No increment is lost and none is made twice: the counter is the number of entries into the lock
      less the thread, if any, that has entered and not yet stored; and each thread has made as many
      increments as entries, less one if it is that thread. */
  lemma CountsEntries(run: seq<State>, n: nat)
    requires IsRun(run) && n < |run|
    ensures var s := run[n];
            && |s.made| == |s.threads|
            && s.count == |Passed(run, n, Spin, Load)|
                          - |set t: nat | t < |s.threads| && (s.threads[t].pc == Load || s.threads[t].pc == StoreCount)|
            && forall t :: 0 <= t < |s.threads| ==>
                 s.made[t] + (if s.threads[t].pc == Load || s.threads[t].pc == StoreCount then 1 else 0)
                 == Times(run, n, t, Spin, Load)
  {
    hide IsRun, Passed;
    MadeRun(run, n);
    ListsAreRun(run, n);
    var s := run[n];
    assert CountingThreads(s.threads)
        == set t: nat | t < |s.threads| && (s.threads[t].pc == Load || s.threads[t].pc == StoreCount);
  }

  /** Of the threads that have entered at most one has not yet stored. */
  lemma OneCounting(run: seq<State>, n: nat)
    requires IsRun(run) && n < |run|
    ensures run[n].count <= |Passed(run, n, Spin, Load)| <= run[n].count + 1
  {
    CountsEntries(run, n);
    hide IsRun, Passed;
    var s := run[n];
    var c := CountingThreads(s.threads);
    assert c == set t: nat | t < |s.threads| && (s.threads[t].pc == Load || s.threads[t].pc == StoreCount);
    if c != {} {
      var t :| t in c;
      forall u | u in c ensures u == t { MutualExclusion(run, n, t, u); }
      assert c == {t};
    }
  }

  // ----- rounds of the loop -----

  /** Stored to the counter and not yet back at the beginning of the loop. */
  predicate Leaving(th: Thread) { th.pc == FreePred || th.pc == Lower }

  lemma LeavingStep(s: State, t: nat, s': State)
    requires Moves(s, t, s')
    ensures |s'.threads| == |s.threads|
    ensures Leaving(s'.threads[t]) <==> s.threads[t].pc == StoreCount || s.threads[t].pc == FreePred
    ensures s.threads[t].pc == Lower <==> s'.threads[t].pc == Allocate
  { }

  /** Each thread has made as many increments as rounds of its loop, and one more while it leaves. */
  lemma {:induction false} RoundsMade(run: seq<State>, n: nat, t: nat)
    requires IsRun(run) && n < |run| && t < |run[n].threads|
    ensures |run[n].made| == |run[n].threads|
    ensures run[n].made[t] == Times(run, n, t, Lower, Allocate) + if Leaving(run[n].threads[t]) then 1 else 0
  {
    if n > 0 {
      hide Moves, Init, Crossing, Times;
      assert Next(run[n - 1], run[n - 1 + 1]);
      var u: nat :| Moves(run[n - 1], u, run[n]);
      RunInv(run, n - 1);
      OneMover(run[n - 1], u, run[n]);
      RoundsMade(run, n - 1, t);
      CountStep(run[n - 1], u, run[n]);
      LeavingStep(run[n - 1], u, run[n]);
      OneMoreRound(run, n, t, u);
    }
  }

  lemma OneMoreRound(run: seq<State>, n: nat, t: nat, u: nat)
    requires 0 < n < |run| && Moves(run[n - 1], u, run[n])
    ensures Times(run, n, t, Lower, Allocate) == Times(run, n - 1, t, Lower, Allocate)
            + if u == t && run[n - 1].threads[u].pc == Lower then 1 else 0
  {
    CrossingIs(run[n - 1], u, run[n], Lower, Allocate);
    LeavingStep(run[n - 1], u, run[n]);
    hide Moves, Crossing;
  }

  /** End to end: when every thread is back at the beginning of its loop after `work` rounds, the
      counter is the number of threads times `work`. */
  lemma WorkIsCounted(run: seq<State>, n: nat, work: nat)
    requires IsRun(run) && n < |run|
    requires forall t :: 0 <= t < |run[n].threads| ==>
               run[n].threads[t].pc == Allocate && Times(run, n, t, Lower, Allocate) == work
    ensures run[n].count == |run[n].threads| * work
  {
    hide IsRun, Times;
    CounterIsExact(run, n);
    forall t: nat | t < |run[n].threads| ensures run[n].made[t] == work { RoundsMade(run, n, t); }
    FinalCount(run, n, work);
  }
}
