/** What holds of every run of the hand-over-hand list. */
module FineGrainedListTheorems {
  import opened FineGrainedList
  import opened FineGrainedListProofs
  import opened Options

  /** Linearizability: the results of all calls that took effect are those of a sequential
      set, the set is exactly the keys in the list, and a call past its effect has its own
      entry, made after the call began. */
  lemma Linearizable(run: seq<State>, n: nat)
    requires IsRun(run) && n < |run|
    ensures var s := run[n];
            && Legal(s.lin) && SetAfter(s.lin) == Keys(s.heap, s.live)
            && forall t :: 0 <= t < |s.threads| && Finishing(s.threads[t].pc) ==>
                 var th := s.threads[t];
                 && th.at.Some? && th.started <= th.at.value < |s.lin|
                 && s.lin[th.at.value] == Event(t, th.op, th.key, th.res)
  {
    hide ListOk, PointersOk, OwnersOk, MemoryOk, Legal, SetAfter, Keys, PrevOk, CurrOk, PairOk, PrivateOk;
    RunInv(run, n);
    forall t | 0 <= t < |run[n].threads| ensures EffectOk(run[n], t, run[n].threads[t]) {
      ThreadFacts(run[n], t);
    }
  }

  /** The effect of one step on the linearization: nothing, or one entry for the call of
      the moving thread, which had none before.  Every call returns after its entry. */
  lemma StepEffect(run: seq<State>, n: nat, t: nat)
    requires IsRun(run) && n + 1 < |run| && Moves(run[n], t, run[n + 1])
    ensures var s, s' := run[n], run[n + 1]; var th, th' := s.threads[t], s'.threads[t];
            && |s'.threads| == |s.threads|
            && (forall u :: 0 <= u < |s.threads| && u != t ==> s'.threads[u] == s.threads[u])
            && (|| s'.lin == s.lin
                || (th.pc != Idle && th.at == None && th'.at == Some(|s.lin|)
                    && s'.lin == s.lin + [Event(t, th.op, th.key, th'.res)]))
            && (th.pc != Idle && th'.pc == Idle ==>
                  && th.at.Some? && th.started <= th.at.value < |s.lin|
                  && s.lin[th.at.value] == Event(t, th.op, th.key, th.res))
            && (th.pc == Idle ==> th'.pc != Idle && th'.started == |s.lin|)
  {
    hide Inv;
    RunInv(run, n);
    ThreadFacts(run[n], t);
    if Step(run[n], t, run[n + 1]) {
      StepShape(run[n], t, run[n + 1]);
    } else {
      var op, key, a, junk :| Begin(run[n], t, op, key, a, junk, run[n + 1]);
    }
  }

  lemma StepShape(s: State, t: nat, s': State)
    requires t < |s.threads| && Step(s, t, s') && EffectOk(s, t, s.threads[t])
    ensures var th, th' := s.threads[t], s'.threads[t];
            && |s'.threads| == |s.threads| && th.pc != Idle
            && (forall u :: 0 <= u < |s.threads| && u != t ==> s'.threads[u] == s.threads[u])
            && (|| s'.lin == s.lin
                || (th.at == None && th'.at == Some(|s.lin|) && s'.lin == s.lin + [Event(t, th.op, th.key, th'.res)]))
            && (th'.pc == Idle ==> Finishing(th.pc))
  { }

  /** Entries are never changed: an earlier linearization is a prefix of a later one, so a
      call that returned before another began precedes it. */
  lemma {:induction false} LinOnlyGrows(run: seq<State>, n: nat, m: nat)
    requires IsRun(run) && n <= m < |run|
    ensures LinGrows(run[n], run[m])
    decreases m
  {
    hide Next;
    if n < m {
      LinOnlyGrows(run, n, m - 1);
      assert Next(run[m - 1], run[(m - 1) + 1]);
      var t :| Moves(run[m - 1], t, run[m]) by { NextHasMover(run[m - 1], run[m]); }
      StepEffect(run, m - 1, t);
    }
  }

  lemma NextHasMover(s: State, s': State)
    requires Next(s, s')
    ensures exists t: nat :: Moves(s, t, s')
  { }

  // ----- memory -----

  /** Waiting for a mutex that another thread has locked. */
  predicate Blocked(s: State, t: nat) {
    t < |s.threads| && match s.threads[t].pc
                       case LockHead => HEAD in s.heap && s.heap[HEAD].owner.Some?
                       case LockCurr => s.threads[t].curr in s.heap && s.heap[s.threads[t].curr].owner.Some?
                       case _ => false
  }

  /** A thread inside a call can always take its next step unless it waits for a mutex; in
      particular it never holds or follows a pointer to a node that is not allocated. */
  lemma NoUseAfterFree(run: seq<State>, n: nat, t: nat)
    requires IsRun(run) && n < |run| && t < |run[n].threads| && run[n].threads[t].pc != Idle
    ensures Blocked(run[n], t) || exists s' :: Step(run[n], t, s')
  {
    RunInv(run, n);
    var s' := Stepping(run[n], t);
  }

  predicate Walking(pc: Pc) {
    pc == LockHead || pc == ReadFirst || pc == LockCurr || pc == Test || pc == UnlockPrev || pc == Advance
    || pc == TestKey
  }

  lemma Stepping(s: State, t: nat) returns (s': State)
    requires Inv(s) && t < |s.threads| && s.threads[t].pc != Idle
    ensures Blocked(s, t) || Step(s, t, s')
  {
    hide Inv, Step;
    if Walking(s.threads[t].pc) { s' := WalkingStep(s, t); } else { s' := EffectStep(s, t); }
  }

  lemma WalkingStep(s: State, t: nat) returns (s': State)
    requires Inv(s) && t < |s.threads| && Walking(s.threads[t].pc)
    ensures Blocked(s, t) || Step(s, t, s')
  {
    hide Inv, HalfLinked, Legal, SetAfter;
    ThreadFacts(s, t);
    LiveFacts(s);
    var th := s.threads[t];
    if th.pc == LockHead {
      s' := Move(s, t, th.(pc := ReadFirst, prev := HEAD)).(heap := SetOwner(s.heap, HEAD, Some(t)));
    } else if th.pc == ReadFirst {
      LockedPointer(s, th.prev);
      s' := Move(s, t, th.(pc := LockCurr, curr := s.heap[th.prev].next.value));
    } else if th.pc == LockCurr {
      ListFacts(s, th.prev);
      s' := Move(s, t, th.(pc := Test)).(heap := SetOwner(s.heap, th.curr, Some(t)));
    } else if th.pc == Test {
      s' := Move(s, t, th.(pc := if s.heap[th.curr].key < th.key then UnlockPrev else TestKey));
    } else if th.pc == TestKey {
      s' := TestStep(s, t);
    } else if th.pc == UnlockPrev {
      s' := Move(s, t, th.(pc := Advance)).(heap := SetOwner(s.heap, th.prev, None));
    } else {
      ListFacts(s, th.curr);
      LockedPointer(s, th.curr);
      s' := Move(s, t, th.(pc := LockCurr, prev := th.curr, curr := s.heap[th.curr].next.value));
    }
  }

  lemma EffectStep(s: State, t: nat) returns (s': State)
    requires Inv(s) && t < |s.threads| && s.threads[t].pc != Idle && !Walking(s.threads[t].pc)
    ensures Step(s, t, s')
  {
    hide Inv, Step;
    if s.threads[t].pc == Free {
      s' := FreeStepping(s, t);
    } else if s.threads[t].pc in {Release1, Release2} {
      s' := EndStep(s, t);
    } else {
      s' := ChangeStep(s, t);
    }
  }

  lemma ChangeStep(s: State, t: nat) returns (s': State)
    requires Inv(s) && t < |s.threads| && s.threads[t].pc in {Publish, SetNext, LoadNext, Unlink}
    ensures Step(s, t, s')
  {
    hide Inv, HalfLinked, Legal, SetAfter;
    ThreadFacts(s, t);
    var th := s.threads[t];
    if th.pc == Publish {
      s' := Linearize(s, t, th.(pc := SetNext), true).(
              heap := s.heap[th.prev := s.heap[th.prev].(next := Some(th.node))],
              live := s.live + {th.node}, succ := s.succ[th.prev := th.node][th.node := th.curr]);
    } else if th.pc == SetNext {
      s' := Move(s, t, th.(pc := Release1)).(heap := s.heap[th.node := s.heap[th.node].(next := Some(th.curr))]);
    } else if th.pc == LoadNext {
      s' := Move(s, t, th.(pc := Unlink, next := s.heap[th.curr].next));
    } else {
      s' := Linearize(s, t, th.(pc := Release1), true).(
              heap := s.heap[th.prev := s.heap[th.prev].(next := th.next)],
              live := s.live - {th.curr}, succ := Bypass(s.succ, th.prev, th.curr));
    }
  }

  lemma EndStep(s: State, t: nat) returns (s': State)
    requires Inv(s) && t < |s.threads| && s.threads[t].pc in {Release1, Release2}
    ensures Step(s, t, s')
  {
    hide Inv, PairOk;
    ThreadFacts(s, t);
    var th := s.threads[t];
    if th.pc == Release1 {
      s' := Move(s, t, th.(pc := Release2)).(heap := SetOwner(s.heap, th.prev, None));
    } else {
      s' := Move(s, t, th.(pc := if (th.op == Add && !th.res) || (th.op == Remove && th.res) then Free else Idle)).(
              heap := SetOwner(s.heap, th.curr, None));
    }
  }

  lemma FreeStepping(s: State, t: nat) returns (s': State)
    requires Inv(s) && t < |s.threads| && s.threads[t].pc == Free
    ensures Step(s, t, s')
  {
    hide Inv, PairOk, PrevOk, CurrOk;
    ThreadFacts(s, t);
    var th := s.threads[t];
    s' := Move(s, t, th.(pc := Idle)).(heap := s.heap - {if th.op == Add then th.node else th.curr});
  }

  /** When no call is in progress, exactly the nodes of the list are allocated. */
  lemma NoLeak(run: seq<State>, n: nat)
    requires IsRun(run) && n < |run| && forall t :: 0 <= t < |run[n].threads| ==> run[n].threads[t].pc == Idle
    ensures run[n].heap.Keys == run[n].live
    ensures forall a :: a in run[n].heap ==> run[n].heap[a].owner == None
  {
    hide PointersOk, Legal, SetAfter, Keys, ThreadOk, IsSucc;
    RunInv(run, n);
    LiveFacts(run[n]);
  }

  // ----- no lock cycle -----

  /** The node whose mutex a blocked thread waits for. */
  function Awaited(s: State, t: nat): nat
    requires t < |s.threads|
  {
    if s.threads[t].pc == LockHead then HEAD else s.threads[t].curr
  }

  /** If a blocked thread waits for a thread that is blocked too, the latter waits for a
      node further down the list: waiting threads cannot form a cycle. */
  lemma WaitingGoesRight(s: State, t: nat)
    requires Inv(s) && Blocked(s, t)
    ensures var u := s.heap[Awaited(s, t)].owner.value;
            && u < |s.threads| && u != t && s.threads[u].pc != Idle
            && (Blocked(s, u) ==> Awaited(s, u) in s.heap && Rank(s.heap, Awaited(s, t)) < Rank(s.heap, Awaited(s, u)))
            && Rank(s.heap, Awaited(s, t)) <= MAX_KEY
  {
    hide PointersOk, Legal, SetAfter, Keys, MemoryOk, IsSucc, ThreadOk;
    var a := Awaited(s, t);
    var u := s.heap[a].owner.value;
    ThreadFacts(s, t);
    ThreadFacts(s, u);
    AwaitedIsLive(s, t);
    if Blocked(s, u) { AwaitedIsBehind(s, u, a); }
  }

  lemma AwaitedIsLive(s: State, t: nat)
    requires Inv(s) && t < |s.threads| && (s.threads[t].pc == LockHead || s.threads[t].pc == LockCurr)
    ensures Awaited(s, t) in s.live && Awaited(s, t) in s.heap && Rank(s.heap, Awaited(s, t)) <= MAX_KEY
    ensures !Holds(s.threads[t], Awaited(s, t))
  {
    hide PointersOk, OwnersOk, Legal, SetAfter, Keys, MemoryOk, IsSucc;
    ThreadFacts(s, t);
    LiveFacts(s);
    if s.threads[t].pc == LockCurr { ListFacts(s, s.threads[t].prev); }
  }

  lemma AwaitedIsBehind(s: State, u: nat, a: nat)
    requires Inv(s) && u < |s.threads| && Blocked(s, u) && Holds(s.threads[u], a) && a in s.heap
    ensures Awaited(s, u) in s.heap && Rank(s.heap, a) < Rank(s.heap, Awaited(s, u))
  {
    hide Inv;
    ThreadFacts(s, u);
    ListFacts(s, s.threads[u].prev);
  }

  /** Following who waits for whom always arrives at a thread that can move. */
  lemma {:induction false} SomebodyMoves(s: State, t: nat) returns (u: nat)
    requires Inv(s) && t < |s.threads| && s.threads[t].pc != Idle
    ensures u < |s.threads| && s.threads[u].pc != Idle && !Blocked(s, u)
    decreases if Blocked(s, t) && Awaited(s, t) in s.heap then MAX_KEY + 1 - Rank(s.heap, Awaited(s, t)) else 0
  {
    hide Inv;
    if Blocked(s, t) {
      WaitingGoesRight(s, t);
      u := s.heap[Awaited(s, t)].owner.value;
      if Blocked(s, u) {
        WaitingGoesRight(s, u);
        u := SomebodyMoves(s, u);
      }
    } else {
      u := t;
    }
  }

  /** Deadlock freedom: as long as a call is in progress, some call has a step. */
  lemma NeverStuck(run: seq<State>, n: nat, t: nat) returns (u: nat, s': State)
    requires IsRun(run) && n < |run| && t < |run[n].threads| && run[n].threads[t].pc != Idle
    ensures u < |run[n].threads| && Step(run[n], u, s')
  {
    hide Inv, Step;
    RunInv(run, n);
    u := SomebodyMoves(run[n], t);
    s' := Stepping(run[n], u);
  }

  // ----- the list at rest -----

  /** The addresses met by following `next` from `a` to the tail. */
  ghost predicate IsWalk(heap: map<nat, Node>, walk: seq<nat>, a: nat) {
    && |walk| >= 1 && walk[0] == a && walk[|walk| - 1] == TAIL
    && (forall m :: 0 <= m < |walk| ==> walk[m] in heap)
    && forall m :: 0 <= m < |walk| - 1 ==>
         heap[walk[m]].next == Some(walk[m + 1]) && Rank(heap, walk[m]) < Rank(heap, walk[m + 1])
  }

  /** With no call in progress, following the stored pointers from the head visits every
      node of the list once, in strictly increasing key order, and ends at the tail. */
  lemma RestingList(run: seq<State>, n: nat) returns (walk: seq<nat>)
    requires IsRun(run) && n < |run| && forall t :: 0 <= t < |run[n].threads| ==> run[n].threads[t].pc == Idle
    ensures IsWalk(run[n].heap, walk, HEAD)
    ensures forall a :: a in run[n].live <==> a in walk
  {
    hide Legal, SetAfter, Keys, ThreadOk, MemoryOk, OwnersOk, IsSucc, NodesOk;
    RunInv(run, n);
    var s := run[n];
    LiveFacts(s);
    forall a | a in s.live && a != TAIL ensures s.heap[a].next == Some(s.succ[a]) { assert !HalfLinked(s, a); }
    HeadIsLeast(s.heap, s.live, s.succ);
    walk := WalkFrom(s.heap, s.live, s.succ, HEAD, s.live);
  }

  lemma HeadIsLeast(heap: map<nat, Node>, live: set<nat>, succ: map<nat, nat>)
    requires ListOk(heap, live, succ)
    ensures forall b :: b in live ==> Rank(heap, HEAD) <= Rank(heap, b)
  { }

  /** Every node but the tail points to its successor. */
  ghost predicate Linked(heap: map<nat, Node>, live: set<nat>, succ: map<nat, nat>) {
    forall b :: b in live && b != TAIL ==> b in heap && b in succ && heap[b].next == Some(succ[b])
  }

  /** `rest` is the part of the list from `a` on. */
  ghost predicate IsRest(heap: map<nat, Node>, live: set<nat>, a: nat, rest: set<nat>) {
    && a in live && a in heap && rest <= live
    && forall b :: b in live && b in heap && Rank(heap, a) <= Rank(heap, b) <==> b in rest
  }

  lemma {:induction false} WalkFrom(heap: map<nat, Node>, live: set<nat>, succ: map<nat, nat>, a: nat, rest: set<nat>)
    returns (walk: seq<nat>)
    requires ListOk(heap, live, succ) && Linked(heap, live, succ) && IsRest(heap, live, a, rest)
    ensures IsWalk(heap, walk, a)
    ensures forall b :: b in rest <==> b in walk
    decreases |rest|
  {
    hide ListOk, Linked, IsRest, IsWalk;
    if a == TAIL {
      walk := [TAIL];
      LastRest(heap, live, succ, rest);
    } else {
      NextRest(heap, live, succ, a, rest);
      var tail := WalkFrom(heap, live, succ, succ[a], rest - {a});
      walk := [a] + tail;
      WalkStep(heap, tail, a, succ[a]);
    }
  }

  lemma LastRest(heap: map<nat, Node>, live: set<nat>, succ: map<nat, nat>, rest: set<nat>)
    requires ListOk(heap, live, succ) && IsRest(heap, live, TAIL, rest)
    ensures rest == {TAIL} && IsWalk(heap, [TAIL], TAIL)
  {
    forall b | b in rest ensures b == TAIL { TailIsGreatest(heap, live, b); }
  }

  lemma NextRest(heap: map<nat, Node>, live: set<nat>, succ: map<nat, nat>, a: nat, rest: set<nat>)
    requires ListOk(heap, live, succ) && Linked(heap, live, succ) && IsRest(heap, live, a, rest) && a != TAIL
    ensures a in heap && a in rest && a in succ && IsRest(heap, live, succ[a], rest - {a})
    ensures heap[a].next == Some(succ[a]) && succ[a] in heap && Rank(heap, a) < Rank(heap, succ[a])
  {
    assert a in succ && heap[a].next == Some(succ[a]);
    hide Linked;
    assert IsSucc(heap, live, a, succ[a]);
    forall b | b in live ensures Rank(heap, succ[a]) <= Rank(heap, b) <==> b in rest - {a} {
      NoKeyBetween(heap, live, succ, a, b);
    }
  }

  lemma WalkStep(heap: map<nat, Node>, tail: seq<nat>, a: nat, b: nat)
    requires IsWalk(heap, tail, b) && a in heap && heap[a].next == Some(b) && Rank(heap, a) < Rank(heap, b)
    ensures IsWalk(heap, [a] + tail, a)
  {
    var walk := [a] + tail;
    forall m | 0 <= m < |walk| - 1
      ensures heap[walk[m]].next == Some(walk[m + 1]) && Rank(heap, walk[m]) < Rank(heap, walk[m + 1])
    {
      if m > 0 { assert walk[m] == tail[m - 1] && walk[m + 1] == tail[(m - 1) + 1]; }
    }
  }

  lemma TailIsGreatest(heap: map<nat, Node>, live: set<nat>, b: nat)
    requires NodesOk(heap, live) && b in live && Rank(heap, TAIL) <= Rank(heap, b)
    ensures b == TAIL
  { }

  // ----- the key of the tail -----

  ghost predicate UsesOnly(run: seq<State>, keys: iset<int>) {
    forall n, t :: 0 <= n < |run| && 0 <= t < |run[n].threads| && run[n].threads[t].pc != Idle ==>
      run[n].threads[t].key in keys
  }

  ghost predicate AlwaysLegal(keys: iset<int>) {
    forall run: seq<State>, n: nat :: AnyRun(run) && UsesOnly(run, keys) && n < |run| ==> Legal(run[n].lin)
  }

  /** A run of one thread whose calls are all about the largest integer. */
  ghost predicate TailRun(run: seq<State>) {
    AnyRun(run) && UsesOnly(run, iset{MAX_KEY}) && |run[|run| - 1].threads| == 1
  }

  lemma Extend(run: seq<State>, s': State)
    requires TailRun(run) && Moves(run[|run| - 1], 0, s') && |s'.threads| == 1 && s'.threads[0].key == MAX_KEY
    ensures TailRun(run + [s'])
  {
    hide Moves, Init;
    var run' := run + [s'];
    forall n | 0 <= n < |run'| - 1 ensures Next(run'[n], run'[n + 1]) {
      if n < |run| - 1 { assert Next(run[n], run[n + 1]); }
    }
  }

  lemma ExtendStep(run: seq<State>, s': State) returns (run': seq<State>)
    requires TailRun(run) && Step(run[|run| - 1], 0, s') && |s'.threads| == 1 && s'.threads[0].key == MAX_KEY
    ensures TailRun(run') && run' == run + [s']
  {
    hide Step, TailRun;
    assert |run| > 0 && |run[|run| - 1].threads| == 1 by { OneThread(run); }
    run' := run + [s'];
    assert Moves(run[|run| - 1], 0, s');
    Extend(run, s');
  }

  lemma OneThread(run: seq<State>)
    requires TailRun(run)
    ensures |run| > 0 && |run[|run| - 1].threads| == 1
  { }

  /** The empty list with both sentinels locked by thread 0, about to compare with the tail. */
  function AtTail(op: Op): State {
    State(map[HEAD := Node(MIN_KEY, Some(TAIL), Some(0)), TAIL := Node(MAX_KEY, None, Some(0))],
          [Thread(TestKey, op, MAX_KEY, HEAD, TAIL, 0, None, false, 0, None)], {HEAD, TAIL}, map[HEAD := TAIL], [])
  }

  /** A lookup or removal of the largest integer arrives at the tail. */
  lemma ArriveAtTail(op: Op) returns (run: seq<State>)
    requires op != Add
    ensures TailRun(run) && run[|run| - 1] == AtTail(op)
  {
    var heap := map[HEAD := Node(MIN_KEY, Some(TAIL), None), TAIL := Node(MAX_KEY, None, None)];
    var idle := Thread(Idle, op, MAX_KEY, 0, 0, 0, None, false, 0, None);
    var s0 := State(heap, [idle], {HEAD, TAIL}, map[HEAD := TAIL], []);
    var s1 := Move(s0, 0, idle.(pc := LockHead));
    assert Begin(s0, 0, op, MAX_KEY, 0, None, s1);
    run := [s0];
    Extend(run, s1);
    var s2 := Move(s1, 0, s1.threads[0].(pc := ReadFirst, prev := HEAD)).(heap := SetOwner(heap, HEAD, Some(0)));
    run := ExtendStep([s0, s1], s2);
    var s3 := Move(s2, 0, s2.threads[0].(pc := LockCurr, curr := TAIL));
    run := ExtendStep(run, s3);
    var s4 := Move(s3, 0, s3.threads[0].(pc := Test)).(heap := SetOwner(s3.heap, TAIL, Some(0)));
    run := ExtendStep(run, s4);
    run := ExtendStep(run, Move(s4, 0, s4.threads[0].(pc := TestKey)));
  }

  /** A lookup of the largest integer finds the tail, although nothing has been added. */
  lemma TailIsFound() returns (run: seq<State>)
    ensures TailRun(run)
    ensures run[|run| - 1].lin == [Event(0, Contains, MAX_KEY, true)] && !Legal(run[|run| - 1].lin)
  {
    run := ArriveAtTail(Contains);
    var s := TestStep(AtTail(Contains), 0);
    run := ExtendStep(run, s);
    assert s.lin[..0] == [] && !Correct(SetAfter(s.lin[..0]), s.lin[0]);
  }

  /** A thread in a call waits for a mutex or has a step. */
  ghost predicate CanGoOn(s: State, t: nat)
    requires t < |s.threads|
  {
    Blocked(s, t) || exists s' :: Step(s, t, s')
  }

  /** The removal on its way: the tail is still there. */
  function Removing(pc: Pc): State {
    AtTail(Remove).(threads := [AtTail(Remove).threads[0].(pc := pc)])
  }

  /** The tail is unlinked; the mutexes and the tail itself are given back one by one. */
  function Removed(pc: Pc, heap: map<nat, Node>): State {
    State(heap, [Thread(pc, Remove, MAX_KEY, HEAD, TAIL, 0, None, true, 0, Some(0))], {HEAD}, map[],
          [Event(0, Remove, MAX_KEY, true)])
  }

  function Sentinel(key: int, owner: Option<nat>): Node {
    Node(key, None, owner)
  }

  lemma UnlinkSteps()
    ensures Step(AtTail(Remove), 0, Removing(LoadNext)) && Step(Removing(LoadNext), 0, Removing(Unlink))
  { }

  lemma CutStep()
    ensures Step(Removing(Unlink), 0,
                 Removed(Release1, map[HEAD := Sentinel(MIN_KEY, Some(0)), TAIL := Sentinel(MAX_KEY, Some(0))]))
  {
    assert Bypass(map[HEAD := TAIL], HEAD, TAIL) == map[];
    assert {HEAD, TAIL} - {TAIL} == {HEAD};
  }

  lemma ReleaseSteps()
    ensures var h0 := map[HEAD := Sentinel(MIN_KEY, Some(0)), TAIL := Sentinel(MAX_KEY, Some(0))];
            var h1 := map[HEAD := Sentinel(MIN_KEY, None), TAIL := Sentinel(MAX_KEY, Some(0))];
            var h2 := map[HEAD := Sentinel(MIN_KEY, None), TAIL := Sentinel(MAX_KEY, None)];
            && Step(Removed(Release1, h0), 0, Removed(Release2, h1))
            && Step(Removed(Release2, h1), 0, Removed(Free, h2))
  { }

  lemma FreeStep()
    ensures Step(Removed(Free, map[HEAD := Sentinel(MIN_KEY, None), TAIL := Sentinel(MAX_KEY, None)]), 0,
                 Removed(Idle, map[HEAD := Sentinel(MIN_KEY, None)]))
  {
    assert map[HEAD := Sentinel(MIN_KEY, None), TAIL := Sentinel(MAX_KEY, None)] - {TAIL}
        == map[HEAD := Sentinel(MIN_KEY, None)];
  }

  /** A removal of the largest integer unlinks and frees the tail, and the next call follows the
      null pointer that the head is left with. */
  lemma TailIsFreed() returns (run: seq<State>)
    ensures TailRun(run)
    ensures var s := run[|run| - 1]; TAIL !in s.heap && s.threads[0].pc != Idle && !CanGoOn(s, 0)
  {
    run := RemoveTail();
    run := CallAgain(run);
  }

  lemma RemoveTail() returns (run: seq<State>)
    ensures TailRun(run) && run[|run| - 1] == Removed(Idle, map[HEAD := Sentinel(MIN_KEY, None)])
  {
    hide TailRun, Step;
    run := ArriveAtTail(Remove);
    UnlinkSteps();
    run := ExtendStep(run, Removing(LoadNext));
    run := ExtendStep(run, Removing(Unlink));
    CutStep();
    var locked := map[HEAD := Sentinel(MIN_KEY, Some(0)), TAIL := Sentinel(MAX_KEY, Some(0))];
    run := ExtendStep(run, Removed(Release1, locked));
    ReleaseSteps();
    run := ExtendStep(run, Removed(Release2, map[HEAD := Sentinel(MIN_KEY, None), TAIL := Sentinel(MAX_KEY, Some(0))]));
    run := ExtendStep(run, Removed(Free, map[HEAD := Sentinel(MIN_KEY, None), TAIL := Sentinel(MAX_KEY, None)]));
    FreeStep();
    run := ExtendStep(run, Removed(Idle, map[HEAD := Sentinel(MIN_KEY, None)]));
  }

  lemma CallAgain(run: seq<State>) returns (run': seq<State>)
    requires TailRun(run) && run[|run| - 1] == Removed(Idle, map[HEAD := Sentinel(MIN_KEY, None)])
    ensures TailRun(run')
    ensures var s := run'[|run'| - 1]; TAIL !in s.heap && s.threads[0].pc != Idle && !CanGoOn(s, 0)
  {
    hide TailRun;
    var s := Removed(Idle, map[HEAD := Sentinel(MIN_KEY, None)]);
    var th := Thread(LockHead, Contains, MAX_KEY, 0, 0, 0, None, false, 1, None);
    var s1 := Move(s, 0, th);
    assert Begin(s, 0, Contains, MAX_KEY, 0, None, s1);
    Extend(run, s1);
    var s2 := Move(s1, 0, th.(pc := ReadFirst, prev := HEAD)).(heap := map[HEAD := Sentinel(MIN_KEY, Some(0))]);
    run' := ExtendStep(run + [s1], s2);
  }

  /** The list is a correct set for a range of keys exactly when the largest integer, which is
      the key of the tail, is not among them. */
  lemma LegalIffTailSpared(keys: iset<int>)
    ensures AlwaysLegal(keys) <==> MAX_KEY !in keys
  {
    if MAX_KEY in keys {
      var run := TailIsFound();
      assert UsesOnly(run, keys);
      assert !Legal(run[|run| - 1].lin);
    } else {
      forall run: seq<State>, n: nat | AnyRun(run) && UsesOnly(run, keys) && n < |run| ensures Legal(run[n].lin) {
        assert IsRun(run);
        Linearizable(run, n);
      }
    }
  }

  ghost predicate AlwaysSafe(keys: iset<int>) {
    forall run: seq<State>, n: nat, t: nat ::
      AnyRun(run) && UsesOnly(run, keys) && n < |run| && t < |run[n].threads| && run[n].threads[t].pc != Idle ==>
        CanGoOn(run[n], t)
  }

  /** Likewise no call ever follows a pointer that leads nowhere exactly when the largest integer
      is not among the keys. */
  lemma SafeIffTailSpared(keys: iset<int>)
    ensures AlwaysSafe(keys) <==> MAX_KEY !in keys
  {
    hide Step;
    if MAX_KEY in keys {
      var run := TailIsFreed();
      assert UsesOnly(run, keys);
      assert !CanGoOn(run[|run| - 1], 0);
    } else {
      forall run: seq<State>, n: nat, t: nat
        | AnyRun(run) && UsesOnly(run, keys) && n < |run| && t < |run[n].threads| && run[n].threads[t].pc != Idle
        ensures CanGoOn(run[n], t)
      {
        assert IsRun(run);
        NoUseAfterFree(run, n, t);
      }
    }
  }
}
