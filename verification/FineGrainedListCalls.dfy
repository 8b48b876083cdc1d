/** The calls on the hand-over-hand list from their arguments to their results, and what the results
    mean without reference to a set: by the successful calls about the same key before. */
module FineGrainedListCalls {
  import opened FineGrainedList
  import opened FineGrainedListProofs
  import opened FineGrainedListTheorems
  import opened Options

  // ----- what a result means -----

  /** The last successful addition or removal of the key among the first `n` operations is an addition. */
  ghost predicate Present(lin: seq<Event>, n: nat, key: int)
    requires n <= |lin|
  {
    exists j :: 0 <= j < n && Adds(lin[j], key) && forall k :: j < k < n ==> !Removes(lin[k], key)
  }

  predicate Adds(e: Event, key: int) { e.op == Add && e.key == key && e.res }

  predicate Removes(e: Event, key: int) { e.op == Remove && e.key == key && e.res }

  lemma PresentNext(lin: seq<Event>, n: nat, key: int)
    requires n < |lin|
    ensures Present(lin, n + 1, key) <==> Adds(lin[n], key) || (!Removes(lin[n], key) && Present(lin, n, key))
  {
    if Present(lin, n + 1, key) && !Adds(lin[n], key) {
      var j :| 0 <= j < n + 1 && Adds(lin[j], key) && forall k :: j < k < n + 1 ==> !Removes(lin[k], key);
      assert j < n;
    }
    if !Removes(lin[n], key) && Present(lin, n, key) {
      var j :| 0 <= j < n && Adds(lin[j], key) && forall k :: j < k < n ==> !Removes(lin[k], key);
      assert forall k :: j < k < n + 1 ==> !Removes(lin[k], key);
    }
  }

  lemma SetSnoc(lin: seq<Event>, key: int)
    requires lin != [] && Correct(SetAfter(lin[..|lin| - 1]), lin[|lin| - 1])
    ensures var e := lin[|lin| - 1];
            key in SetAfter(lin) <==> Adds(e, key) || (!Removes(e, key) && key in SetAfter(lin[..|lin| - 1]))
  { }

  lemma {:induction false} PresentIff(lin: seq<Event>, n: nat, key: int)
    requires Legal(lin) && n <= |lin|
    ensures key in SetAfter(lin[..n]) <==> Present(lin, n, key)
  {
    if n > 0 {
      PresentIff(lin, n - 1, key);
      PresentNext(lin, n - 1, key);
      hide Present;
      assert Correct(SetAfter(lin[..n - 1]), lin[n - 1]);
      hide Legal;
      assert lin[..n][..n - 1] == lin[..n - 1] && lin[..n][n - 1] == lin[n - 1];
      SetSnoc(lin[..n], key);
    }
  }

  /** In every run, an addition succeeds exactly if the last successful addition or removal of its key
      before was not an addition; a removal and a lookup succeed exactly if it was. */
  lemma ResultsMean(run: seq<State>, n: nat, i: nat)
    requires IsRun(run) && n < |run| && i < |run[n].lin|
    ensures var lin := run[n].lin; var e := lin[i];
            (if e.op == Add then !e.res else e.res) <==>
            exists j :: 0 <= j < i && lin[j].op == Add && lin[j].key == e.key && lin[j].res
                        && forall k :: j < k < i ==> !(lin[k].op == Remove && lin[k].key == e.key && lin[k].res)
  {
    hide IsRun;
    Linearizable(run, n);
    var lin := run[n].lin;
    var e := lin[i];
    PresentIff(lin, i, e.key);
    assert Correct(SetAfter(lin[..i]), e);
    hide Legal, SetAfter;
    if j :| 0 <= j < i && lin[j].op == Add && lin[j].key == e.key && lin[j].res
            && forall k :: j < k < i ==> !(lin[k].op == Remove && lin[k].key == e.key && lin[k].res)
    {
      assert Adds(lin[j], e.key);
    }
    if Present(lin, i, e.key) {
      var j :| 0 <= j < i && Adds(lin[j], e.key) && forall k :: j < k < i ==> !Removes(lin[k], e.key);
      forall k | j < k < i ensures !(lin[k].op == Remove && lin[k].key == e.key && lin[k].res) {
        assert !Removes(lin[k], e.key);
      }
    }
  }

  /** With no call in progress the nodes between the sentinels hold exactly the keys whose last
      successful addition or removal was an addition. */
  lemma RestingKeys(run: seq<State>, n: nat, key: int) returns (walk: seq<nat>)
    requires IsRun(run) && n < |run| && forall t :: 0 <= t < |run[n].threads| ==> run[n].threads[t].pc == Idle
    ensures IsWalk(run[n].heap, walk, HEAD)
    ensures Present(run[n].lin, |run[n].lin|, key) <==>
            exists m :: 0 < m < |walk| - 1 && run[n].heap[walk[m]].key == key
  {
    walk := RestingList(run, n);
    hide IsRun;
    Linearizable(run, n);
    var s := run[n];
    PresentIff(s.lin, |s.lin|, key);
    assert s.lin[..|s.lin|] == s.lin;
    InnerNodes(s.heap, walk);
    hide Legal, SetAfter, Present, IsWalk;
    assert Present(s.lin, |s.lin|, key) <==> key in Keys(s.heap, s.live);
    if key in Keys(s.heap, s.live) {
      var a :| a in s.live && a in s.heap && a != HEAD && a != TAIL && s.heap[a].key == key;
      var m :| 0 <= m < |walk| && walk[m] == a;
    }
    if m :| 0 < m < |walk| - 1 && s.heap[walk[m]].key == key {
      assert walk[m] in walk;
      assert s.heap[walk[m]].key in Keys(s.heap, s.live);
    }
  }

  /** The sentinels are the ends of the walk and nothing between them. */
  lemma InnerNodes(heap: map<nat, Node>, walk: seq<nat>)
    requires IsWalk(heap, walk, HEAD)
    ensures |walk| > 1 && walk[0] == HEAD && walk[|walk| - 1] == TAIL
    ensures forall m :: 0 <= m < |walk| ==> walk[m] in heap
    ensures forall m :: 0 < m < |walk| - 1 ==> walk[m] != HEAD && walk[m] != TAIL
  {
    forall m | 0 < m < |walk| - 1 ensures walk[m] != HEAD && walk[m] != TAIL {
      Rising(heap, walk, 0, m);
      Rising(heap, walk, m, |walk| - 1);
    }
  }

  lemma {:induction false} Rising(heap: map<nat, Node>, walk: seq<nat>, i: nat, j: nat)
    requires IsWalk(heap, walk, HEAD) && i < j < |walk|
    ensures Rank(heap, walk[i]) < Rank(heap, walk[j])
    decreases j
  {
    assert Rank(heap, walk[j - 1]) < Rank(heap, walk[(j - 1) + 1]);
    if i < j - 1 { Rising(heap, walk, i, j - 1); }
  }

  // ----- from arguments to results -----

  /** The thread is in the same call from state `n + 1` to state `m`. */
  ghost predicate InCall(run: seq<State>, n: nat, m: nat, t: nat) {
    n < m < |run| && forall k :: n < k <= m ==> t < |run[k].threads| && run[k].threads[t].pc != Idle
  }

  /** No step changes the arguments of a call in progress. */
  lemma ArgumentsStay(s: State, s': State, t: nat)
    requires Next(s, s') && t < |s.threads| && s.threads[t].pc != Idle
    ensures |s'.threads| == |s.threads|
    ensures s'.threads[t].op == s.threads[t].op && s'.threads[t].key == s.threads[t].key
    ensures s'.threads[t].started == s.threads[t].started
  {
    var u :| Moves(s, u, s') by { NextHasMover(s, s'); }
    if Step(s, u, s') {
      StepArguments(s, u, s');
    } else {
      var op, key, a, junk :| Begin(s, u, op, key, a, junk, s');
    }
  }

  lemma StepArguments(s: State, u: nat, s': State)
    requires u < |s.threads| && Step(s, u, s')
    ensures |s'.threads| == |s.threads|
    ensures forall t :: 0 <= t < |s.threads| && t != u ==> s'.threads[t] == s.threads[t]
    ensures var th, th' := s.threads[u], s'.threads[u];
            && th'.op == th.op && th'.key == th.key && th'.started == th.started
            && (th'.pc == Idle ==> Finishing(th.pc)) && (s'.lin == s.lin ==> th'.at == th.at)
  {
    hide Step;
    StepOthers(s, u, s');
    StepOwn(s, u, s');
  }

  lemma StepOthers(s: State, u: nat, s': State)
    requires u < |s.threads| && Step(s, u, s')
    ensures |s'.threads| == |s.threads|
    ensures forall t :: 0 <= t < |s.threads| && t != u ==> s'.threads[t] == s.threads[t]
  { }

  lemma StepOwn(s: State, u: nat, s': State)
    requires u < |s.threads| && Step(s, u, s')
    ensures |s'.threads| == |s.threads|
    ensures var th, th' := s.threads[u], s'.threads[u];
            && th'.op == th.op && th'.key == th.key && th'.started == th.started
            && (th'.pc == Idle ==> Finishing(th.pc)) && (s'.lin == s.lin ==> th'.at == th.at)
  {
    hide Step;
    if s.threads[u].pc in {TestKey, Publish, Unlink} { EffectOwn(s, u, s'); } else { QuietOwn(s, u, s'); }
  }

  lemma EffectOwn(s: State, u: nat, s': State)
    requires u < |s.threads| && Step(s, u, s') && s.threads[u].pc in {TestKey, Publish, Unlink}
    ensures |s'.threads| == |s.threads|
    ensures var th, th' := s.threads[u], s'.threads[u];
            && th'.op == th.op && th'.key == th.key && th'.started == th.started
            && th'.pc != Idle && (s'.lin == s.lin ==> th'.at == th.at)
  {
    hide SetOwner, Bypass;
  }

  lemma QuietOwn(s: State, u: nat, s': State)
    requires u < |s.threads| && Step(s, u, s') && s.threads[u].pc !in {TestKey, Publish, Unlink}
    ensures |s'.threads| == |s.threads|
    ensures var th, th' := s.threads[u], s'.threads[u];
            && th'.op == th.op && th'.key == th.key && th'.started == th.started
            && th'.at == th.at && (th'.pc == Idle ==> Finishing(th.pc))
  {
    hide SetOwner, Bypass, TestStep;
    if s.threads[u].pc in {LockHead, ReadFirst, LockCurr, Test, UnlockPrev, Advance} {
      WalkOwn(s, u, s');
      hide Step;
    }
  }

  lemma WalkOwn(s: State, u: nat, s': State)
    requires u < |s.threads| && Step(s, u, s')
    requires s.threads[u].pc in {LockHead, ReadFirst, LockCurr, Test, UnlockPrev, Advance}
    ensures |s'.threads| == |s.threads|
    ensures var th, th' := s.threads[u], s'.threads[u];
            th'.op == th.op && th'.key == th.key && th'.started == th.started && th'.at == th.at && th'.pc != Idle
  {
    hide SetOwner, Bypass, TestStep;
  }

  lemma {:induction false} CallKeepsArguments(run: seq<State>, n: nat, m: nat, t: nat,
        op: Op, key: int, a: nat, junk: Option<nat>)
    requires AnyRun(run) && InCall(run, n, m, t) && t < |run[n].threads|
    requires Begin(run[n], t, op, key, a, junk, run[n + 1])
    ensures run[m].threads[t].op == op && run[m].threads[t].key == key && run[m].threads[t].started == |run[n].lin|
    decreases m
  {
    hide Begin, Next, Init;
    BeginArguments(run[n], t, op, key, a, junk, run[n + 1]);
    if m > n + 1 {
      CallKeepsArguments(run, n, m - 1, t, op, key, a, junk);
      assert Next(run[m - 1], run[(m - 1) + 1]);
      ArgumentsStay(run[m - 1], run[m], t);
    }
  }

  lemma BeginArguments(s: State, t: nat, op: Op, key: int, a: nat, junk: Option<nat>, s': State)
    requires t < |s.threads| && Begin(s, t, op, key, a, junk, s')
    ensures |s'.threads| == |s.threads|
    ensures s'.threads[t].op == op && s'.threads[t].key == key && s'.threads[t].started == |s.lin|
    ensures s'.threads[t].at == None && s'.lin == s.lin
  { }

  /** A call has at most one entry in the linearization. */
  lemma {:induction false} OneEntry(run: seq<State>, n: nat, m: nat, t: nat,
        op: Op, key: int, a: nat, junk: Option<nat>)
    requires IsRun(run) && InCall(run, n, m, t) && t < |run[n].threads|
    requires Begin(run[n], t, op, key, a, junk, run[n + 1])
    ensures forall x :: |run[n].lin| <= x < |run[m].lin| && run[m].lin[x].tid == t ==> run[m].threads[t].at == Some(x)
    decreases m
  {
    hide Begin, Next, Init;
    BeginArguments(run[n], t, op, key, a, junk, run[n + 1]);
    if m > n + 1 {
      OneEntry(run, n, m - 1, t, op, key, a, junk);
      assert Next(run[m - 1], run[(m - 1) + 1]);
      EntryStays(run, n, m - 1, t);
    }
  }

  lemma EntryStays(run: seq<State>, n: nat, m: nat, t: nat)
    requires IsRun(run) && n <= m && m + 1 < |run| && t < |run[m].threads| && run[m].threads[t].pc != Idle
    requires forall x :: |run[n].lin| <= x < |run[m].lin| && run[m].lin[x].tid == t ==> run[m].threads[t].at == Some(x)
    ensures |run[m + 1].threads| == |run[m].threads|
    ensures forall x :: |run[n].lin| <= x < |run[m + 1].lin| && run[m + 1].lin[x].tid == t ==>
              run[m + 1].threads[t].at == Some(x)
  {
    assert Next(run[m], run[m + 1]);
    var s, s' := run[m], run[m + 1];
    var u :| Moves(s, u, s') by { NextHasMover(s, s'); }
    StepEffect(run, m, u);
    hide IsRun;
    if u == t {
      if Step(s, u, s') {
        StepArguments(s, u, s');
      } else {
        NotIdle(s, u, s');
      }
    }
  }

  lemma NotIdle(s: State, u: nat, s': State)
    requires u < |s.threads| && Begins(s, u, s')
    ensures s.threads[u].pc == Idle
  { }

  /** End to end: a call that begins in step `n` with its arguments and returns in step `m` has taken
      effect once in between, as that operation on that key and with the result it returns. */
  lemma CallTakesEffect(run: seq<State>, n: nat, m: nat, t: nat,
        op: Op, key: int, a: nat, junk: Option<nat>)
    returns (i: nat)
    requires IsRun(run) && InCall(run, n, m, t) && m + 1 < |run| && t < |run[n].threads|
    requires Begin(run[n], t, op, key, a, junk, run[n + 1])
    requires t < |run[m + 1].threads| && run[m + 1].threads[t].pc == Idle
    ensures |run[n].lin| <= i < |run[m].lin| && run[m].lin[i] == Event(t, op, key, run[m].threads[t].res)
    ensures forall x :: |run[n].lin| <= x < |run[m].lin| && run[m].lin[x].tid == t ==> x == i
  {
    CallKeepsArguments(run, n, m, t, op, key, a, junk);
    OneEntry(run, n, m, t, op, key, a, junk);
    Returning(run, m, t);
    hide IsRun, Begin, InCall;
    Linearizable(run, m);
    i := run[m].threads[t].at.value;
  }

  /** Only a call past its effect returns. */
  lemma Returning(run: seq<State>, m: nat, t: nat)
    requires IsRun(run) && m + 1 < |run| && t < |run[m].threads| && run[m].threads[t].pc != Idle
    requires t < |run[m + 1].threads| && run[m + 1].threads[t].pc == Idle
    ensures Finishing(run[m].threads[t].pc)
  {
    assert Next(run[m], run[m + 1]);
    ReturningStep(run[m], run[m + 1], t);
  }

  lemma ReturningStep(s: State, s': State, t: nat)
    requires Next(s, s') && t < |s.threads| && s.threads[t].pc != Idle && t < |s'.threads| && s'.threads[t].pc == Idle
    ensures Finishing(s.threads[t].pc)
  {
    hide Step;
    var u :| Moves(s, u, s') by { NextHasMover(s, s'); }
    if Step(s, u, s') { StepArguments(s, u, s'); }
  }
}
