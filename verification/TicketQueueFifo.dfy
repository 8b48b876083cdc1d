/** The calls of the ticket queue take effect as the operations of a first-in first-out queue
    that holds at most as many keys as there are slots: an enqueue takes effect when its ticket is
    drawn and there is room for it, a dequeue when its ticket is drawn and there is a key for it. */
module TicketQueueFifo {
  import opened TicketQueue

  // ----- the abstract queue -----

  /** The contents after a sequence of operations. */
  function Contents(lin: seq<Event>): seq<int> {
    if lin == [] then [] else Apply(Contents(lin[..|lin| - 1]), lin[|lin| - 1])
  }

  function Apply(q: seq<int>, e: Event): seq<int> {
    match e
    case Put(_, key) => q + [key]
    case Got(_, _) => if q == [] then [] else q[1..]
  }

  /** A key is put only when there is room, and only the oldest key is got. */
  predicate Allowed(q: seq<int>, e: Event, size: nat) {
    match e
    case Put(_, _) => |q| < size
    case Got(_, key) => q != [] && q[0] == key
  }

  ghost predicate Fifo(lin: seq<Event>, size: nat) {
    forall n :: 0 <= n < |lin| ==> Allowed(Contents(lin[..n]), lin[n], size)
  }

  /** How many enqueues and how many dequeues have taken effect. */
  function Entered(s: State): nat {
    if s.rear < s.front + |s.slots| then s.rear else s.front + |s.slots|
  }

  function Left(s: State): nat {
    if s.front < s.rear then s.front else s.rear
  }

  // ----- the linearization -----

  /** The first `e` keys have been put and the first `l` got, each once, in a legal order. */
  ghost predicate LinOk(lin: seq<Event>, given: seq<int>, l: nat, e: nat, size: nat) {
    && l <= e <= |given| && Fifo(lin, size) && Contents(lin) == given[l..e]
    && Listed(lin, given, l, e) && EventsOk(lin, given, l, e) && Once(lin)
  }

  ghost predicate Listed(lin: seq<Event>, given: seq<int>, l: nat, e: nat)
    requires l <= e <= |given|
  {
    && (forall k: nat :: k < e ==> Put(k, given[k]) in lin)
    && (forall k: nat :: k < l ==> Got(k, given[k]) in lin)
  }

  ghost predicate EventsOk(lin: seq<Event>, given: seq<int>, l: nat, e: nat)
    requires l <= e <= |given|
  {
    forall i :: 0 <= i < |lin| ==> EventOk(lin[i], given, l, e)
  }

  ghost predicate Once(lin: seq<Event>) {
    forall i, j :: 0 <= i < j < |lin| ==> lin[i] != lin[j]
  }

  ghost predicate EventOk(event: Event, given: seq<int>, l: nat, e: nat)
    requires l <= e <= |given|
  {
    event.ticket < (if event.Put? then e else l) && event.key == given[event.ticket]
  }

  lemma Snoc(lin: seq<Event>, event: Event, size: nat)
    requires Fifo(lin, size) && Allowed(Contents(lin), event, size)
    ensures Fifo(lin + [event], size) && Contents(lin + [event]) == Apply(Contents(lin), event)
  {
    var all := lin + [event];
    assert all[..|lin|] == lin;
    forall n | 0 <= n < |all| ensures Allowed(Contents(all[..n]), all[n], size) {
      if n < |lin| { assert all[..n] == lin[..n] && all[n] == lin[n]; }
    }
  }

  lemma ListedSnoc(lin: seq<Event>, event: Event, given: seq<int>, l: nat, e: nat, l': nat, e': nat)
    requires l <= e <= |given| && Listed(lin, given, l, e) && l' <= e' <= |given|
    requires if event.Put? then event.ticket == e && e' == e + 1 && l' == l
             else event.ticket == l && l' == l + 1 && e' == e
    requires event.key == given[event.ticket]
    ensures Listed(lin + [event], given, l', e')
  {
    assert event in lin + [event];
    forall k: nat | k < e' ensures Put(k, given[k]) in lin + [event] {
      if k < e { assert Put(k, given[k]) in lin; }
    }
    forall k: nat | k < l' ensures Got(k, given[k]) in lin + [event] {
      if k < l { assert Got(k, given[k]) in lin; }
    }
  }

  lemma EventsSnoc(lin: seq<Event>, event: Event, given: seq<int>, l: nat, e: nat, l': nat, e': nat)
    requires l <= e <= |given| && EventsOk(lin, given, l, e) && l <= l' && e <= e' && l' <= e' <= |given|
    requires EventOk(event, given, l', e') && !EventOk(event, given, l, e) && Once(lin)
    ensures EventsOk(lin + [event], given, l', e') && Once(lin + [event])
  { }

  lemma AddPut(lin: seq<Event>, given: seq<int>, l: nat, e: nat, size: nat)
    requires LinOk(lin, given, l, e, size) && e < |given| && e - l < size
    ensures LinOk(lin + [Put(e, given[e])], given, l, e + 1, size)
  {
    hide Fifo, Contents, Listed, EventsOk, Once;
    Snoc(lin, Put(e, given[e]), size);
    assert given[l..e] + [given[e]] == given[l..e + 1];
    ListedSnoc(lin, Put(e, given[e]), given, l, e, l, e + 1);
    EventsSnoc(lin, Put(e, given[e]), given, l, e, l, e + 1);
  }

  lemma AddGot(lin: seq<Event>, given: seq<int>, l: nat, e: nat, size: nat)
    requires LinOk(lin, given, l, e, size) && l < e
    ensures LinOk(lin + [Got(l, given[l])], given, l + 1, e, size)
  {
    hide Fifo, Contents, Listed, EventsOk, Once;
    Snoc(lin, Got(l, given[l]), size);
    assert given[l..e][1..] == given[l + 1..e];
    ListedSnoc(lin, Got(l, given[l]), given, l, e, l + 1, e);
    EventsSnoc(lin, Got(l, given[l]), given, l, e, l + 1, e);
  }

  lemma MoreGiven(lin: seq<Event>, given: seq<int>, key: int, l: nat, e: nat, size: nat)
    requires LinOk(lin, given, l, e, size)
    ensures LinOk(lin, given + [key], l, e, size)
  {
    hide Fifo, Contents;
    assert (given + [key])[l..e] == given[l..e];
  }

  /** The operation of a call. */
  predicate IsEventOf(event: Event, c: Call) {
    c.Busy? && event.ticket == c.ticket && (event.Put? <==> c.op == Enqueue)
  }

  /** Whatever of a call in progress has taken effect did so after the call began. */
  ghost predicate AfterStart(s: State, c: Call) {
    c.Busy? ==> c.started <= |s.lin| && forall i :: 0 <= i < |s.lin| && IsEventOf(s.lin[i], c) ==> c.started <= i
  }

  ghost predicate LinInv(s: State) {
    && LinOk(s.lin, s.given, Left(s), Entered(s), |s.slots|)
    && forall t :: 0 <= t < |s.calls| ==> AfterStart(s, s.calls[t])
  }

  lemma StartEnqLin(s: State, t: nat, key: int, s': State)
    requires Inv(s) && LinInv(s) && t < |s.calls| && StartEnq(s, t, key, s')
    ensures LinOk(s'.lin, s'.given, Left(s'), Entered(s'), |s'.slots|)
  {
    hide LinOk;
    var size, l, e := |s.slots|, Left(s), Entered(s);
    MoreGiven(s.lin, s.given, key, l, e, size);
    if s.rear < s.front + size {
      AddPut(s.lin, s'.given, l, e, size);
      if s.rear < s.front {
        AddGot(s.lin + [Put(e, key)], s'.given, l, e + 1, size);
        assert s'.lin == s.lin + [Put(e, key)] + [Got(l, key)];
      } else {
        assert s'.lin == s.lin + [Put(e, key)];
      }
    } else {
      assert s'.lin == s.lin;
    }
  }

  lemma StartDeqLin(s: State, t: nat, s': State)
    requires Inv(s) && LinInv(s) && t < |s.calls| && StartDeq(s, t, s')
    ensures LinOk(s'.lin, s'.given, Left(s'), Entered(s'), |s'.slots|)
  {
    hide LinOk;
    var size, l, e := |s.slots|, Left(s), Entered(s);
    if s.front < s.rear {
      AddGot(s.lin, s.given, l, e, size);
      var got := Got(l, s.given[l]);
      if s.front + size < s.rear {
        AddPut(s.lin + [got], s.given, l + 1, e, size);
        assert s'.lin == s.lin + [got] + [Put(e, s.given[e])];
      } else {
        assert s'.lin == s.lin + [got];
      }
    } else {
      assert s'.lin == s.lin;
    }
  }

  lemma OthersAfterStart(s: State, s': State, c: Call)
    requires s.lin <= s'.lin && AfterStart(s, c)
    ensures AfterStart(s', c)
  {
    assert forall i :: 0 <= i < |s.lin| ==> s'.lin[i] == s.lin[i];
  }

  lemma LinShape(s: State, t: nat, s': State)
    requires Moves(s, t, s')
    ensures |s'.calls| == |s.calls| && s.lin <= s'.lin && t < |s.calls|
    ensures s.calls[t] == Idle ==> s'.calls[t].Busy? && s'.calls[t].started == |s.lin|
                                   && s'.calls[t].ticket == (if s'.calls[t].op == Enqueue then s.rear else s.front)
    ensures s.calls[t] != Idle ==>
              && s'.lin == s.lin && s'.given == s.given && s'.front == s.front && s'.rear == s.rear
              && |s'.slots| == |s.slots|
              && (s'.calls[t] != Idle ==> SameKind(s.calls[t], s'.calls[t]) && s'.calls[t].ticket == s.calls[t].ticket
                                          && s'.calls[t].started == s.calls[t].started)
  {
    hide Index, Round, EnqEffects, DeqEffects;
  }

  /** A new call finds nothing of its own in the linearization. */
  lemma NewAfterStart(s: State, s': State, c: Call)
    requires LinInv(s) && s.lin <= s'.lin && c.Busy? && c.started == |s.lin|
    requires c.ticket == (if c.op == Enqueue then s.rear else s.front)
    ensures AfterStart(s', c)
  {
    hide Fifo, Contents, Listed, Once;
    forall i | 0 <= i < |s.lin| ensures s'.lin[i] == s.lin[i] && !IsEventOf(s.lin[i], c) { }
  }

  lemma OwnAfterStart(s: State, t: nat, s': State)
    requires Inv(s) && LinInv(s) && Moves(s, t, s')
    ensures |s'.calls| == |s.calls| && AfterStart(s', s'.calls[t])
  {
    hide Inv, Moves, LinOk;
    LinShape(s, t, s');
    if s.calls[t] == Idle {
      NewAfterStart(s, s', s'.calls[t]);
    } else {
      assert AfterStart(s, s.calls[t]);
    }
  }

  lemma LinKeeps(s: State, s': State)
    requires Inv(s) && LinInv(s) && Next(s, s')
    ensures LinInv(s')
  {
    hide LinOk, EnqStep, DeqStep, StartEnq, StartDeq, AfterStart;
    var t: nat :| Moves(s, t, s');
    LinShape(s, t, s');
    StepShape(s, t, s');
    OwnAfterStart(s, t, s');
    forall u | 0 <= u < |s.calls| && u != t ensures AfterStart(s', s'.calls[u]) {
      OthersAfterStart(s, s', s.calls[u]);
    }
    if s.calls[t] == Idle {
      if StartDeq(s, t, s') {
        StartDeqLin(s, t, s');
      } else {
        var key :| StartEnq(s, t, key, s');
        StartEnqLin(s, t, key, s');
      }
    }
  }

  lemma {:induction false} LinRun(run: seq<State>, n: nat)
    requires IsRun(run) && n < |run|
    ensures LinInv(run[n])
  {
    hide Inv, Next, LinInv;
    if n == 0 {
      LinInit(run[0]);
    } else {
      LinRun(run, n - 1);
      RunInv(run, n - 1);
      assert Next(run[n - 1], run[n - 1 + 1]);
      LinKeeps(run[n - 1], run[n]);
    }
  }

  lemma LinInit(s: State)
    requires Init(s)
    ensures LinInv(s)
  { }

  // ----- what every run satisfies -----

  /** A call past its spin loop has taken effect. */
  lemma OwnerHasEntered(s: State, t: nat)
    requires Inv(s) && t < |s.calls| && Owns(s.calls[t])
    ensures s.calls[t].ticket < (if s.calls[t].op == Enqueue then Entered(s) else Left(s)) <= |s.given|
  {
    var c := s.calls[t];
    hide Index, Round, TicketsServed, TicketsDistinct, SlotsFull, SlotsEmpty, Delivered;
    assert CallOk(s, c);
    if IsEnq(c) && c.ticket >= |s.slots| { OneRoundEarlier(|s.slots|, c.ticket); }
  }

  /** The operation of a call that is past its spin loop, with the key it brings or returns. */
  function EventOf(s: State, c: Call): Event
    requires c.Busy? && c.ticket < |s.given|
  {
    if c.op == Enqueue then Put(c.ticket, s.given[c.ticket]) else Got(c.ticket, s.given[c.ticket])
  }

  ghost predicate TookEffect(s: State, c: Call)
    requires c.Busy?
  {
    c.ticket < |s.given| && exists i :: c.started <= i < |s.lin| && s.lin[i] == EventOf(s, c)
  }

  lemma OwnerTookEffect(s: State, t: nat)
    requires Inv(s) && LinInv(s) && t < |s.calls| && Owns(s.calls[t])
    ensures TookEffect(s, s.calls[t])
  {
    hide Inv, LinOk, Entered, Left;
    OwnerHasEntered(s, t);
    EventListed(s, s.calls[t]);
    var i :| 0 <= i < |s.lin| && s.lin[i] == EventOf(s, s.calls[t]);
    assert AfterStart(s, s.calls[t]) && IsEventOf(s.lin[i], s.calls[t]);
  }

  lemma EventListed(s: State, c: Call)
    requires LinInv(s) && c.Busy? && c.ticket < (if c.op == Enqueue then Entered(s) else Left(s)) <= |s.given|
    ensures EventOf(s, c) in s.lin
  {
    hide Fifo, Contents, EventsOk, Once, AfterStart;
  }

  lemma TakenListed(s: State, k: nat)
    requires Inv(s) && LinInv(s) && k in s.taken
    ensures Got(k, s.taken[k]) in s.lin
  {
    hide Fifo, Contents, EventsOk, Once, CallOk, TicketsServed, TicketsAhead,
         TicketsDistinct, SlotsFull, SlotsEmpty, AfterStart;
  }

  lemma LinParts(s: State)
    requires LinInv(s)
    ensures Left(s) <= Entered(s) <= |s.given| && Fifo(s.lin, |s.slots|) && Once(s.lin)
    ensures Contents(s.lin) == s.given[Left(s)..Entered(s)]
  {
    hide Fifo, Contents, Listed, EventsOk, Once, AfterStart;
  }

  /** Linearizability: the operations that have taken effect are, in this order, a legal history of
      a queue of bounded size, which now holds the keys put and not yet got.  Every finished dequeue
      is among them with its result, and so is, before it returns, every call with its own key,
      once and at a point after the call began. */
  lemma Linearizable(run: seq<State>, n: nat)
    requires IsRun(run) && n < |run|
    ensures var s := run[n];
            && Left(s) <= Entered(s) <= |s.given| && Fifo(s.lin, |s.slots|) && Once(s.lin)
            && Contents(s.lin) == s.given[Left(s)..Entered(s)]
            && (forall k :: k in s.taken ==> Got(k, s.taken[k]) in s.lin)
            && (forall t :: 0 <= t < |s.calls| && Owns(s.calls[t]) ==> TookEffect(s, s.calls[t]))
  {
    hide IsRun, Fifo, Contents, Inv, LinInv, Once, TookEffect;
    RunInv(run, n);
    LinRun(run, n);
    var s := run[n];
    LinParts(s);
    forall k | k in s.taken ensures Got(k, s.taken[k]) in s.lin { TakenListed(s, k); }
    forall t | 0 <= t < |s.calls| && Owns(s.calls[t]) ensures TookEffect(s, s.calls[t]) { OwnerTookEffect(s, t); }
  }

  /** The key of an enqueue, and the result that a dequeue is about to return, are those of its
      operation. */
  lemma ResultIsEvent(run: seq<State>, n: nat, t: nat)
    requires IsRun(run) && n < |run| && t < |run[n].calls| && Owns(run[n].calls[t])
    requires run[n].calls[t].op == Dequeue ==> run[n].calls[t].pc != Work
    ensures run[n].calls[t].ticket < |run[n].given| && EventOf(run[n], run[n].calls[t]).key == run[n].calls[t].key
  {
    hide IsRun, Index, Round, TicketsServed, TicketsAhead, TicketsDistinct, SlotsFull, SlotsEmpty, Delivered;
    RunInv(run, n);
    assert CallOk(run[n], run[n].calls[t]);
  }

  /** Nothing that has taken effect is ever changed. */
  lemma {:induction false} LinOnlyGrows(run: seq<State>, n: nat, m: nat)
    requires IsRun(run) && n <= m < |run|
    ensures run[n].lin <= run[m].lin && run[n].given <= run[m].given
    decreases m - n
  {
    hide Inv, Moves;
    if n < m {
      LinOnlyGrows(run, n, m - 1);
      assert Next(run[m - 1], run[m - 1 + 1]);
      RunInv(run, m - 1);
      var t: nat :| Moves(run[m - 1], t, run[m]);
      LinShape(run[m - 1], t, run[m]);
      StepShape(run[m - 1], t, run[m]);
    }
  }

  /** Calls that do not overlap take effect in their order: `t` is past its spin loop in state
      `n`, so at the latest when it returns, and the call of `u` began no earlier. */
  lemma RealTimeOrder(run: seq<State>, n: nat, m: nat, t: nat, u: nat) returns (i: nat, j: nat)
    requires IsRun(run) && n <= m < |run| && t < |run[n].calls| && u < |run[m].calls|
    requires Owns(run[n].calls[t]) && Owns(run[m].calls[u]) && |run[n].lin| <= run[m].calls[u].started
    ensures i < j < |run[m].lin|
    ensures IsEventOf(run[m].lin[i], run[n].calls[t]) && IsEventOf(run[m].lin[j], run[m].calls[u])
  {
    hide IsRun, Fifo, Contents, Once;
    Linearizable(run, n);
    Linearizable(run, m);
    LinOnlyGrows(run, n, m);
    assert TookEffect(run[n], run[n].calls[t]) && TookEffect(run[m], run[m].calls[u]);
    i :| i < |run[n].lin| && run[n].lin[i] == EventOf(run[n], run[n].calls[t]);
    j :| run[m].calls[u].started <= j < |run[m].lin| && run[m].lin[j] == EventOf(run[m], run[m].calls[u]);
  }
}
