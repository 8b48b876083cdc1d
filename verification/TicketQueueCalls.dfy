/** The calls of the ticket queue from their arguments to their results, and what it means to be
    first in, first out without reference to a queue: by the keys put and the keys got. */
module TicketQueueCalls {
  import opened TicketQueue
  import opened TicketQueueFifo

  // ----- from arguments to results -----

  lemma {:induction false} CountersGrow(run: seq<State>, n: nat, m: nat)
    requires IsRun(run) && n <= m < |run|
    ensures run[n].rear <= run[m].rear && run[n].front <= run[m].front
    decreases m
  {
    hide Moves, Init;
    if n < m {
      CountersGrow(run, n, m - 1);
      assert Next(run[m - 1], run[m - 1 + 1]);
      CountersStep(run[m - 1], run[m]);
    }
  }

  lemma CountersStep(s: State, s': State)
    requires Next(s, s')
    ensures s.rear <= s'.rear && s.front <= s'.front
  {
    hide EnqEffects, DeqEffects, Index, Round;
  }

  /** The key that an enqueue is called with is recorded under the ticket it draws, is never changed,
      and is what the dequeue with the same ticket returns. */
  lemma KeyDelivered(run: seq<State>, n: nat, m: nat, t: nat, key: int)
    requires IsRun(run) && n < m < |run| && t < |run[n].calls| && StartEnq(run[n], t, key, run[n + 1])
    ensures var k := run[n].rear;
            && k < |run[m].given| && run[m].given[k] == key
            && (k in run[m].taken ==> run[m].taken[k] == key)
  {
    hide EnqEffects, Inv;
    RunInv(run, n);
    GivenLength(run[n]);
    LinOnlyGrows(run, n + 1, m);
    assert run[n + 1].given == run[n].given + [key];
    hide StartEnq, IsRun;
    if run[n].rear in run[m].taken { FirstInFirstOut(run, m, run[n].rear); }
  }

  /** Tickets are drawn in the order in which the calls begin, so the enqueue that begins first
      meets the dequeue that begins first. */
  lemma TicketsInOrder(run: seq<State>, n: nat, m: nat, t: nat, u: nat, key: int, key': int)
    requires IsRun(run) && n < m && m + 1 < |run| && t < |run[n].calls| && u < |run[m].calls|
    ensures StartEnq(run[n], t, key, run[n + 1]) && StartEnq(run[m], u, key', run[m + 1]) ==>
              run[n].rear < run[m].rear
    ensures StartDeq(run[n], t, run[n + 1]) && StartDeq(run[m], u, run[m + 1]) ==> run[n].front < run[m].front
  {
    CountersGrow(run, n + 1, m);
    hide EnqEffects, DeqEffects, IsRun;
  }

  /** The thread is in the same call from state `n + 1` to state `m`. */
  ghost predicate InCall(run: seq<State>, n: nat, m: nat, t: nat) {
    n < m < |run| && forall k :: n < k <= m ==> t < |run[k].calls| && run[k].calls[t].Busy?
  }

  lemma TicketStays(s: State, s': State, t: nat)
    requires Inv(s) && Next(s, s') && t < |s.calls| && s.calls[t].Busy?
    ensures |s'.calls| == |s.calls|
    ensures s'.calls[t].Busy? ==>
              && SameKind(s.calls[t], s'.calls[t]) && s'.calls[t].ticket == s.calls[t].ticket
              && s'.calls[t].started == s.calls[t].started
    ensures s'.calls[t] == Idle ==> s.calls[t].pc == StoreFlag
    ensures s'.calls[t] == Idle && IsDeq(s.calls[t]) ==> s'.taken == s.taken[s.calls[t].ticket := s.calls[t].key]
  {
    hide Inv, Moves;
    var u: nat :| Moves(s, u, s');
    StepShape(s, u, s');
    LinShape(s, u, s');
  }

  lemma {:induction false} CallKeepsTicket(run: seq<State>, d: nat, m: nat, u: nat)
    requires IsRun(run) && InCall(run, d, m, u)
    ensures SameKind(run[d + 1].calls[u], run[m].calls[u]) && run[m].calls[u].ticket == run[d + 1].calls[u].ticket
    ensures run[m].calls[u].started == run[d + 1].calls[u].started
    decreases m
  {
    hide Inv, Next, Init;
    if m > d + 1 {
      CallKeepsTicket(run, d, m - 1, u);
      assert Next(run[m - 1], run[m - 1 + 1]);
      RunInv(run, m - 1);
      TicketStays(run[m - 1], run[m], u);
    }
  }

  /** End to end: a dequeue that begins in step `d` and returns in step `m` returns the key that the
      enqueue begun in step `n` was called with, if as many enqueues began before the one as dequeues
      before the other. */
  lemma DequeueReturns(run: seq<State>, n: nat, t: nat, key: int, d: nat, m: nat, u: nat)
    requires IsRun(run) && n + 1 < |run| && t < |run[n].calls| && StartEnq(run[n], t, key, run[n + 1])
    requires InCall(run, d, m, u) && m + 1 < |run| && u < |run[d].calls| && StartDeq(run[d], u, run[d + 1])
    requires u < |run[m + 1].calls| && run[m + 1].calls[u] == Idle && run[d].front == run[n].rear
    ensures run[m].calls[u].key == key && run[m + 1].taken == run[m].taken[run[n].rear := key]
    ensures n < m
  {
    CallKeepsTicket(run, d, m, u);
    assert Next(run[m], run[m + 1]);
    RunInv(run, m);
    TicketStays(run[m], run[m + 1], u);
    AnswerIsGiven(run[m], u);
    GivenLength(run[m]);
    if m <= n { CountersGrow(run, m, n); }
    KeyDelivered(run, n, m, t, key);
  }

  /** End to end: an enqueue that begins in step `n` and returns in step `m` has put its key in between,
      under the ticket it drew, and a dequeue has got in between the key that it returns. */
  lemma CallTakesEffect(run: seq<State>, n: nat, m: nat, t: nat) returns (i: nat)
    requires IsRun(run) && InCall(run, n, m, t) && m + 1 < |run| && t < |run[n].calls| && run[n].calls[t] == Idle
    requires t < |run[m + 1].calls| && run[m + 1].calls[t] == Idle
    ensures |run[n].lin| <= i < |run[m].lin|
    ensures forall key :: StartEnq(run[n], t, key, run[n + 1]) ==> run[m].lin[i] == Put(run[n].rear, key)
    ensures StartDeq(run[n], t, run[n + 1]) ==> run[m].lin[i] == Got(run[n].front, run[m].calls[t].key)
    ensures forall x :: 0 <= x < |run[m].lin| && run[m].lin[x] == run[m].lin[i] ==> x == i
  {
    hide EnqEffects, DeqEffects, Inv, Fifo, Contents;
    CallKeepsTicket(run, n, m, t);
    BegunNow(run, n, t);
    assert Next(run[m], run[m + 1]);
    RunInv(run, m);
    TicketStays(run[m], run[m + 1], t);
    Linearizable(run, m);
    ResultIsEvent(run, m, t);
    var c := run[m].calls[t];
    assert TookEffect(run[m], c);
    i :| c.started <= i < |run[m].lin| && run[m].lin[i] == EventOf(run[m], c);
    forall key | StartEnq(run[n], t, key, run[n + 1]) ensures run[m].lin[i] == Put(run[n].rear, key) {
      KeyDelivered(run, n, m, t, key);
    }
  }

  lemma BegunNow(run: seq<State>, n: nat, t: nat)
    requires IsRun(run) && n + 1 < |run| && t < |run[n].calls| && run[n].calls[t] == Idle
    requires t < |run[n + 1].calls| && run[n + 1].calls[t].Busy?
    ensures run[n + 1].calls[t].started == |run[n].lin|
  {
    hide Moves, Inv;
    RunInv(run, n);
    assert Next(run[n], run[n + 1]);
    var u: nat :| Moves(run[n], u, run[n + 1]);
    StepShape(run[n], u, run[n + 1]);
    LinShape(run[n], u, run[n + 1]);
  }

  lemma AnswerIsGiven(s: State, u: nat)
    requires Inv(s) && u < |s.calls| && IsDeq(s.calls[u]) && s.calls[u].pc == StoreFlag
    ensures s.calls[u].ticket < |s.given| && s.calls[u].key == s.given[s.calls[u].ticket]
  {
    hide Index, Round, TicketsServed, TicketsAhead, TicketsDistinct, SlotsFull, SlotsEmpty, Delivered;
    assert CallOk(s, s.calls[u]);
  }

  // ----- what first in, first out means -----

  /** The keys put, in order. */
  function Puts(lin: seq<Event>): seq<int> {
    if lin == [] then [] else
      Puts(lin[..|lin| - 1]) + (if lin[|lin| - 1].Put? then [lin[|lin| - 1].key] else [])
  }

  /** The keys got, in order. */
  function Gots(lin: seq<Event>): seq<int> {
    if lin == [] then [] else
      Gots(lin[..|lin| - 1]) + (if lin[|lin| - 1].Got? then [lin[|lin| - 1].key] else [])
  }

  /** One more operation, seen from both sides. */
  lemma OneMore(lin: seq<Event>, e: Event, size: nat)
    requires Gots(lin) <= Puts(lin) && Contents(lin) == Puts(lin)[|Gots(lin)|..]
    requires |Puts(lin)| <= |Gots(lin)| + size
    ensures var p, g := Puts(lin + [e]), Gots(lin + [e]);
            && (Allowed(Contents(lin), e, size) <==> g <= p && |p| <= |g| + size)
            && (g <= p ==> Contents(lin + [e]) == p[|g|..])
  {
    var all := lin + [e];
    assert all[..|lin|] == lin && all[|all| - 1] == e;
    assert Puts(all) == Puts(lin) + (if e.Put? then [e.key] else []);
    assert Gots(all) == Gots(lin) + (if e.Got? then [e.key] else []);
    assert Contents(all) == Apply(Contents(lin), e);
    var p, g := Puts(lin), Gots(lin);
    if e.Put? {
      assert g <= p + [e.key] && (p + [e.key])[|g|..] == p[|g|..] + [e.key];
    } else if |g| < |p| {
      assert p[|g|..][1..] == p[|g| + 1..];
      assert p[|g|..][0] == p[|g|];
      if g + [e.key] <= p { assert (g + [e.key])[|g|] == e.key; }
    }
    hide Puts, Gots, Contents;
  }

  lemma FifoSnoc(lin: seq<Event>, e: Event, size: nat)
    ensures Fifo(lin + [e], size) <==> Fifo(lin, size) && Allowed(Contents(lin), e, size)
  {
    var all := lin + [e];
    assert all[..|lin|] == lin && all[|lin|] == e;
    hide Contents, Allowed;
    if Fifo(all, size) {
      forall n | 0 <= n < |lin| ensures Allowed(Contents(lin[..n]), lin[n], size) {
        assert all[..n] == lin[..n] && all[n] == lin[n];
      }
    }
    if Fifo(lin, size) && Allowed(Contents(lin), e, size) { Snoc(lin, e, size); }
  }

  /** One look: the keys got are the first of the keys put, which are at most `size` ahead. */
  predicate Look(lin: seq<Event>, size: nat) {
    Gots(lin) <= Puts(lin) && |Puts(lin)| <= |Gots(lin)| + size
  }

  ghost predicate InOrder(lin: seq<Event>, size: nat) {
    forall n :: 0 <= n <= |lin| ==> Look(lin[..n], size)
  }

  lemma InOrderSnoc(lin: seq<Event>, e: Event, size: nat)
    ensures InOrder(lin + [e], size) <==> InOrder(lin, size) && Look(lin + [e], size)
  {
    hide Look;
    var all := lin + [e];
    assert all[..|all|] == all;
    assert forall n :: 0 <= n <= |lin| ==> all[..n] == lin[..n];
    if InOrder(all, size) {
      forall n | 0 <= n <= |lin| ensures Look(lin[..n], size) { assert Look(all[..n], size); }
    }
  }

  lemma {:induction false} FifoIsInOrder(lin: seq<Event>, size: nat)
    ensures Fifo(lin, size) <==> InOrder(lin, size)
    ensures Fifo(lin, size) ==> Look(lin, size) && Contents(lin) == Puts(lin)[|Gots(lin)|..]
  {
    if lin == [] {
      assert lin[..0] == lin;
    } else {
      var before, e := lin[..|lin| - 1], lin[|lin| - 1];
      assert lin == before + [e];
      FifoIsInOrder(before, size);
      FifoSnoc(before, e, size);
      InOrderSnoc(before, e, size);
      hide Puts, Gots, Contents, Fifo, InOrder, Allowed;
      if Fifo(before, size) { OneMore(before, e, size); }
    }
  }

  /** Being first in, first out with room for `size` keys is exactly this: whenever one looks, the keys
      got are the first of the keys put, and the keys put are at most `size` ahead.  The contents of
      the queue are then the keys put and not got. */
  lemma FifoMeans(lin: seq<Event>, size: nat)
    ensures Fifo(lin, size) <==>
            forall n :: 0 <= n <= |lin| ==>
              Gots(lin[..n]) <= Puts(lin[..n]) && |Puts(lin[..n])| <= |Gots(lin[..n])| + size
    ensures Fifo(lin, size) ==> Gots(lin) <= Puts(lin) && Contents(lin) == Puts(lin)[|Gots(lin)|..]
  {
    hide Fifo, Contents;
    FifoIsInOrder(lin, size);
    hide Puts, Gots;
    if InOrder(lin, size) {
      forall n | 0 <= n <= |lin|
        ensures Gots(lin[..n]) <= Puts(lin[..n]) && |Puts(lin[..n])| <= |Gots(lin[..n])| + size
      {
        assert Look(lin[..n], size);
      }
    }
  }

  lemma Appended(lin: seq<Event>, e: Event)
    ensures Puts(lin + [e]) == Puts(lin) + (if e.Put? then [e.key] else [])
    ensures Gots(lin + [e]) == Gots(lin) + (if e.Got? then [e.key] else [])
  {
    var all := lin + [e];
    assert all[..|lin|] == lin && all[|all| - 1] == e;
  }

  /** The keys put are those of the enqueues that found room, the keys got those of the dequeues that
      found a key, both in the order of the tickets. */
  ghost predicate KeysOk(s: State) {
    && |s.given| == s.rear
    && Puts(s.lin) == s.given[..Entered(s)] && Gots(s.lin) == s.given[..Left(s)]
  }

  lemma StartEnqKeys(s: State, t: nat, key: int, s': State)
    requires KeysOk(s) && |s.slots| > 0 && t < |s.calls| && StartEnq(s, t, key, s')
    ensures KeysOk(s')
  {
    hide Puts, Gots;
    Appended(s.lin, Put(s.rear, key));
    Appended(s.lin + [Put(s.rear, key)], Got(s.rear, key));
    if s.rear < s.front {
      assert s'.lin == s.lin + [Put(s.rear, key)] + [Got(s.rear, key)];
    } else if s.rear < s.front + |s.slots| {
      assert s'.lin == s.lin + [Put(s.rear, key)];
    } else {
      assert s'.lin == s.lin;
    }
  }

  lemma StartDeqKeys(s: State, t: nat, s': State)
    requires KeysOk(s) && |s.slots| > 0 && t < |s.calls| && StartDeq(s, t, s')
    ensures KeysOk(s')
  {
    hide Puts, Gots;
    var size := |s.slots|;
    if s.front >= s.rear {
      assert s'.lin == s.lin;
    } else {
      var got := Got(s.front, s.given[s.front]);
      Appended(s.lin, got);
      if s.front + size < s.rear {
        var put := Put(s.front + size, s.given[s.front + size]);
        Appended(s.lin + [got], put);
        assert s'.lin == s.lin + [got] + [put];
      } else {
        assert s'.lin == s.lin + [got];
      }
    }
  }

  lemma {:induction false} RunKeys(run: seq<State>, n: nat)
    requires IsRun(run) && n < |run|
    ensures KeysOk(run[n])
  {
    if n > 0 {
      hide KeysOk, EnqStep, DeqStep, StartEnq, StartDeq, Inv;
      RunKeys(run, n - 1);
      assert Next(run[n - 1], run[n - 1 + 1]);
      StepKeys(run[n - 1], run[n]);
    }
  }

  lemma StepKeys(s: State, s': State)
    requires KeysOk(s) && Next(s, s')
    ensures KeysOk(s')
  {
    hide Puts, Gots, EnqStep, DeqStep, StartEnq, StartDeq;
    var t: nat :| Moves(s, t, s');
    if s.calls[t] == Idle {
      hide KeysOk;
      if StartDeq(s, t, s') {
        StartDeqKeys(s, t, s');
      } else {
        var key :| StartEnq(s, t, key, s');
        StartEnqKeys(s, t, key, s');
      }
    } else {
      LinShape(s, t, s');
    }
  }

  /** In every run the keys got are the first of the keys put, at most as many behind as there are
      slots, and the keys put are the first that the enqueues were called with. */
  lemma RunInOrder(run: seq<State>, n: nat, i: nat)
    requires IsRun(run) && n < |run| && i <= |run[n].lin|
    ensures var s := run[n]; var lin := s.lin[..i];
            Gots(lin) <= Puts(lin) && |Puts(lin)| <= |Gots(lin)| + |s.slots|
    ensures var s := run[n];
            Gots(s.lin) <= Puts(s.lin) <= s.given && |Puts(s.lin)| == (if s.rear < s.front + |s.slots| then s.rear
                                                                    else s.front + |s.slots|)
    ensures |Gots(run[n].lin)| == if run[n].front < run[n].rear then run[n].front else run[n].rear
  {
    hide IsRun, Contents, Once, Puts, Gots, Fifo;
    Linearizable(run, n);
    FifoMeans(run[n].lin, |run[n].slots|);
    assert run[n].lin[..|run[n].lin|] == run[n].lin;
    RunKeys(run, n);
  }
}
