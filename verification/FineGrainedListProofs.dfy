/** The hand-over-hand list is linearizable, never touches a freed node, and is free of
    lock cycles, in every interleaving of any number of threads. */
module FineGrainedListProofs {
  import opened FineGrainedList
  import opened Options

  // ----- which nodes a thread depends on -----

  predicate Touches(th: Thread, a: nat) {
    Holds(th, a) || Private(th, a) || (th.pc == SetNext && th.node == a)
  }

  /** Node `a` looks the same to whoever depends on it. */
  ghost predicate SameAt(s: State, s': State, a: nat) {
    && (a in s.heap ==> a in s'.heap && s'.heap[a].key == s.heap[a].key && s'.heap[a].owner == s.heap[a].owner)
    && (a in s.live <==> a in s'.live)
    && (a in s.succ ==> a in s'.succ && s'.succ[a] == s.succ[a])
  }

  ghost predicate LinGrows(s: State, s': State) {
    |s.lin| <= |s'.lin| && forall n :: 0 <= n < |s.lin| ==> s'.lin[n] == s.lin[n]
  }

  lemma ThreadKeeps(s: State, s': State, u: nat, th: Thread)
    requires ThreadOk(s, u, th) && LinGrows(s, s')
    requires forall a :: Touches(th, a) ==> SameAt(s, s', a)
    ensures ThreadOk(s', u, th)
  {
    assert HoldsPrev(th.pc) ==> Touches(th, th.prev);
    assert HoldsCurr(th.pc) || OwnsCurr(th) ==> Touches(th, th.curr);
    assert OwnsNode(th) || th.pc == SetNext ==> Touches(th, th.node);
  }

  lemma ThreadFacts(s: State, t: nat)
    requires Inv(s) && t < |s.threads|
    ensures ThreadOk(s, t, s.threads[t])
  {
    hide ListOk, PointersOk, OwnersOk, MemoryOk, Legal, SetAfter, Keys, ThreadOk;
  }

  /** A node locked by one thread, or private to it, is none of another thread's business. */
  lemma NotTouched(s: State, t: nat, u: nat, a: nat)
    requires Inv(s) && t < |s.threads| && u < |s.threads| && t != u && a in s.heap
    requires s.heap[a].owner == Some(t) || Private(s.threads[t], a)
    ensures !Touches(s.threads[u], a)
  {
    hide ListOk, PointersOk, OwnersOk, Legal, SetAfter, Keys;
    ThreadFacts(s, t);
    ThreadFacts(s, u);
  }

  /** Only its half-linked creator depends on an unlocked node of the list. */
  lemma FreeNotTouched(s: State, u: nat, a: nat)
    requires Inv(s) && u < |s.threads| && a in s.live && a in s.heap && s.heap[a].owner == None
    requires !HalfLinked(s, a)
    ensures !Touches(s.threads[u], a)
  {
    hide ListOk, PointersOk, OwnersOk, MemoryOk, Legal, SetAfter, Keys;
    ThreadFacts(s, u);
  }

  ghost predicate OthersSame(s: State, s': State, t: nat) {
    && t < |s.threads| == |s'.threads|
    && forall u :: 0 <= u < |s.threads| && u != t ==> s'.threads[u] == s.threads[u]
  }

  lemma OthersKeep(s: State, t: nat, s': State)
    requires Inv(s) && OthersSame(s, s', t) && LinGrows(s, s')
    requires forall u: nat, a: nat :: u < |s.threads| && u != t && Touches(s.threads[u], a) ==> SameAt(s, s', a)
    requires ThreadOk(s', t, s'.threads[t])
    ensures forall u :: 0 <= u < |s'.threads| ==> ThreadOk(s', u, s'.threads[u])
  {
    hide ListOk, PointersOk, OwnersOk, MemoryOk, Legal, SetAfter, Keys, ThreadOk, Touches, SameAt, LinGrows;
    forall u | 0 <= u < |s'.threads| ensures ThreadOk(s', u, s'.threads[u]) {
      if u != t {
        ThreadKeeps(s, s', u, s.threads[u]);
      }
    }
  }

  /** Half-linked nodes stay so when the moving thread is at no such point. */
  lemma SameHalfLinked(s: State, s': State, t: nat, b: nat)
    requires OthersSame(s, s', t)
    requires (s.threads[t].pc == SetNext ==> s'.threads[t].pc == SetNext && s'.threads[t].node == s.threads[t].node)
    requires HalfLinked(s, b)
    ensures HalfLinked(s', b)
  {
    var u :| 0 <= u < |s.threads| && s.threads[u].pc == SetNext && s.threads[u].node == b;
    assert s'.threads[u].pc == SetNext && s'.threads[u].node == b;
  }

  // ----- locking and unlocking -----

  /** The heap changes only in the owner of node `a`. */
  ghost predicate OwnerStep(s: State, s': State, t: nat, a: nat) {
    && OthersSame(s, s', t) && a in s.heap && a in s'.heap
    && s'.heap == SetOwner(s.heap, a, s'.heap[a].owner)
    && s'.live == s.live && s'.succ == s.succ && s'.lin == s.lin
    && s.threads[t].pc != SetNext && s'.threads[t].pc != SetNext
  }

  lemma OwnerStepList(s: State, s': State, t: nat, a: nat)
    requires ListOk(s.heap, s.live, s.succ) && PointersOk(s) && OwnerStep(s, s', t, a)
    ensures ListOk(s'.heap, s'.live, s'.succ) && PointersOk(s') && Keys(s'.heap, s'.live) == Keys(s.heap, s.live)
  {
    assert forall b :: b in s.heap ==>
             b in s'.heap && s'.heap[b].key == s.heap[b].key && s'.heap[b].next == s.heap[b].next;
    assert forall b :: b in s.live ==> b in s.heap;
    hide ListOk;
    SameList(s.heap, s'.heap, s.live, s.succ);
    forall b: nat | HalfLinked(s, b) ensures HalfLinked(s', b) { SameHalfLinked(s, s', t, b); }
    SameKeys(s.heap, s'.heap, s.live);
  }

  lemma SameKeys(heap: map<nat, Node>, heap': map<nat, Node>, live: set<nat>)
    requires forall b :: b in live ==> b in heap && b in heap' && heap'[b].key == heap[b].key
    ensures Keys(heap', live) == Keys(heap, live)
  {
    forall k | k in Keys(heap, live) ensures k in Keys(heap', live) {
      var a :| a in live && a in heap && a != HEAD && a != TAIL && heap[a].key == k;
      assert heap'[a].key == k;
    }
    forall k | k in Keys(heap', live) ensures k in Keys(heap, live) {
      var a :| a in live && a in heap' && a != HEAD && a != TAIL && heap'[a].key == k;
      assert heap[a].key == k;
    }
  }

  /** Memory stays accounted for when the moving thread keeps its private nodes. */
  lemma SamePrivate(s: State, s': State, t: nat)
    requires MemoryOk(s) && OthersSame(s, s', t) && s'.heap.Keys == s.heap.Keys && s'.live == s.live
    requires forall a: nat :: Private(s'.threads[t], a) <==> Private(s.threads[t], a)
    ensures MemoryOk(s')
  {
    forall a | a in s'.heap && a !in s'.live ensures exists u :: 0 <= u < |s'.threads| && Private(s'.threads[u], a) {
      var u :| 0 <= u < |s.threads| && Private(s.threads[u], a);
      assert Private(s'.threads[u], a);
    }
  }

  /** Thread `t` locks a free node of the list, or unlocks one it has locked. */
  lemma OwnerStepKeeps(s: State, s': State, t: nat, a: nat)
    requires Inv(s) && OwnerStep(s, s', t, a)
    requires s.heap[a].owner == Some(t) || (s.heap[a].owner == None && a in s.live && !HalfLinked(s, a))
    requires ThreadOk(s', t, s'.threads[t])
    requires forall b: nat :: Private(s'.threads[t], b) <==> Private(s.threads[t], b)
    requires s'.heap[a].owner == None || (s'.heap[a].owner == Some(t) && Holds(s'.threads[t], a))
    requires forall b: nat :: b != a && Holds(s.threads[t], b) ==> Holds(s'.threads[t], b)
    ensures Inv(s')
  {
    hide ListOk, PointersOk, MemoryOk, Legal, SetAfter, Keys, ThreadOk, Touches, HalfLinked, Private, Holds;
    OwnerStepList(s, s', t, a);
    forall u: nat, b: nat | u < |s.threads| && u != t && Touches(s.threads[u], b) ensures SameAt(s, s', b) {
      if b == a {
        if s.heap[a].owner == Some(t) { NotTouched(s, t, u, a); } else { FreeNotTouched(s, u, a); }
      }
    }
    OthersKeep(s, t, s');
    SamePrivate(s, s', t);
  }

  // ----- moves that leave the heap alone -----

  lemma LocalKeeps(s: State, s': State, t: nat)
    requires Inv(s) && OthersSame(s, s', t)
    requires s'.heap == s.heap && s'.live == s.live && s'.succ == s.succ && LinGrows(s, s')
    requires s.threads[t].pc != SetNext
    requires ThreadOk(s', t, s'.threads[t])
    requires forall b: nat :: Private(s'.threads[t], b) <==> Private(s.threads[t], b)
    requires forall b: nat :: Holds(s.threads[t], b) ==> Holds(s'.threads[t], b)
    requires Legal(s'.lin) && SetAfter(s'.lin) == SetAfter(s.lin)
    ensures Inv(s')
  {
    hide ListOk, MemoryOk, Legal, SetAfter, Keys, ThreadOk, Touches, HalfLinked, Private, Holds;
    OthersKeep(s, t, s');
    SamePrivate(s, s', t);
    forall b: nat | HalfLinked(s, b) ensures HalfLinked(s', b) { SameHalfLinked(s, s', t, b); }
  }

  /** The nodes a thread has locked are not half linked, and their pointers are right. */
  lemma LockedPointer(s: State, a: nat)
    requires Inv(s) && a in s.heap && s.heap[a].owner.Some? && a in s.live && a != TAIL
    ensures !HalfLinked(s, a) && a in s.succ && s.heap[a].next == Some(s.succ[a])
  {
    forall u | 0 <= u < |s.threads| && s.threads[u].pc == SetNext ensures s.threads[u].node != a { ThreadFacts(s, u); }
  }

  /** The successor of a node that thread `t` has locked (and is not linking behind) is not
      half linked: its creator would have locked the predecessor. */
  lemma SuccessorLinked(s: State, t: nat, a: nat)
    requires Inv(s) && t < |s.threads| && a in s.live && a != TAIL && a in s.heap && a in s.succ
    requires s.heap[a].owner == Some(t) && s.threads[t].pc != SetNext
    ensures !HalfLinked(s, s.succ[a])
  {
    forall u | 0 <= u < |s.threads| && s.threads[u].pc == SetNext ensures s.threads[u].node != s.succ[a] {
      ThreadFacts(s, u);
      if s.threads[u].node == s.succ[a] { SamePredecessor(s, a, s.threads[u].prev); }
    }
  }

  lemma SamePredecessor(s: State, a: nat, b: nat)
    requires ListOk(s.heap, s.live, s.succ)
    requires a in s.live && b in s.live && a != TAIL && b != TAIL && s.succ[a] == s.succ[b]
    ensures a == b
  { }

  lemma ListFacts(s: State, a: nat)
    requires Inv(s) && a in s.live
    ensures HEAD in s.live && TAIL in s.live && HEAD in s.heap && TAIL in s.heap && a in s.heap
    ensures s.heap[TAIL].key == MAX_KEY
    ensures a != TAIL ==> a in s.succ && s.succ[a] != HEAD && s.succ[a] in s.live && s.succ[a] in s.heap
    ensures a != TAIL ==> Rank(s.heap, a) < Rank(s.heap, s.succ[a])
  {
    hide PointersOk, OwnersOk, MemoryOk, Legal, SetAfter, Keys, ThreadOk;
  }

  lemma HeadNotHalfLinked(s: State)
    requires Inv(s)
    ensures HEAD in s.live && HEAD in s.heap && !HalfLinked(s, HEAD)
  {
    forall u | 0 <= u < |s.threads| && s.threads[u].pc == SetNext
      ensures s.threads[u].node != HEAD
    {
      ThreadFacts(s, u);
    }
  }

  lemma LockHeadKeeps(s: State, t: nat, s': State)
    requires Inv(s) && t < |s.threads| && s.threads[t].pc == LockHead && Step(s, t, s')
    ensures Inv(s')
  {
    hide Inv, HalfLinked;
    ThreadFacts(s, t);
    HeadNotHalfLinked(s);
    assert ThreadOk(s', t, s'.threads[t]);
    OwnerStepKeeps(s, s', t, HEAD);
  }

  lemma LockCurrKeeps(s: State, t: nat, s': State)
    requires Inv(s) && t < |s.threads| && s.threads[t].pc == LockCurr && Step(s, t, s')
    ensures Inv(s')
  {
    hide Inv, HalfLinked;
    ThreadFacts(s, t);
    ListFacts(s, s.threads[t].prev);
    SuccessorLinked(s, t, s.threads[t].prev);
    assert ThreadOk(s', t, s'.threads[t]);
    OwnerStepKeeps(s, s', t, s.threads[t].curr);
  }

  lemma UnlockPrevKeeps(s: State, t: nat, s': State)
    requires Inv(s) && t < |s.threads| && s.threads[t].pc == UnlockPrev && Step(s, t, s')
    ensures Inv(s')
  {
    hide Inv, HalfLinked;
    ThreadFacts(s, t);
    ListFacts(s, s.threads[t].prev);
    assert ThreadOk(s', t, s'.threads[t]);
    OwnerStepKeeps(s, s', t, s.threads[t].prev);
  }

  lemma Release1Keeps(s: State, t: nat, s': State)
    requires Inv(s) && t < |s.threads| && s.threads[t].pc == Release1 && Step(s, t, s')
    ensures Inv(s')
  {
    hide Inv, HalfLinked;
    ThreadFacts(s, t);
    assert ThreadOk(s', t, s'.threads[t]);
    OwnerStepKeeps(s, s', t, s.threads[t].prev);
  }

  /** Unlocking `curr` ends the call unless it has a node to free. */
  lemma Release2Keeps(s: State, t: nat, s': State)
    requires Inv(s) && t < |s.threads| && s.threads[t].pc == Release2 && Step(s, t, s')
    ensures Inv(s')
  {
    hide Inv, HalfLinked;
    ThreadFacts(s, t);
    assert ThreadOk(s', t, s'.threads[t]);
    OwnerStepKeeps(s, s', t, s.threads[t].curr);
  }

  lemma ReadFirstKeeps(s: State, t: nat, s': State)
    requires Inv(s) && t < |s.threads| && s.threads[t].pc == ReadFirst && Step(s, t, s')
    ensures Inv(s')
  {
    hide Inv, HalfLinked, Legal, SetAfter;
    ThreadFacts(s, t);
    LockedPointer(s, s.threads[t].prev);
    LinFacts(s);
    assert ThreadOk(s', t, s'.threads[t]);
    LocalKeeps(s, s', t);
  }

  lemma LinFacts(s: State)
    requires Inv(s)
    ensures Legal(s.lin) && SetAfter(s.lin) == Keys(s.heap, s.live)
  {
    hide ListOk, PointersOk, OwnersOk, MemoryOk, Legal, SetAfter, Keys, ThreadOk;
  }

  lemma AdvanceKeeps(s: State, t: nat, s': State)
    requires Inv(s) && t < |s.threads| && s.threads[t].pc == Advance && Step(s, t, s')
    ensures Inv(s')
  {
    hide Inv, HalfLinked, Legal, SetAfter;
    ThreadFacts(s, t);
    ListFacts(s, s.threads[t].curr);
    LockedPointer(s, s.threads[t].curr);
    LinFacts(s);
    assert ThreadOk(s', t, s'.threads[t]);
    LocalKeeps(s, s', t);
  }

  // ----- taking effect -----

  /** Between a node and its successor there is no key of the list. */
  lemma KeyBetween(s: State, prev: nat, key: int)
    requires ListOk(s.heap, s.live, s.succ) && prev in s.live && prev != TAIL
    requires MIN_KEY <= key < MAX_KEY && Rank(s.heap, prev) < key <= Rank(s.heap, s.succ[prev])
    ensures key in Keys(s.heap, s.live) <==> s.heap[s.succ[prev]].key == key
  {
    if s.heap[s.succ[prev]].key == key {
      assert s.heap[s.succ[prev]].key in Keys(s.heap, s.live);
    } else {
      forall b | b in s.live && b in s.heap && b != HEAD
        ensures s.heap[b].key != key
      {
        NoKeyBetween(s.heap, s.live, s.succ, prev, b);
      }
    }
  }

  lemma LegalAppend(lin: seq<Event>, e: Event)
    requires Legal(lin) && Correct(SetAfter(lin), e)
    ensures Legal(lin + [e]) && SetAfter(lin + [e]) == Apply(SetAfter(lin), e)
  {
    var all := lin + [e];
    assert all[..|lin|] == lin;
    forall n | 0 <= n < |all| ensures Correct(SetAfter(all[..n]), all[n]) {
      if n < |lin| { assert all[..n] == lin[..n] && all[n] == lin[n]; }
    }
  }

  /** What the test has found out about the key, in terms of the abstract set. */
  lemma TestMeaning(s: State, t: nat)
    requires Inv(s) && t < |s.threads| && s.threads[t].pc in {TestKey, Publish, Unlink}
    requires s.threads[t].curr in s.heap && s.threads[t].key <= s.heap[s.threads[t].curr].key
    ensures s.threads[t].key in SetAfter(s.lin) <==> s.heap[s.threads[t].curr].key == s.threads[t].key
  {
    hide PointersOk, OwnersOk, MemoryOk, Legal, SetAfter;
    ThreadFacts(s, t);
    KeyBetween(s, s.threads[t].prev, s.threads[t].key);
  }

  lemma TestKeeps(s: State, t: nat, s': State)
    requires Inv(s) && t < |s.threads| && s.threads[t].pc == Test && Step(s, t, s')
    ensures Inv(s')
  {
    hide Inv, HalfLinked, Legal, SetAfter;
    ThreadFacts(s, t);
    LinFacts(s);
    assert ThreadOk(s', t, s'.threads[t]);
    LocalKeeps(s, s', t);
  }

  lemma TestKeyKeeps(s: State, t: nat, s': State)
    requires Inv(s) && t < |s.threads| && s.threads[t].pc == TestKey && Step(s, t, s')
    ensures Inv(s')
  {
    hide Inv, HalfLinked, Legal, SetAfter;
    var th := s.threads[t];
    ThreadFacts(s, t);
    LinFacts(s);
    TestMeaning(s, t);
    var e := Event(t, th.op, th.key, s'.threads[t].res);
    if s'.threads[t].pc == Release1 {
      LegalAppend(s.lin, e);
      assert Apply(SetAfter(s.lin), e) == SetAfter(s.lin);
    }
    assert ThreadOk(s', t, s'.threads[t]);
    LocalKeeps(s, s', t);
  }

  lemma LoadNextKeeps(s: State, t: nat, s': State)
    requires Inv(s) && t < |s.threads| && s.threads[t].pc == LoadNext && Step(s, t, s')
    ensures Inv(s')
  {
    hide Inv, HalfLinked, Legal, SetAfter;
    ThreadFacts(s, t);
    ListFacts(s, s.threads[t].curr);
    LockedPointer(s, s.threads[t].curr);
    LinFacts(s);
    assert ThreadOk(s', t, s'.threads[t]);
    LocalKeeps(s, s', t);
  }

  // ----- changing the list -----

  /** The owners, and who holds what, do not change. */
  lemma OwnersKeep(s: State, s': State, t: nat)
    requires OwnersOk(s) && OthersSame(s, s', t)
    requires forall a :: a in s'.heap && s'.heap[a].owner.Some? ==> a in s.heap && s.heap[a].owner == s'.heap[a].owner
    requires forall b: nat :: b in s'.heap && Holds(s.threads[t], b) ==> Holds(s'.threads[t], b)
    ensures OwnersOk(s')
  { }

  lemma NoKeyBetween(heap: map<nat, Node>, live: set<nat>, succ: map<nat, nat>, prev: nat, b: nat)
    requires ListOk(heap, live, succ) && prev in live && prev != TAIL && b in live
    ensures Rank(heap, b) <= Rank(heap, prev) || Rank(heap, succ[prev]) <= Rank(heap, b)
    ensures Rank(heap, prev) < Rank(heap, succ[prev])
    ensures Rank(heap, b) == Rank(heap, prev) ==> b == prev
  {
    assert IsSucc(heap, live, prev, succ[prev]);
  }

  lemma InsertNodes(heap: map<nat, Node>, live: set<nat>, succ: map<nat, nat>, prev: nat, node: nat)
    requires ListOk(heap, live, succ) && prev in live && prev != TAIL && node in heap && node !in live
    requires node != HEAD && MIN_KEY <= heap[node].key < MAX_KEY
    requires Rank(heap, prev) < Rank(heap, node) < Rank(heap, succ[prev])
    ensures NodesOk(heap, live + {node})
  {
    forall b | b in live ensures Rank(heap, b) != Rank(heap, node) { NoKeyBetween(heap, live, succ, prev, b); }
    hide ListOk, IsSucc;
  }

  /** A node put between two neighbours keeps the list sorted. */
  lemma InsertList(heap: map<nat, Node>, live: set<nat>, succ: map<nat, nat>, prev: nat, node: nat)
    requires ListOk(heap, live, succ) && prev in live && prev != TAIL && node in heap && node !in live
    requires node != HEAD && MIN_KEY <= heap[node].key < MAX_KEY
    requires Rank(heap, prev) < Rank(heap, node) < Rank(heap, succ[prev])
    ensures ListOk(heap, live + {node}, succ[prev := node][node := succ[prev]])
  {
    var live', succ' := live + {node}, succ[prev := node][node := succ[prev]];
    InsertNodes(heap, live, succ, prev, node);
    hide NodesOk;
    forall a | a in live' && a != TAIL ensures a in succ' && IsSucc(heap, live', a, succ'[a]) {
      InsertSucc(heap, live, succ, prev, node, a);
    }
  }

  lemma InsertSucc(heap: map<nat, Node>, live: set<nat>, succ: map<nat, nat>, prev: nat, node: nat, a: nat)
    requires ListOk(heap, live, succ) && prev in live && prev != TAIL && node in heap && node !in live
    requires Rank(heap, prev) < Rank(heap, node) < Rank(heap, succ[prev])
    requires a in live + {node} && a != TAIL
    ensures var succ' := succ[prev := node][node := succ[prev]];
            a in succ' && IsSucc(heap, live + {node}, a, succ'[a])
  {
    assert IsSucc(heap, live, prev, succ[prev]);
    if a in live {
      assert IsSucc(heap, live, a, succ[a]);
      NoKeyBetween(heap, live, succ, prev, a);
    }
    forall c | c in live && Rank(heap, node) < Rank(heap, c) ensures Rank(heap, succ[prev]) <= Rank(heap, c) {
      NoKeyBetween(heap, live, succ, prev, c);
    }
  }

  lemma InsertKeys(heap: map<nat, Node>, live: set<nat>, node: nat)
    requires node in heap && node != HEAD && node != TAIL
    ensures Keys(heap, live + {node}) == Keys(heap, live) + {heap[node].key}
  {
    forall k | k in Keys(heap, live) + {heap[node].key} ensures k in Keys(heap, live + {node}) {
      if k in Keys(heap, live) {
        var a :| a in live && a in heap && a != HEAD && a != TAIL && heap[a].key == k;
        assert a in live + {node};
      } else {
        assert node in live + {node};
      }
    }
  }

  /** Taking a node out of the list keeps it sorted. */
  lemma RemoveList(heap: map<nat, Node>, live: set<nat>, succ: map<nat, nat>, prev: nat, curr: nat)
    requires ListOk(heap, live, succ) && prev in live && prev != TAIL && succ[prev] == curr
    requires curr != HEAD && curr != TAIL
    ensures ListOk(heap, live - {curr}, (succ - {curr})[prev := succ[curr]])
  {
    var live', succ' := live - {curr}, (succ - {curr})[prev := succ[curr]];
    forall a | a in live' && a != TAIL ensures a in succ' && IsSucc(heap, live', a, succ'[a]) {
      RemoveSucc(heap, live, succ, prev, curr, a);
    }
  }

  lemma RemoveSucc(heap: map<nat, Node>, live: set<nat>, succ: map<nat, nat>, prev: nat, curr: nat, a: nat)
    requires ListOk(heap, live, succ) && prev in live && prev != TAIL && succ[prev] == curr
    requires curr != TAIL && a in live - {curr} && a != TAIL
    ensures var succ' := (succ - {curr})[prev := succ[curr]];
            a in succ' && IsSucc(heap, live - {curr}, a, succ'[a])
  {
    assert IsSucc(heap, live, prev, curr);
    assert IsSucc(heap, live, curr, succ[curr]);
    assert IsSucc(heap, live, a, succ[a]);
    NoKeyBetween(heap, live, succ, prev, a);
    NoKeyBetween(heap, live, succ, a, prev);
    if a == prev {
      forall c | c in live - {curr} && Rank(heap, a) < Rank(heap, c) ensures Rank(heap, succ[curr]) <= Rank(heap, c) {
        NoKeyBetween(heap, live, succ, curr, c);
      }
    }
  }

  lemma RemoveKeys(heap: map<nat, Node>, live: set<nat>, curr: nat)
    requires NodesOk(heap, live) && curr in live && curr != HEAD && curr != TAIL
    ensures Keys(heap, live - {curr}) == Keys(heap, live) - {heap[curr].key}
  {
    forall k | k in Keys(heap, live) - {heap[curr].key} ensures k in Keys(heap, live - {curr}) {
      var a :| a in live && a in heap && a != HEAD && a != TAIL && heap[a].key == k;
      assert a in live - {curr};
    }
  }

  lemma SameList(heap: map<nat, Node>, heap': map<nat, Node>, live: set<nat>, succ: map<nat, nat>)
    requires ListOk(heap, live, succ)
    requires forall b :: b in live ==> b in heap' && heap'[b].key == heap[b].key
    ensures ListOk(heap', live, succ) && Keys(heap', live) == Keys(heap, live)
  {
    SameKeys(heap, heap', live);
    forall a | a in live && a != TAIL ensures a in succ && IsSucc(heap', live, a, succ[a]) {
      assert IsSucc(heap, live, a, succ[a]);
    }
  }

  /** Everything live is allocated, and all but the tail has a successor. */
  lemma LiveFacts(s: State)
    requires Inv(s)
    ensures HEAD in s.live && TAIL in s.live && (forall a :: a in s.live ==> a in s.heap)
    ensures forall a :: a in s.live && a != TAIL ==> a in s.succ
  {
    hide PointersOk, OwnersOk, MemoryOk, Legal, SetAfter, Keys, ThreadOk, IsSucc;
  }

  lemma PublishKeeps(s: State, t: nat, s': State)
    requires Inv(s) && t < |s.threads| && s.threads[t].pc == Publish && Step(s, t, s')
    ensures Inv(s')
  {
    hide Inv, HalfLinked, Legal, SetAfter, ListOk, Keys, PointersOk, MemoryOk,
         OwnersOk, Touches, ThreadOk, SameAt, Apply;
    var th := s.threads[t];
    PublishThread(s, t, s');
    PublishOthers(s, t, s');
    OthersKeep(s, t, s');
    PublishList(s, t, s');
    PublishRest(s, t, s');
    Assemble(s');
  }

  lemma Assemble(s: State)
    requires ListOk(s.heap, s.live, s.succ) && PointersOk(s)
    requires forall t :: 0 <= t < |s.threads| ==> ThreadOk(s, t, s.threads[t])
    requires OwnersOk(s) && MemoryOk(s) && Legal(s.lin) && SetAfter(s.lin) == Keys(s.heap, s.live)
    ensures Inv(s)
  {
    hide HalfLinked, Legal, SetAfter, ListOk, Keys, PointersOk, MemoryOk, OwnersOk, ThreadOk;
  }

  lemma PublishThread(s: State, t: nat, s': State)
    requires Inv(s) && t < |s.threads| && s.threads[t].pc == Publish && Step(s, t, s')
    ensures t < |s'.threads| && ThreadOk(s', t, s'.threads[t]) && LinGrows(s, s') && OthersSame(s, s', t)
  {
    hide Inv;
    ThreadFacts(s, t);
    ListFacts(s, s.threads[t].prev);
  }

  lemma PublishOthers(s: State, t: nat, s': State)
    requires Inv(s) && t < |s.threads| && s.threads[t].pc == Publish && Step(s, t, s')
    ensures forall u: nat, b: nat :: u < |s.threads| && u != t && Touches(s.threads[u], b) ==> SameAt(s, s', b)
  {
    hide Inv, Touches;
    ThreadFacts(s, t);
    forall u: nat, b: nat | u < |s.threads| && u != t && Touches(s.threads[u], b) ensures SameAt(s, s', b) {
      if b == s.threads[t].prev || b == s.threads[t].node { NotTouched(s, t, u, b); }
    }
  }

  lemma PublishList(s: State, t: nat, s': State)
    requires Inv(s) && t < |s.threads| && s.threads[t].pc == Publish && Step(s, t, s')
    ensures ListOk(s'.heap, s'.live, s'.succ)
    ensures Legal(s'.lin) && SetAfter(s'.lin) == Keys(s'.heap, s'.live)
  {
    hide HalfLinked, Legal, SetAfter, ListOk, Keys, PointersOk, MemoryOk, OwnersOk;
    var th := s.threads[t];
    ThreadFacts(s, t);
    ListFacts(s, th.prev);
    LiveFacts(s);
    LinFacts(s);
    TestMeaning(s, t);
    LegalAppend(s.lin, Event(t, Add, th.key, true));
    hide Inv, ThreadOk;
    InsertList(s.heap, s.live, s.succ, th.prev, th.node);
    InsertKeys(s.heap, s.live, th.node);
    SameList(s.heap, s'.heap, s'.live, s'.succ);
  }

  lemma PublishRest(s: State, t: nat, s': State)
    requires Inv(s) && t < |s.threads| && s.threads[t].pc == Publish && Step(s, t, s')
    ensures PointersOk(s') && MemoryOk(s') && OwnersOk(s')
  {
    hide HalfLinked, Legal, SetAfter, ListOk, Keys, PointersOk, MemoryOk, OwnersOk;
    ThreadFacts(s, t);
    LiveFacts(s);
    PublishPointers(s, t, s');
    PublishMemory(s, t, s');
    OwnersKeep(s, s', t);
  }

  lemma PublishPointers(s: State, t: nat, s': State)
    requires PointersOk(s) && t < |s.threads| && s.threads[t].pc == Publish && Step(s, t, s')
    requires ThreadOk(s, t, s.threads[t]) && forall a :: a in s.live && a != TAIL ==> a in s.heap && a in s.succ
    ensures PointersOk(s')
  {
    forall b: nat | HalfLinked(s, b) ensures HalfLinked(s', b) { SameHalfLinked(s, s', t, b); }
    assert s'.threads[t].pc == SetNext && s'.threads[t].node == s.threads[t].node;
    assert HalfLinked(s', s.threads[t].node);
  }

  lemma PublishMemory(s: State, t: nat, s': State)
    requires MemoryOk(s) && t < |s.threads| && s.threads[t].pc == Publish && Step(s, t, s')
    requires ThreadOk(s, t, s.threads[t])
    ensures MemoryOk(s')
  {
    forall a | a in s'.heap && a !in s'.live ensures exists u :: 0 <= u < |s'.threads| && Private(s'.threads[u], a) {
      var u :| 0 <= u < |s.threads| && Private(s.threads[u], a);
      assert u != t;
      assert Private(s'.threads[u], a);
    }
  }

  lemma SetNextKeeps(s: State, t: nat, s': State)
    requires Inv(s) && t < |s.threads| && s.threads[t].pc == SetNext && Step(s, t, s')
    ensures Inv(s')
  {
    hide HalfLinked, Legal, SetAfter, ListOk, Keys, PointersOk, MemoryOk, OwnersOk, Touches;
    ThreadFacts(s, t);
    LiveFacts(s);
    assert ThreadOk(s', t, s'.threads[t]);
    OthersKeep(s, t, s');
    hide ThreadOk, SameAt;
    NextListPointers(s, t, s');
    SamePrivate(s, s', t);
    OwnersKeep(s, s', t);
  }

  lemma NextListPointers(s: State, t: nat, s': State)
    requires ListOk(s.heap, s.live, s.succ) && PointersOk(s)
    requires t < |s.threads| && s.threads[t].pc == SetNext && Step(s, t, s')
    requires PairOk(s, s.threads[t]) && forall a :: a in s.live ==> a in s.heap
    ensures PointersOk(s') && ListOk(s'.heap, s'.live, s'.succ) && Keys(s'.heap, s'.live) == Keys(s.heap, s.live)
  {
    hide ListOk, Keys;
    var th := s.threads[t];
    SameList(s.heap, s'.heap, s.live, s.succ);
    forall a | a in s.live && a != th.node && HalfLinked(s, a) ensures HalfLinked(s', a) {
      var u :| 0 <= u < |s.threads| && s.threads[u].pc == SetNext && s.threads[u].node == a;
      assert s'.threads[u].pc == SetNext && s'.threads[u].node == a;
    }
  }

  lemma UnlinkKeeps(s: State, t: nat, s': State)
    requires Inv(s) && t < |s.threads| && s.threads[t].pc == Unlink && Step(s, t, s')
    ensures Inv(s')
  {
    hide Inv, HalfLinked, Legal, SetAfter, ListOk, Keys, PointersOk, MemoryOk,
         OwnersOk, Touches, ThreadOk, SameAt, Apply;
    UnlinkThread(s, t, s');
    UnlinkOthers(s, t, s');
    OthersKeep(s, t, s');
    UnlinkList(s, t, s');
    UnlinkMemory(s, t, s');
    UnlinkRest(s, t, s');
    Assemble(s');
  }

  lemma UnlinkThread(s: State, t: nat, s': State)
    requires Inv(s) && t < |s.threads| && s.threads[t].pc == Unlink && Step(s, t, s')
    ensures t < |s'.threads| && ThreadOk(s', t, s'.threads[t]) && LinGrows(s, s') && OthersSame(s, s', t)
  {
    hide Inv;
    ThreadFacts(s, t);
    ListFacts(s, s.threads[t].prev);
  }

  lemma UnlinkOthers(s: State, t: nat, s': State)
    requires Inv(s) && t < |s.threads| && s.threads[t].pc == Unlink && Step(s, t, s')
    ensures forall u: nat, b: nat :: u < |s.threads| && u != t && Touches(s.threads[u], b) ==> SameAt(s, s', b)
  {
    hide Inv, Touches;
    ThreadFacts(s, t);
    forall u: nat, b: nat | u < |s.threads| && u != t && Touches(s.threads[u], b) ensures SameAt(s, s', b) {
      if b == s.threads[t].prev || b == s.threads[t].curr { NotTouched(s, t, u, b); }
    }
  }

  lemma UnlinkList(s: State, t: nat, s': State)
    requires Inv(s) && t < |s.threads| && s.threads[t].pc == Unlink && Step(s, t, s')
    ensures ListOk(s'.heap, s'.live, s'.succ)
    ensures Legal(s'.lin) && SetAfter(s'.lin) == Keys(s'.heap, s'.live)
  {
    hide HalfLinked, Legal, SetAfter, NodesOk, IsSucc, Keys, PointersOk, MemoryOk, OwnersOk;
    var th := s.threads[t];
    ThreadFacts(s, t);
    ListFacts(s, th.prev);
    LiveFacts(s);
    LinFacts(s);
    TestMeaning(s, t);
    LegalAppend(s.lin, Event(t, Remove, th.key, true));
    RemoveList(s.heap, s.live, s.succ, th.prev, th.curr);
    RemoveKeys(s.heap, s.live, th.curr);
    hide Inv, ThreadOk, ListOk;
    SameList(s.heap, s'.heap, s'.live, s'.succ);
  }

  lemma UnlinkRest(s: State, t: nat, s': State)
    requires Inv(s) && t < |s.threads| && s.threads[t].pc == Unlink && Step(s, t, s')
    ensures PointersOk(s') && OwnersOk(s')
  {
    hide HalfLinked, Legal, SetAfter, ListOk, Keys, PointersOk, MemoryOk, OwnersOk;
    var th := s.threads[t];
    ThreadFacts(s, t);
    ListFacts(s, th.prev);
    LockedPointer(s, th.curr);
    UnlinkPointers(s, t, s');
    OwnersKeep(s, s', t);
  }

  lemma UnlinkPointers(s: State, t: nat, s': State)
    requires PointersOk(s) && t < |s.threads| && s.threads[t].pc == Unlink && Step(s, t, s')
    requires s.threads[t].prev != s.threads[t].curr && s.threads[t].curr in s.succ
    requires s.threads[t].next == Some(s.succ[s.threads[t].curr])
    ensures PointersOk(s')
  {
    forall b: nat | HalfLinked(s, b) ensures HalfLinked(s', b) { SameHalfLinked(s, s', t, b); }
  }

  lemma UnlinkMemory(s: State, t: nat, s': State)
    requires Inv(s) && t < |s.threads| && s.threads[t].pc == Unlink && Step(s, t, s')
    ensures MemoryOk(s')
  {
    hide HalfLinked, Legal, SetAfter, ListOk, Keys, PointersOk, OwnersOk;
    var th := s.threads[t];
    ThreadFacts(s, t);
    assert Private(s'.threads[t], th.curr);
    forall u: nat | u < |s.threads| && u != t ensures !Private(s.threads[u], th.curr) { ThreadFacts(s, u); }
    forall a | a in s'.heap && a !in s'.live && a != th.curr
      ensures exists u :: 0 <= u < |s'.threads| && Private(s'.threads[u], a)
    {
      var u :| 0 <= u < |s.threads| && Private(s.threads[u], a);
      assert Private(s'.threads[u], a);
    }
  }

  // ----- memory -----

  /** Freeing removes a node nobody else can reach. */
  lemma FreeKeeps(s: State, t: nat, s': State)
    requires Inv(s) && t < |s.threads| && s.threads[t].pc == Free && Step(s, t, s')
    ensures Inv(s')
  {
    hide Inv, Legal, SetAfter, ListOk, Keys, PointersOk, MemoryOk, OwnersOk, Touches, ThreadOk, SameAt, Private, Step;
    Parts(s);
    FreeEffect(s, t, s');
    var a := FreeOthers(s, t, s');
    OthersKeep(s, t, s');
    SameLive(s, s');
    FreeMemory(s, t, s', a);
    HeapPointers(s, t, s');
    FreeOwners(s, t, s', a);
    Assemble(s');
  }

  lemma Parts(s: State)
    requires Inv(s)
    ensures PointersOk(s) && OwnersOk(s) && MemoryOk(s) && Legal(s.lin) && SetAfter(s.lin) == Keys(s.heap, s.live)
  {
    hide ListOk, PointersOk, OwnersOk, MemoryOk, Legal, SetAfter, Keys, ThreadOk;
  }

  lemma FreeOwners(s: State, t: nat, s': State, a: nat)
    requires OwnersOk(s) && OthersSame(s, s', t) && s'.heap == s.heap - {a} && s.threads[t].pc == Free
    ensures OwnersOk(s')
  { }

  /** The freed node is private to the call, and nobody else depends on it. */
  lemma Freed(s: State, t: nat, s': State) returns (a: nat)
    requires Inv(s) && t < |s.threads| && s.threads[t].pc == Free && Step(s, t, s')
    ensures Private(s.threads[t], a) && a !in s.live && s'.heap == s.heap - {a} && a in s.heap
    ensures s'.live == s.live && s'.succ == s.succ && |s'.threads| == |s.threads|
    ensures forall b: nat :: Private(s.threads[t], b) ==> b == a
    ensures t < |s'.threads| && ThreadOk(s', t, s'.threads[t])
  {
    hide Inv, Step, PrevOk, PairOk;
    FreeEffect(s, t, s');
    ThreadFacts(s, t);
    IdleThreadOk(s', t, s'.threads[t]);
    hide CurrOk;
    a := if s.threads[t].op == Add then s.threads[t].node else s.threads[t].curr;
  }

  lemma IdleThreadOk(s: State, t: nat, th: Thread)
    requires th.pc == Idle
    ensures ThreadOk(s, t, th)
  { }

  lemma FreeEffect(s: State, t: nat, s': State)
    requires t < |s.threads| && s.threads[t].pc == Free && Step(s, t, s')
    ensures var th := s.threads[t];
            var a := if th.op == Add then th.node else th.curr;
            a in s.heap && s' == Move(s, t, th.(pc := Idle)).(heap := s.heap - {a})
  { }

  lemma FreeOthers(s: State, t: nat, s': State) returns (a: nat)
    requires Inv(s) && t < |s.threads| && s.threads[t].pc == Free && Step(s, t, s')
    ensures Private(s.threads[t], a) && a !in s.live && s'.heap == s.heap - {a}
    ensures forall b: nat :: Private(s.threads[t], b) ==> b == a
    ensures forall u: nat, b: nat :: u < |s.threads| && u != t && Touches(s.threads[u], b) ==> SameAt(s, s', b)
    ensures t < |s'.threads| && ThreadOk(s', t, s'.threads[t])
  {
    hide Inv, Touches;
    a := Freed(s, t, s');
    hide Step, ThreadOk;
    forall u: nat, b: nat | u < |s.threads| && u != t && Touches(s.threads[u], b) ensures SameAt(s, s', b) {
      if b == a { NotTouched(s, t, u, b); }
    }
  }

  lemma SameLive(s: State, s': State)
    requires Inv(s) && s'.live == s.live && s'.succ == s.succ
    requires forall b :: b in s.live && b in s.heap ==> b in s'.heap && s'.heap[b] == s.heap[b]
    ensures ListOk(s'.heap, s'.live, s'.succ) && Keys(s'.heap, s'.live) == Keys(s.heap, s.live)
  {
    hide HalfLinked, Legal, SetAfter, PointersOk, MemoryOk, OwnersOk, ThreadOk;
    SameList(s.heap, s'.heap, s.live, s.succ);
  }

  lemma HeapPointers(s: State, t: nat, s': State)
    requires PointersOk(s) && OthersSame(s, s', t) && s.threads[t].pc != SetNext
    requires s'.live == s.live && s'.succ == s.succ
    requires forall b :: b in s.live && b in s'.heap ==> b in s.heap && s'.heap[b] == s.heap[b]
    ensures PointersOk(s')
  {
    forall b: nat | HalfLinked(s, b) ensures HalfLinked(s', b) { SameHalfLinked(s, s', t, b); }
  }

  lemma FreeMemory(s: State, t: nat, s': State, a: nat)
    requires MemoryOk(s) && OthersSame(s, s', t) && Private(s.threads[t], a) && s'.threads[t].pc == Idle
    requires s'.heap == s.heap - {a} && s'.live == s.live
    requires forall b: nat :: Private(s.threads[t], b) ==> b == a
    ensures MemoryOk(s')
  {
    forall b | b in s'.heap && b !in s'.live ensures exists u :: 0 <= u < |s'.threads| && Private(s'.threads[u], b) {
      var u :| 0 <= u < |s.threads| && Private(s.threads[u], b);
      assert Private(s'.threads[u], b);
    }
  }

  /** A fresh node is private to the call that allocated it. */
  lemma BeginKeeps(s: State, t: nat, op: Op, key: int, a: nat, junk: Option<nat>, s': State)
    requires Inv(s) && t < |s.threads| && Begin(s, t, op, key, a, junk, s') && key != MAX_KEY
    ensures Inv(s')
  {
    hide HalfLinked, Legal, SetAfter, ListOk, Keys, PointersOk, MemoryOk, OwnersOk, Touches;
    LiveFacts(s);
    assert ThreadOk(s', t, s'.threads[t]);
    OthersKeep(s, t, s');
    hide ThreadOk, SameAt;
    SameLive(s, s');
    BeginMemory(s, t, s', op, a);
    HeapPointers(s, t, s');
    OwnersKeep(s, s', t);
  }

  lemma BeginMemory(s: State, t: nat, s': State, op: Op, a: nat)
    requires Inv(s) && OthersSame(s, s', t) && s.threads[t].pc == Idle && s'.live == s.live
    requires s'.threads[t].pc == LockHead && s'.threads[t].op == op && s'.threads[t].node == a && !s'.threads[t].res
    requires s'.heap.Keys == if op == Add then s.heap.Keys + {a} else s.heap.Keys
    requires op == Add ==> a !in s.heap
    ensures MemoryOk(s')
  {
    hide HalfLinked, Legal, SetAfter, ListOk, Keys, PointersOk, OwnersOk;
    forall u: nat | u < |s.threads| && op == Add ensures !Private(s.threads[u], a) { ThreadFacts(s, u); }
    forall b | b in s'.heap && b !in s'.live ensures exists u :: 0 <= u < |s'.threads| && Private(s'.threads[u], b) {
      if op == Add && b == a {
        assert Private(s'.threads[t], a);
      } else {
        var u :| 0 <= u < |s.threads| && Private(s.threads[u], b);
        assert Private(s'.threads[u], b);
      }
    }
  }

  // ----- runs -----

  lemma StepKeeps(s: State, t: nat, s': State)
    requires Inv(s) && t < |s.threads| && Step(s, t, s')
    ensures Inv(s')
  {
    hide Inv, Step;
    match s.threads[t].pc
    case LockHead => LockHeadKeeps(s, t, s');
    case ReadFirst => ReadFirstKeeps(s, t, s');
    case LockCurr => LockCurrKeeps(s, t, s');
    case Test => TestKeeps(s, t, s');
    case TestKey => TestKeyKeeps(s, t, s');
    case LoadNext => LoadNextKeeps(s, t, s');
    case UnlockPrev => UnlockPrevKeeps(s, t, s');
    case Advance => AdvanceKeeps(s, t, s');
    case Publish => PublishKeeps(s, t, s');
    case SetNext => SetNextKeeps(s, t, s');
    case Unlink => UnlinkKeeps(s, t, s');
    case Release1 => Release1Keeps(s, t, s');
    case Release2 => Release2Keeps(s, t, s');
    case Free => FreeKeeps(s, t, s');
    case Idle => IdleDoesNotMove(s, t, s');
  }

  lemma IdleDoesNotMove(s: State, t: nat, s': State)
    requires t < |s.threads| && s.threads[t].pc == Idle
    ensures !Step(s, t, s')
  { }

  lemma BeginKey(s: State, t: nat, op: Op, key: int, a: nat, junk: Option<nat>, s': State)
    requires t < |s.threads| && Begin(s, t, op, key, a, junk, s')
    ensures |s'.threads| == |s.threads| && s'.threads[t].pc != Idle && s'.threads[t].key == key
  { }

  lemma InitInv(s: State)
    requires Init(s)
    ensures Inv(s)
  {
    assert Keys(s.heap, s.live) == {};
    hide Legal, SetAfter, Keys;
  }

  lemma {:induction false} RunInv(run: seq<State>, n: nat)
    requires IsRun(run) && n < |run|
    ensures Inv(run[n])
  {
    hide Inv, Step, Begin, Init;
    if n == 0 {
      InitInv(run[0]);
    } else {
      RunInv(run, n - 1);
      var s, s' := run[n - 1], run[(n - 1) + 1];
      assert Next(s, s');
      var t: nat :| Moves(s, t, s');
      if Step(s, t, s') {
        StepKeeps(s, t, s');
      } else {
        var op, key, a, junk :| Begin(s, t, op, key, a, junk, s');
        BeginKey(s, t, op, key, a, junk, s');
        assert SpareTail(s');
        BeginKeeps(s, t, op, key, a, junk, s');
      }
    }
  }
}
