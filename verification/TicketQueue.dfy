/** The multi-producer multi-consumer ring buffer: a call takes a ticket, spins until the
    round counter of its slot admits it, and hands the slot on by a plain increment. */
module TicketQueue {

  datatype Slot = Slot(key: int, flag: nat)

  /** Where a call stands.  Both tests of the spin loop read the flag separately, and the
      increment is a load followed by a store. */
  datatype Pc = FirstRead | SecondRead | Work | Clear | LoadFlag | StoreFlag

  datatype Op = Enqueue | Dequeue

  datatype Call =
    | Idle
    | Busy(op: Op, pc: Pc, ticket: nat, key: int, tmp: nat, started: nat)

  predicate IsEnq(c: Call) { c.Busy? && c.op == Enqueue }

  predicate IsDeq(c: Call) { c.Busy? && c.op == Dequeue }

  /** One operation on the abstract queue. */
  datatype Event = Put(ticket: nat, key: int) | Got(ticket: nat, key: int)

  /** `given` records the key of every enqueue in ticket order, `taken` the result of every
      finished dequeue by ticket, and `lin` the operations in the order in which they take
      effect; `started` in a call is the length of `lin` when the call began.  None of them
      influences the run. */
  datatype State = State(slots: seq<Slot>, front: nat, rear: nat, calls: seq<Call>,
                         given: seq<int>, taken: map<nat, int>, lin: seq<Event>)

  ghost predicate Init(s: State) {
    && |s.slots| > 0 && (forall x :: 0 <= x < |s.slots| ==> s.slots[x] == Slot(0, 0))
    && s.front == 0 && s.rear == 0 && s.given == [] && s.taken == map[] && s.lin == []
    && forall t :: 0 <= t < |s.calls| ==> s.calls[t] == Idle
  }

  /** The slot a ticket is for, in a buffer of `size` slots. */
  function Index(size: nat, ticket: nat): (x: nat)
    requires size > 0
    ensures x < size
  {
    ticket % size
  }

  function Round(size: nat, ticket: nat): nat
    requires size > 0
  {
    ticket / size
  }

  function Goto(s: State, t: nat, c: Call): State
    requires t < |s.calls|
  {
    s.(calls := s.calls[t := c])
  }

  /** What takes effect when an enqueue draws its ticket: the enqueue if the buffer has room for
      it, and then the dequeue with the same ticket if that is already waiting. */
  function EnqEffects(s: State, key: int): seq<Event> {
    (if s.rear < s.front + |s.slots| then [Put(s.rear, key)] else [])
    + (if s.rear < s.front then [Got(s.rear, key)] else [])
  }

  /** What takes effect when a dequeue draws its ticket: the dequeue if there is a key for it, and
      then the oldest enqueue that was waiting for room. */
  function DeqEffects(s: State): seq<Event> {
    (if s.front < |s.given| then [Got(s.front, s.given[s.front])] else [])
    + (if s.front + |s.slots| < |s.given| then [Put(s.front + |s.slots|, s.given[s.front + |s.slots|])] else [])
  }

  ghost predicate StartEnq(s: State, t: nat, key: int, s': State)
    requires t < |s.calls|
  {
    && s.calls[t] == Idle
    && s' == Goto(s, t, Busy(Enqueue, FirstRead, s.rear, key, 0, |s.lin|)).(
               rear := s.rear + 1, given := s.given + [key], lin := s.lin + EnqEffects(s, key))
  }

  ghost predicate StartDeq(s: State, t: nat, s': State)
    requires t < |s.calls|
  {
    && s.calls[t] == Idle
    && s' == Goto(s, t, Busy(Dequeue, FirstRead, s.front, 0, 0, |s.lin|)).(
               front := s.front + 1, lin := s.lin + DeqEffects(s))
  }

  ghost predicate EnqStep(s: State, t: nat, s': State)
    requires t < |s.calls| && IsEnq(s.calls[t]) && |s.slots| > 0
  {
    var c := s.calls[t];
    var x, round := Index(|s.slots|, c.ticket), Round(|s.slots|, c.ticket);
    var slot := s.slots[x];
    match c.pc
    case FirstRead => s' == Goto(s, t, c.(pc := if slot.flag % 2 == 1 then FirstRead else SecondRead))
    case SecondRead => s' == Goto(s, t, c.(pc := if slot.flag != round * 2 then FirstRead else Work))
    case Work => s' == Goto(s, t, c.(pc := LoadFlag)).(slots := s.slots[x := slot.(key := c.key)])
    case LoadFlag => s' == Goto(s, t, c.(pc := StoreFlag, tmp := slot.flag))
    case StoreFlag => s' == Goto(s, t, Idle).(slots := s.slots[x := slot.(flag := c.tmp + 1)])
    case Clear => false
  }

  ghost predicate DeqStep(s: State, t: nat, s': State)
    requires t < |s.calls| && IsDeq(s.calls[t]) && |s.slots| > 0
  {
    var c := s.calls[t];
    var x, round := Index(|s.slots|, c.ticket), Round(|s.slots|, c.ticket);
    var slot := s.slots[x];
    match c.pc
    case FirstRead => s' == Goto(s, t, c.(pc := if slot.flag % 2 == 0 then FirstRead else SecondRead))
    case SecondRead => s' == Goto(s, t, c.(pc := if slot.flag != round * 2 + 1 then FirstRead else Work))
    case Work => s' == Goto(s, t, c.(pc := Clear, key := slot.key))
    case Clear => s' == Goto(s, t, c.(pc := LoadFlag)).(slots := s.slots[x := slot.(key := 0)])
    case LoadFlag => s' == Goto(s, t, c.(pc := StoreFlag, tmp := slot.flag))
    case StoreFlag =>
      s' == Goto(s, t, Idle).(slots := s.slots[x := slot.(flag := c.tmp + 1)], taken := s.taken[c.ticket := c.key])
  }

  ghost predicate Moves(s: State, t: nat, s': State) {
    && t < |s.calls| && |s.slots| > 0
    && match s.calls[t]
       case Idle => StartDeq(s, t, s') || exists key :: StartEnq(s, t, key, s')
       case Busy(op, _, _, _, _, _) => if op == Enqueue then EnqStep(s, t, s') else DeqStep(s, t, s')
  }

  ghost predicate Next(s: State, s': State) {
    exists t: nat :: Moves(s, t, s')
  }

  ghost predicate IsRun(run: seq<State>) {
    && |run| > 0 && Init(run[0])
    && forall n :: 0 <= n < |run| - 1 ==> Next(run[n], run[n + 1])
  }

  // ----- the invariant -----

  /** Past the spin loop: the call believes it owns its slot. */
  predicate Owns(c: Call) {
    c != Idle && c.pc != FirstRead && c.pc != SecondRead
  }

  /** The value of the slot's flag at which a call is admitted. */
  function Admits(s: State, c: Call): nat
    requires |s.slots| > 0 && c != Idle
  {
    2 * Round(|s.slots|, c.ticket) + (if IsEnq(c) then 0 else 1)
  }

  function FlagOf(s: State, ticket: nat): nat
    requires |s.slots| > 0
  {
    s.slots[Index(|s.slots|, ticket)].flag
  }

  ghost predicate EnqOk(s: State, c: Call, slot: Slot)
    requires c != Idle
  {
    && c.ticket < |s.given| && s.given[c.ticket] == c.key && c.pc != Clear
    && (c.pc == LoadFlag || c.pc == StoreFlag ==> slot.key == c.key)
  }

  ghost predicate DeqOk(s: State, c: Call, slot: Slot)
    requires c != Idle
  {
    && c.ticket < s.front
    && (c.pc == Work || c.pc == Clear ==> c.ticket < |s.given| && slot.key == s.given[c.ticket])
    && (Owns(c) && c.pc != Work ==> c.ticket < |s.given| && c.key == s.given[c.ticket])
    && (c.pc == LoadFlag || c.pc == StoreFlag ==> slot.key == 0)
  }

  ghost predicate CallOk(s: State, c: Call)
    requires |s.slots| > 0
  {
    c != Idle ==>
      var slot := s.slots[Index(|s.slots|, c.ticket)];
      && slot.flag <= Admits(s, c)
      && (Owns(c) ==> slot.flag == Admits(s, c))
      && (c.pc == StoreFlag ==> c.tmp == slot.flag)
      && (if IsEnq(c) then EnqOk(s, c, slot) else DeqOk(s, c, slot))
  }

  predicate SameKind(c: Call, d: Call) { c.Busy? && d.Busy? && c.op == d.op }

  /** Tickets are not shared among the calls of one kind. */
  ghost predicate TicketsDistinct(s: State) {
    forall t, u :: 0 <= t < u < |s.calls| && SameKind(s.calls[t], s.calls[u]) ==> s.calls[t].ticket != s.calls[u].ticket
  }

  /** Every issued ticket is held by a call or has been served. */
  ghost predicate TicketsServed(s: State)
    requires |s.slots| > 0
  {
    && (forall k: nat :: k < s.rear ==> FlagOf(s, k) > 2 * Round(|s.slots|, k) || HasEnq(s, k))
    && (forall k: nat :: k < s.front ==> FlagOf(s, k) > 2 * Round(|s.slots|, k) + 1 || HasDeq(s, k))
    && (forall k: nat :: k < s.front ==> k in s.taken || HasDeq(s, k))
  }

  ghost predicate HasEnq(s: State, k: nat) {
    exists t :: 0 <= t < |s.calls| && IsEnq(s.calls[t]) && s.calls[t].ticket == k
  }

  ghost predicate HasDeq(s: State, k: nat) {
    exists t :: 0 <= t < |s.calls| && IsDeq(s.calls[t]) && s.calls[t].ticket == k
  }

  /** A dequeue that has already cleared its slot. */
  predicate Cleared(c: Call) {
    IsDeq(c) && (c.pc == LoadFlag || c.pc == StoreFlag)
  }

  /** The slot holds the key with this ticket, unless the dequeue with the same ticket has
      just cleared it. */
  ghost predicate FullAt(s: State, k: nat)
    requires |s.slots| > 0 && k < |s.given|
  {
    || s.slots[Index(|s.slots|, k)].key == s.given[k]
    || exists t :: 0 <= t < |s.calls| && Cleared(s.calls[t]) && s.calls[t].ticket == k
  }

  /** A full slot holds the key of the enqueue whose round it is in. */
  ghost predicate SlotsFull(s: State)
    requires |s.slots| > 0
  {
    forall k: nat :: FlagOf(s, k) == 2 * Round(|s.slots|, k) + 1 ==>
      k < |s.given| && FullAt(s, k)
  }

  /** The enqueue for this slot has written its key and not yet said so. */
  ghost predicate Filling(s: State, x: nat)
    requires |s.slots| > 0
  {
    exists t :: 0 <= t < |s.calls| && IsEnq(s.calls[t]) && (s.calls[t].pc == LoadFlag || s.calls[t].pc == StoreFlag)
                && Index(|s.slots|, s.calls[t].ticket) == x
  }

  /** An empty slot holds no key. */
  ghost predicate SlotsEmpty(s: State)
    requires |s.slots| > 0
  {
    forall x: nat :: x < |s.slots| && s.slots[x].flag % 2 == 0 ==> s.slots[x].key == 0 || Filling(s, x)
  }

  /** No slot runs ahead of the tickets issued for it. */
  ghost predicate TicketsAhead(s: State)
    requires |s.slots| > 0
  {
    && (forall k: nat :: k >= s.rear ==> FlagOf(s, k) <= 2 * Round(|s.slots|, k))
    && (forall k: nat :: k >= s.front ==> FlagOf(s, k) <= 2 * Round(|s.slots|, k) + 1)
  }

  /** Every dequeue so far has returned the key with its own ticket number. */
  ghost predicate Delivered(s: State) {
    forall k :: k in s.taken ==> k < |s.given| && s.taken[k] == s.given[k]
  }

  ghost predicate Inv(s: State) {
    && |s.slots| > 0 && |s.given| == s.rear
    && (forall t :: 0 <= t < |s.calls| ==> CallOk(s, s.calls[t]))
    && TicketsDistinct(s) && TicketsServed(s) && TicketsAhead(s) && SlotsFull(s) && SlotsEmpty(s) && Delivered(s)
    && (forall t :: 0 <= t < |s.calls| && IsDeq(s.calls[t]) ==> s.calls[t].ticket !in s.taken)
    && (forall k :: k in s.taken ==> k < s.front)
  }

  /** Slot and round determine the ticket. */
  lemma SameTicket(size: nat, k: nat, m: nat)
    requires size > 0 && Index(size, k) == Index(size, m) && Round(size, k) == Round(size, m)
    ensures k == m
  {
    assert k == size * Round(size, k) + Index(size, k);
    assert m == size * Round(size, m) + Index(size, m);
  }

  /** Exclusive ownership: two calls past their spin loops never work on the same slot. */
  lemma OneOwner(s: State, t: nat, u: nat)
    requires Inv(s) && t < |s.calls| && u < |s.calls| && t != u && Owns(s.calls[t]) && Owns(s.calls[u])
    ensures Index(|s.slots|, s.calls[t].ticket) != Index(|s.slots|, s.calls[u].ticket)
  {
    hide TicketsServed, SlotsFull, SlotsEmpty, Delivered;
    var c, d := s.calls[t], s.calls[u];
    assert CallOk(s, c) && CallOk(s, d);
    if Index(|s.slots|, c.ticket) == Index(|s.slots|, d.ticket) {
      assert Admits(s, c) == Admits(s, d);
      assert IsEnq(c) == IsEnq(d) && Round(|s.slots|, c.ticket) == Round(|s.slots|, d.ticket);
      SameTicket(|s.slots|, c.ticket, d.ticket);
      assert false;
    }
  }

  lemma MulMono(a: nat, b: nat, c: nat)
    ensures b <= c ==> a * b <= a * c
  { }

  /** Of two tickets for one slot the later one belongs to a later round. */
  lemma LaterRound(size: nat, k: nat, m: nat)
    requires size > 0 && Index(size, k) == Index(size, m) && k < m
    ensures Round(size, k) < Round(size, m)
  {
    assert k == size * Round(size, k) + Index(size, k);
    assert m == size * Round(size, m) + Index(size, m);
    MulMono(size, Round(size, m), Round(size, k));
  }

  // ----- every step keeps the invariant -----

  lemma InitInv(s: State)
    requires Init(s)
    ensures Inv(s)
  {
    forall k: nat ensures FlagOf(s, k) != 2 * Round(|s.slots|, k) + 1 { }
  }

  /** How the moving call, the ticket counters and the results may change in a step. */
  ghost predicate CallShape(s: State, c: Call, s': State, c': Call) {
    match c
    case Idle =>
      && c'.Busy? && c'.pc == FirstRead && s'.taken == s.taken
      && c'.ticket == (if c'.op == Enqueue then s.rear else s.front)
      && s'.rear == s.rear + (if c'.op == Enqueue then 1 else 0)
      && s'.front == s.front + (if c'.op == Enqueue then 0 else 1)
    case Busy(op, pc, ticket, key, _, _) =>
      && s'.rear == s.rear && s'.front == s.front
      && (if pc == StoreFlag then c' == Idle else SameKind(c, c') && c'.ticket == ticket)
      && s'.taken == (if pc == StoreFlag && op == Dequeue then s.taken[ticket := key] else s.taken)
  }

  /** A step changes one call, and at most the slot of that call. */
  lemma StepShape(s: State, t: nat, s': State)
    requires Inv(s) && Moves(s, t, s')
    ensures |s'.slots| == |s.slots| && |s'.calls| == |s.calls| && s.given <= s'.given
    ensures forall u :: 0 <= u < |s.calls| && u != t ==> s'.calls[u] == s.calls[u]
    ensures s.calls[t] == Idle ==> s'.slots == s.slots
    ensures s.calls[t] != Idle ==>
              forall x :: 0 <= x < |s.slots| && x != Index(|s.slots|, s.calls[t].ticket) ==> s'.slots[x] == s.slots[x]
    ensures forall x :: 0 <= x < |s.slots| && s'.slots[x] != s.slots[x] ==> Owns(s.calls[t])
    ensures t < |s.calls| && |s'.given| == s'.rear && CallShape(s, s.calls[t], s', s'.calls[t])
  {
    hide Inv, Moves, CallShape;
    assert |s.given| == s.rear by { GivenLength(s); }
    SlotsShape(s, t, s');
    CallsShape(s, t, s');
  }

  lemma GivenLength(s: State)
    requires Inv(s)
    ensures |s.given| == s.rear
  { }

  lemma SlotsShape(s: State, t: nat, s': State)
    requires Moves(s, t, s')
    ensures |s'.slots| == |s.slots| && |s'.calls| == |s.calls| && t < |s.calls|
    ensures s.calls[t] == Idle ==> s'.slots == s.slots
    ensures s.calls[t] != Idle ==>
              forall x :: 0 <= x < |s.slots| && x != Index(|s.slots|, s.calls[t].ticket) ==> s'.slots[x] == s.slots[x]
    ensures forall x :: 0 <= x < |s.slots| && s'.slots[x] != s.slots[x] ==> Owns(s.calls[t])
  {
    hide Index, Round, EnqEffects, DeqEffects;
  }

  lemma CallsShape(s: State, t: nat, s': State)
    requires Moves(s, t, s') && |s.given| == s.rear
    ensures |s'.calls| == |s.calls| && s.given <= s'.given && |s'.given| == s'.rear && t < |s.calls|
    ensures forall u :: 0 <= u < |s.calls| && u != t ==> s'.calls[u] == s.calls[u]
    ensures CallShape(s, s.calls[t], s', s'.calls[t])
  {
    hide Index, Round, EnqEffects, DeqEffects;
  }

  /** Flags only grow, and only the owner's store makes one grow, by one. */
  lemma FlagsGrow(s: State, t: nat, s': State, x: nat)
    requires Inv(s) && Moves(s, t, s') && x < |s.slots|
    ensures |s'.slots| == |s.slots|
    ensures if s.calls[t] != Idle && s.calls[t].pc == StoreFlag && x == Index(|s.slots|, s.calls[t].ticket)
            then s'.slots[x].flag == s.slots[x].flag + 1 && s.slots[x].flag == Admits(s, s.calls[t])
            else s'.slots[x].flag == s.slots[x].flag
  {
    hide Index, Round, TicketsServed, TicketsAhead, SlotsFull, SlotsEmpty, TicketsDistinct;
    assert t < |s.calls| && CallOk(s, s.calls[t]);
  }

  lemma OtherCallOk(s: State, t: nat, s': State, u: nat)
    requires Inv(s) && Moves(s, t, s') && u < |s.calls| && u != t
    ensures |s'.slots| == |s.slots| && CallOk(s', s.calls[u])
  {
    hide Index, Round, TicketsServed, TicketsAhead, SlotsFull, SlotsEmpty, Moves;
    StepShape(s, t, s');
    var c, d := s.calls[t], s.calls[u];
    assert CallOk(s, c) && CallOk(s, d);
    if d != Idle {
      var x := Index(|s.slots|, d.ticket);
      FlagsGrow(s, t, s', x);
      if s'.slots[x] != s.slots[x] {
        if Owns(d) { OneOwner(s, t, u); }
        if s'.slots[x].flag != s.slots[x].flag && c.op == d.op
           && Round(|s.slots|, c.ticket) == Round(|s.slots|, d.ticket) {
          SameTicket(|s.slots|, c.ticket, d.ticket);
        }
      }
    }
  }

  lemma OwnCallOk(s: State, t: nat, s': State)
    requires Inv(s) && Moves(s, t, s')
    ensures |s'.slots| == |s.slots| && |s'.calls| == |s.calls| && CallOk(s', s'.calls[t])
  {
    hide Index, Round, TicketsServed, SlotsEmpty, Delivered, EnqEffects, DeqEffects;
    assert CallOk(s, s.calls[t]);
  }

  lemma DistinctKeeps(s: State, t: nat, s': State)
    requires Inv(s) && Moves(s, t, s')
    ensures TicketsDistinct(s')
  {
    hide Index, Round, TicketsServed, TicketsAhead, SlotsFull, SlotsEmpty, Moves, Delivered;
    StepShape(s, t, s');
    forall u, v | 0 <= u < v < |s'.calls| && SameKind(s'.calls[u], s'.calls[v])
      ensures s'.calls[u].ticket != s'.calls[v].ticket
    {
      assert CallOk(s, s.calls[u]) && CallOk(s, s.calls[v]);
    }
  }

  lemma AheadKeeps(s: State, t: nat, s': State)
    requires Inv(s) && Moves(s, t, s')
    ensures |s'.slots| == |s.slots| && TicketsAhead(s')
  {
    hide Index, Round, TicketsServed, TicketsDistinct, SlotsFull, SlotsEmpty, Moves;
    StepShape(s, t, s');
    forall k: nat | k >= s'.front || k >= s'.rear
      ensures k >= s'.rear ==> FlagOf(s', k) <= 2 * Round(|s.slots|, k)
      ensures k >= s'.front ==> FlagOf(s', k) <= 2 * Round(|s.slots|, k) + 1
    {
      FlagsGrow(s, t, s', Index(|s.slots|, k));
      var c := s.calls[t];
      if FlagOf(s', k) != FlagOf(s, k) {
        assert CallOk(s, c);
        if c.ticket < k { LaterRound(|s.slots|, c.ticket, k); }
      }
    }
  }

  lemma ServedKeeps(s: State, t: nat, s': State)
    requires Inv(s) && Moves(s, t, s')
    ensures |s'.slots| == |s.slots| && TicketsServed(s')
  {
    hide Index, Round, TicketsAhead, TicketsDistinct, SlotsFull, SlotsEmpty, Moves, Delivered;
    StepShape(s, t, s');
    forall k: nat | k < s'.rear ensures FlagOf(s', k) > 2 * Round(|s.slots|, k) || HasEnq(s', k) {
      FlagsGrow(s, t, s', Index(|s.slots|, k));
      if k == s.rear {
        assert IsEnq(s'.calls[t]) && s'.calls[t].ticket == k;
      } else if FlagOf(s, k) <= 2 * Round(|s.slots|, k) {
        var u :| 0 <= u < |s.calls| && IsEnq(s.calls[u]) && s.calls[u].ticket == k;
        assert s'.calls[u] != Idle ==> IsEnq(s'.calls[u]) && s'.calls[u].ticket == k;
        assert CallOk(s, s.calls[u]);
      }
    }
    forall k: nat | k < s'.front
      ensures FlagOf(s', k) > 2 * Round(|s.slots|, k) + 1 || HasDeq(s', k)
      ensures k in s'.taken || HasDeq(s', k)
    {
      FlagsGrow(s, t, s', Index(|s.slots|, k));
      if k == s.front {
        assert IsDeq(s'.calls[t]) && s'.calls[t].ticket == k;
      } else if HasDeq(s, k) {
        var u :| 0 <= u < |s.calls| && IsDeq(s.calls[u]) && s.calls[u].ticket == k;
        assert s'.calls[u] != Idle ==> IsDeq(s'.calls[u]) && s'.calls[u].ticket == k;
        assert CallOk(s, s.calls[u]);
      }
    }
  }

  lemma FullKeepsAt(s: State, t: nat, s': State, k: nat)
    requires Inv(s) && Moves(s, t, s')
    requires |s'.slots| == |s.slots| && FlagOf(s', k) == 2 * Round(|s.slots|, k) + 1
    ensures k < |s'.given| && FullAt(s', k)
  {
    hide Index, Round, TicketsAhead, TicketsDistinct, TicketsServed, Delivered;
    var c, x := s.calls[t], Index(|s.slots|, k);
    assert CallOk(s, c);
    FlagsGrow(s, t, s', x);
    if c != Idle && Owns(c) && Index(|s.slots|, c.ticket) == x {
      if Round(|s.slots|, k) == Round(|s.slots|, c.ticket) { SameTicket(|s.slots|, c.ticket, k); }
      assert c.ticket == k;
      assert c.pc == Clear || c.pc == LoadFlag ==> s'.calls[t].ticket == k;
    } else {
      assert FullAt(s, k);
      if u :| 0 <= u < |s.calls| && Cleared(s.calls[u]) && s.calls[u].ticket == k {
        assert CallOk(s, s.calls[u]);
        assert s'.calls[u] == s.calls[u];
      }
    }
  }

  lemma FullKeeps(s: State, t: nat, s': State)
    requires Inv(s) && Moves(s, t, s')
    ensures |s'.slots| == |s.slots| && SlotsFull(s')
  {
    hide Index, Round, TicketsAhead, TicketsDistinct, TicketsServed, Moves;
    StepShape(s, t, s');
    forall k: nat | FlagOf(s', k) == 2 * Round(|s.slots|, k) + 1 ensures k < |s'.given| && FullAt(s', k) {
      FullKeepsAt(s, t, s', k);
    }
  }

  lemma EmptyKeepsAt(s: State, t: nat, s': State, x: nat)
    requires Inv(s) && Moves(s, t, s') && x < |s.slots| == |s'.slots| && s'.slots[x].flag % 2 == 0
    ensures s'.slots[x].key == 0 || Filling(s', x)
  {
    hide Index, Round, TicketsAhead, TicketsDistinct, TicketsServed, SlotsFull, Delivered, EnqEffects, DeqEffects;
    var c := s.calls[t];
    assert CallOk(s, c);
    FlagsGrow(s, t, s', x);
    if c != Idle && Owns(c) && Index(|s.slots|, c.ticket) == x {
      if IsEnq(c) && (c.pc == Work || c.pc == LoadFlag) { assert IsEnq(s'.calls[t]) && s'.calls[t].ticket == c.ticket; }
    } else if Filling(s, x) {
      var u :| 0 <= u < |s.calls| && IsEnq(s.calls[u]) && (s.calls[u].pc == LoadFlag || s.calls[u].pc == StoreFlag)
               && Index(|s.slots|, s.calls[u].ticket) == x;
      assert s'.calls[u] == s.calls[u];
    }
  }

  lemma EmptyKeeps(s: State, t: nat, s': State)
    requires Inv(s) && Moves(s, t, s')
    ensures |s'.slots| == |s.slots| && SlotsEmpty(s')
  {
    hide Index, Round, TicketsAhead, TicketsDistinct, TicketsServed, SlotsFull, Moves, Filling;
    StepShape(s, t, s');
    forall x: nat | x < |s.slots| && s'.slots[x].flag % 2 == 0 ensures s'.slots[x].key == 0 || Filling(s', x) {
      EmptyKeepsAt(s, t, s', x);
    }
  }

  lemma NextKeeps(s: State, s': State)
    requires Inv(s) && Next(s, s')
    ensures Inv(s')
  {
    hide Index, Round, TicketsAhead, TicketsDistinct, TicketsServed, SlotsFull, SlotsEmpty;
    var t: nat :| Moves(s, t, s');
    StepShape(s, t, s');
    OwnCallOk(s, t, s');
    forall u: nat | u < |s.calls| && u != t ensures CallOk(s', s'.calls[u]) { OtherCallOk(s, t, s', u); }
    DistinctKeeps(s, t, s');
    ServedKeeps(s, t, s');
    AheadKeeps(s, t, s');
    FullKeeps(s, t, s');
    EmptyKeeps(s, t, s');
    ReturnKeeps(s, t, s');
  }

  /** What a dequeue returns is the key of its own ticket, and it returns once. */
  lemma ReturnKeeps(s: State, t: nat, s': State)
    requires Inv(s) && Moves(s, t, s')
    ensures Delivered(s')
    ensures forall u :: 0 <= u < |s'.calls| && IsDeq(s'.calls[u]) ==> s'.calls[u].ticket !in s'.taken
    ensures forall k :: k in s'.taken ==> k < s'.front
  {
    hide Index, Round, TicketsAhead, TicketsServed, SlotsFull, SlotsEmpty, Moves;
    StepShape(s, t, s');
    assert CallOk(s, s.calls[t]);
  }

  lemma {:induction false} RunInv(run: seq<State>, n: nat)
    requires IsRun(run) && n < |run|
    ensures Inv(run[n])
  {
    hide Inv, Next;
    if n == 0 {
      InitInv(run[0]);
    } else {
      RunInv(run, n - 1);
      assert Next(run[n - 1], run[n - 1 + 1]);
      NextKeeps(run[n - 1], run[n]);
    }
  }

  // ----- what every run satisfies -----

  /** A finished dequeue has returned the key that the enqueue with the same ticket was given. */
  lemma FirstInFirstOut(run: seq<State>, n: nat, k: nat)
    requires IsRun(run) && n < |run| && k in run[n].taken
    ensures k < |run[n].given| && run[n].taken[k] == run[n].given[k]
  {
    hide IsRun;
    RunInv(run, n);
  }

  /** Two calls past their spin loops never work on the same slot. */
  lemma SlotsExclusive(run: seq<State>, n: nat, t: nat, u: nat)
    requires IsRun(run) && n < |run| && t < |run[n].calls| && u < |run[n].calls| && t != u
    requires Owns(run[n].calls[t]) && Owns(run[n].calls[u])
    ensures |run[n].slots| > 0
    ensures Index(|run[n].slots|, run[n].calls[t].ticket) != Index(|run[n].slots|, run[n].calls[u].ticket)
  {
    hide IsRun;
    RunInv(run, n);
    OneOwner(run[n], t, u);
  }

  ghost predicate AtRest(s: State) {
    forall t :: 0 <= t < |s.calls| ==> s.calls[t] == Idle
  }

  lemma RestCounters(s: State)
    requires Inv(s) && AtRest(s)
    ensures s.front <= s.rear <= s.front + |s.slots| && s.taken == (map k: nat | k < s.front :: s.given[k])
  {
    hide Index, Round, TicketsDistinct, SlotsFull, SlotsEmpty, CallOk;
    if s.front > 0 { assert s.front - 1 in s.taken; }
    if s.rear > |s.slots| {
      var k: nat := s.rear - 1;
      OneRoundEarlier(|s.slots|, k);
      assert FlagOf(s, k) > 2 * Round(|s.slots|, k);
    }
  }

  lemma RestFull(s: State, k: nat)
    requires Inv(s) && AtRest(s) && s.front <= k < s.rear
    ensures s.slots[Index(|s.slots|, k)].key == s.given[k]
  {
    hide Index, Round, TicketsDistinct, SlotsEmpty, CallOk;
    assert FlagOf(s, k) == 2 * Round(|s.slots|, k) + 1;
    assert FullAt(s, k);
  }

  lemma RestEmpty(s: State, k: nat)
    requires Inv(s) && AtRest(s) && s.rear <= k < s.front + |s.slots|
    ensures s.slots[Index(|s.slots|, k)].key == 0
  {
    hide Index, Round, TicketsDistinct, SlotsFull, CallOk;
    FirstRound(|s.slots|, k);
    if k >= |s.slots| {
      OneRoundEarlier(|s.slots|, k);
      assert FlagOf(s, k - |s.slots|) > 2 * Round(|s.slots|, k - |s.slots|) + 1;
    }
    assert FlagOf(s, k) == 2 * Round(|s.slots|, k);
    assert !Filling(s, Index(|s.slots|, k));
  }

  /** Nothing is lost or invented: with no call in progress the results of the dequeues are
      the oldest keys in order, the buffer holds the others in order, and every other slot is
      empty. */
  lemma AtRestContents(run: seq<State>, n: nat)
    requires IsRun(run) && n < |run| && AtRest(run[n])
    ensures var s := run[n];
            && |s.slots| > 0 && |s.given| == s.rear && s.front <= s.rear <= s.front + |s.slots|
            && s.taken == (map k: nat | k < s.front :: s.given[k])
            && (forall k: nat :: s.front <= k < s.rear ==> s.slots[Index(|s.slots|, k)].key == s.given[k])
            && (forall k: nat :: s.rear <= k < s.front + |s.slots| ==> s.slots[Index(|s.slots|, k)].key == 0)
  {
    hide IsRun, AtRest, CallOk, Index, Round, TicketsDistinct, TicketsServed, TicketsAhead, SlotsFull, SlotsEmpty;
    RunInv(run, n);
    var s := run[n];
    RestCounters(s);
    forall k: nat | s.front <= k < s.rear ensures s.slots[Index(|s.slots|, k)].key == s.given[k] { RestFull(s, k); }
    forall k: nat | s.rear <= k < s.front + |s.slots| ensures s.slots[Index(|s.slots|, k)].key == 0 { RestEmpty(s, k); }
  }

  lemma FirstRound(size: nat, k: nat)
    requires size > 0
    ensures k < size ==> Round(size, k) == 0
  { }

  lemma OneRoundEarlier(size: nat, k: nat)
    requires 0 < size <= k
    ensures Index(size, k - size) == Index(size, k) && Round(size, k - size) == Round(size, k) - 1
  {
    assert k == size * Round(size, k) + Index(size, k);
    var m := k - size;
    assert m == size * (Round(size, k) - 1) + Index(size, k);
    Unique(size, m, Round(size, k) - 1, Index(size, k));
  }

  lemma Unique(size: nat, m: nat, q: nat, r: nat)
    requires size > 0 && m == size * q + r && r < size
    ensures m / size == q && m % size == r
  {
    assert m == size * (m / size) + m % size;
    MulMono(size, m / size + 1, q);
    MulMono(size, q + 1, m / size);
  }

  /** The call will not spin: it is past its tests, or its slot is at the value it waits for. */
  predicate Ready(s: State, c: Call) {
    |s.slots| > 0 && c != Idle && (Owns(c) || FlagOf(s, c.ticket) == Admits(s, c))
  }

  /** The steps a call has left when nothing holds it up. */
  function StepsLeft(c: Call): nat {
    match c
    case Idle => 0
    case Busy(_, pc, _, _, _, _) =>
      match pc
      case FirstRead => 6
      case SecondRead => 5
      case Work => 4
      case Clear => 3
      case LoadFlag => 2
      case StoreFlag => 1
  }

  /** A ready call gets nearer its end with each of its own steps, and stays ready. */
  lemma ReadyAdvances(s: State, t: nat, s': State)
    requires Inv(s) && t < |s.calls| && Ready(s, s.calls[t]) && Moves(s, t, s')
    ensures |s'.calls| == |s.calls| && StepsLeft(s'.calls[t]) < StepsLeft(s.calls[t])
    ensures s'.calls[t] != Idle ==> Ready(s', s'.calls[t])
  {
    hide Index, Round, TicketsServed, TicketsAhead, TicketsDistinct, SlotsFull, SlotsEmpty, Delivered;
    assert CallOk(s, s.calls[t]);
  }

  /** No step of another call makes a ready call wait again. */
  lemma ReadyStays(s: State, t: nat, s': State, u: nat)
    requires Inv(s) && u < |s.calls| && u != t && Ready(s, s.calls[u]) && Moves(s, t, s')
    ensures |s'.calls| == |s.calls| && s'.calls[u] == s.calls[u] && Ready(s', s'.calls[u])
  {
    hide Index, Round, TicketsServed, TicketsAhead, SlotsFull, SlotsEmpty, Delivered, Moves;
    StepShape(s, t, s');
    var c, d := s.calls[t], s.calls[u];
    assert CallOk(s, c) && CallOk(s, d);
    FlagsGrow(s, t, s', Index(|s.slots|, d.ticket));
    if c != Idle && c.op == d.op && Index(|s.slots|, c.ticket) == Index(|s.slots|, d.ticket)
       && Round(|s.slots|, c.ticket) == Round(|s.slots|, d.ticket) {
      SameTicket(|s.slots|, c.ticket, d.ticket);
    }
  }

  /** The call of one kind with the least ticket. */
  lemma {:induction false} Least(s: State, op: Op, n: nat) returns (t: nat)
    requires n <= |s.calls| && exists u :: 0 <= u < n && s.calls[u].Busy? && s.calls[u].op == op
    ensures t < n && s.calls[t].Busy? && s.calls[t].op == op
    ensures forall u :: 0 <= u < n && s.calls[u].Busy? && s.calls[u].op == op ==> s.calls[t].ticket <= s.calls[u].ticket
  {
    var c := s.calls[n - 1];
    if exists u :: 0 <= u < n - 1 && s.calls[u].Busy? && s.calls[u].op == op {
      t := Least(s, op, n - 1);
      if c.Busy? && c.op == op && c.ticket < s.calls[t].ticket { t := n - 1; }
    } else {
      t := n - 1;
    }
  }

  /** The oldest enqueue in progress is held up only by the dequeue one round before it. */
  lemma OldestEnq(s: State, t: nat)
    requires Inv(s) && t < |s.calls| && IsEnq(s.calls[t]) && !Ready(s, s.calls[t])
    requires forall u :: 0 <= u < |s.calls| && IsEnq(s.calls[u]) ==> s.calls[t].ticket <= s.calls[u].ticket
    ensures s.calls[t].ticket >= |s.slots|
    ensures FlagOf(s, s.calls[t].ticket - |s.slots|) == 2 * Round(|s.slots|, s.calls[t].ticket - |s.slots|) + 1
  {
    hide TicketsAhead, TicketsDistinct, SlotsFull, SlotsEmpty, Delivered;
    var k: nat := s.calls[t].ticket;
    assert CallOk(s, s.calls[t]);
    hide Index, Round;
    FirstRound(|s.slots|, k);
    OneRoundEarlier(|s.slots|, k);
    assert !HasEnq(s, k - |s.slots|);
  }

  /** The oldest dequeue in progress is held up only by the enqueue with its own ticket. */
  lemma OldestDeq(s: State, t: nat)
    requires Inv(s) && t < |s.calls| && IsDeq(s.calls[t]) && !Ready(s, s.calls[t])
    ensures s.calls[t].ticket >= s.rear || HasEnq(s, s.calls[t].ticket)
  {
    hide Index, Round, TicketsAhead, TicketsDistinct, SlotsFull, SlotsEmpty, Delivered;
    assert CallOk(s, s.calls[t]);
  }

  ghost predicate NoneReady(s: State) {
    forall t :: 0 <= t < |s.calls| ==> !Ready(s, s.calls[t])
  }

  lemma EnqueuesWait(s: State, t: nat)
    requires Inv(s) && NoneReady(s) && t < |s.calls| && IsEnq(s.calls[t])
    ensures forall u :: 0 <= u < |s.calls| ==> !IsDeq(s.calls[u])
    ensures s.rear > s.front + |s.slots|
  {
    hide Ready, Index, Round, TicketsAhead, TicketsDistinct, SlotsFull, SlotsEmpty, Delivered;
    var e := Least(s, Enqueue, |s.calls|);
    OldestEnq(s, e);
    assert CallOk(s, s.calls[e]);
    forall u | 0 <= u < |s.calls| ensures !IsDeq(s.calls[u]) {
      if IsDeq(s.calls[u]) {
        var d := Least(s, Dequeue, |s.calls|);
        OldestDeq(s, d);
      }
    }
    assert !HasDeq(s, s.calls[e].ticket - |s.slots|);
  }

  lemma DequeuesWait(s: State, t: nat)
    requires Inv(s) && NoneReady(s) && t < |s.calls| && IsDeq(s.calls[t])
    requires forall u :: 0 <= u < |s.calls| ==> !IsEnq(s.calls[u])
    ensures s.front > s.rear
  {
    hide Ready, Index, Round, TicketsServed, TicketsAhead, TicketsDistinct, SlotsFull, SlotsEmpty, Delivered;
    OldestDeq(s, t);
    assert CallOk(s, s.calls[t]);
  }

  /** Whenever calls are in progress one of them is ready, unless they are all enqueues and
      more keys have been offered than the buffer has room for, or all dequeues and more keys
      have been asked for than offered. */
  lemma NeverStuck(run: seq<State>, n: nat)
    requires IsRun(run) && n < |run| && !AtRest(run[n])
    ensures var s := run[n];
            || (exists t :: 0 <= t < |s.calls| && Ready(s, s.calls[t]))
            || ((forall t :: 0 <= t < |s.calls| ==> !IsDeq(s.calls[t])) && s.rear > s.front + |s.slots|)
            || ((forall t :: 0 <= t < |s.calls| ==> !IsEnq(s.calls[t])) && s.front > s.rear)
  {
    hide IsRun, Ready, Inv;
    RunInv(run, n);
    var s := run[n];
    if NoneReady(s) {
      if t: nat :| t < |s.calls| && IsEnq(s.calls[t]) {
        EnqueuesWait(s, t);
      } else {
        var d: nat :| d < |s.calls| && s.calls[d] != Idle;
        DequeuesWait(s, d);
      }
    }
  }
}
