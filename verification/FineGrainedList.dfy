/** The sorted linked list with one mutex per node and hand-over-hand locking, as a state
    machine: every lock, unlock, pointer read, pointer write, malloc and free is a step,
    and any thread may move at any time. */
module FineGrainedList {
  import opened Options

  const MIN_KEY: int := -0x8000_0000
  const MAX_KEY: int := 0x7fff_ffff

  /** The addresses of the two sentinels. */
  const HEAD: nat := 0
  const TAIL: nat := 1

  /** `owner` is the thread that has locked the node's mutex. */
  datatype Node = Node(key: int, next: Option<nat>, owner: Option<nat>)

  datatype Op = Add | Remove | Contains

  datatype Pc =
    | Idle
    | LockHead    // lock the head node
    | ReadFirst   // curr = head->next
    | LockCurr    // lock curr
    | Test        // the loop test: curr->key < key
    | UnlockPrev  // in the loop: unlock prev
    | Advance     // in the loop: prev = curr, curr = curr->next
    | TestKey     // behind the loop: curr->key == key
    | Publish     // prev->next = node
    | SetNext     // node->next = curr
    | LoadNext    // read curr->next
    | Unlink      // prev->next = what was read
    | Release1    // unlock prev
    | Release2    // unlock curr
    | Free        // free the node nobody can reach

  /** `started` and `at` do not influence the run: the length of the linearization when the
      call began, and the position of the call in it once it took effect. */
  datatype Thread = Thread(pc: Pc, op: Op, key: int, prev: nat, curr: nat, node: nat, next: Option<nat>, res: bool,
                           started: nat, at: Option<nat>)

  /** One operation on the abstract set, with its result. */
  datatype Event = Event(tid: nat, op: Op, key: int, res: bool)

  /** `heap` maps allocated addresses to nodes.  The last three fields are auxiliary: the
      nodes that are logically in the list, their logical order, and the operations in the
      order in which they took effect. */
  datatype State = State(heap: map<nat, Node>, threads: seq<Thread>,
                         live: set<nat>, succ: map<nat, nat>, lin: seq<Event>)

  predicate HoldsPrev(pc: Pc) {
    pc == ReadFirst || pc == LockCurr || pc == Test || pc == UnlockPrev || pc == TestKey || pc == Publish
    || pc == SetNext || pc == LoadNext || pc == Unlink || pc == Release1
  }

  predicate HoldsCurr(pc: Pc) {
    pc == Test || pc == UnlockPrev || pc == Advance || pc == TestKey || pc == Publish || pc == SetNext
    || pc == LoadNext || pc == Unlink || pc == Release1 || pc == Release2
  }

  predicate Holds(th: Thread, a: nat) {
    (HoldsPrev(th.pc) && th.prev == a) || (HoldsCurr(th.pc) && th.curr == a)
  }

  // ----- the abstract set -----

  function Apply(s: set<int>, e: Event): set<int> {
    match e.op
    case Add => s + {e.key}
    case Remove => s - {e.key}
    case Contains => s
  }

  predicate Correct(s: set<int>, e: Event) {
    match e.op
    case Add => e.res <==> e.key !in s
    case _ => e.res <==> e.key in s
  }

  function SetAfter(lin: seq<Event>): set<int> {
    if lin == [] then {} else Apply(SetAfter(lin[..|lin| - 1]), lin[|lin| - 1])
  }

  /** Executed one after the other on an initially empty set, all results are right. */
  ghost predicate Legal(lin: seq<Event>) {
    forall n :: 0 <= n < |lin| ==> Correct(SetAfter(lin[..n]), lin[n])
  }

  // ----- steps -----

  ghost predicate Init(s: State) {
    && s.heap == map[HEAD := Node(MIN_KEY, Some(TAIL), None), TAIL := Node(MAX_KEY, None, None)]
    && (forall t :: 0 <= t < |s.threads| ==> s.threads[t].pc == Idle)
    && s.live == {HEAD, TAIL} && s.succ == map[HEAD := TAIL] && s.lin == []
  }

  /** A call begins.  `list_add` first allocates its node: any free address, with an
      uninitialised `next`. */
  ghost predicate Begin(s: State, t: nat, op: Op, key: int, a: nat, junk: Option<nat>, s': State)
    requires t < |s.threads|
  {
    var th := Thread(LockHead, op, key, 0, 0, a, None, false, |s.lin|, None);
    && s.threads[t].pc == Idle && MIN_KEY <= key <= MAX_KEY
    && if op == Add
       then a !in s.heap && s' == s.(threads := s.threads[t := th], heap := s.heap[a := Node(key, junk, None)])
       else s' == s.(threads := s.threads[t := th])
  }

  function Move(s: State, t: nat, th: Thread): State
    requires t < |s.threads|
  {
    s.(threads := s.threads[t := th])
  }

  function SetOwner(heap: map<nat, Node>, a: nat, owner: Option<nat>): map<nat, Node> {
    if a in heap then heap[a := heap[a].(owner := owner)] else heap
  }

  /** The call takes effect with result `res`. */
  function Linearize(s: State, t: nat, th: Thread, res: bool): State
    requires t < |s.threads|
  {
    s.(lin := s.lin + [Event(t, th.op, th.key, res)], threads := s.threads[t := th.(res := res, at := Some(|s.lin|))])
  }

  /** Dereferencing an address that is not allocated, or following a null pointer, has no step:
      it would be an error. */
  ghost predicate Step(s: State, t: nat, s': State)
    requires t < |s.threads|
  {
    var th := s.threads[t];
    match th.pc
    case Idle => false
    case LockHead =>
      && HEAD in s.heap && s.heap[HEAD].owner == None
      && s' == Move(s, t, th.(pc := ReadFirst, prev := HEAD)).(heap := SetOwner(s.heap, HEAD, Some(t)))
    case ReadFirst =>
      && th.prev in s.heap && s.heap[th.prev].next.Some?
      && s' == Move(s, t, th.(pc := LockCurr, curr := s.heap[th.prev].next.value))
    case LockCurr =>
      && th.curr in s.heap && s.heap[th.curr].owner == None
      && s' == Move(s, t, th.(pc := Test)).(heap := SetOwner(s.heap, th.curr, Some(t)))
    case Test =>
      && th.curr in s.heap
      && s' == Move(s, t, th.(pc := if s.heap[th.curr].key < th.key then UnlockPrev else TestKey))
    case UnlockPrev =>
      th.prev in s.heap && s' == Move(s, t, th.(pc := Advance)).(heap := SetOwner(s.heap, th.prev, None))
    case Advance =>
      && th.curr in s.heap && s.heap[th.curr].next.Some?
      && s' == Move(s, t, th.(pc := LockCurr, prev := th.curr, curr := s.heap[th.curr].next.value))
    case TestKey => th.curr in s.heap && s' == TestStep(s, t)
    case Publish =>
      && th.prev in s.heap
      && s' == Linearize(s, t, th.(pc := SetNext), true).(
                 heap := s.heap[th.prev := s.heap[th.prev].(next := Some(th.node))],
                 live := s.live + {th.node}, succ := s.succ[th.prev := th.node][th.node := th.curr])
    case SetNext =>
      && th.node in s.heap
      && s' == Move(s, t, th.(pc := Release1)).(heap := s.heap[th.node := s.heap[th.node].(next := Some(th.curr))])
    case LoadNext => th.curr in s.heap && s' == Move(s, t, th.(pc := Unlink, next := s.heap[th.curr].next))
    case Unlink =>
      && th.prev in s.heap
      && s' == Linearize(s, t, th.(pc := Release1), true).(
                 heap := s.heap[th.prev := s.heap[th.prev].(next := th.next)],
                 live := s.live - {th.curr}, succ := Bypass(s.succ, th.prev, th.curr))
    case Release1 =>
      th.prev in s.heap && s' == Move(s, t, th.(pc := Release2)).(heap := SetOwner(s.heap, th.prev, None))
    case Release2 =>
      && th.curr in s.heap
      && s' == Move(s, t, th.(pc := if (th.op == Add && !th.res) || (th.op == Remove && th.res) then Free else Idle)).(
                 heap := SetOwner(s.heap, th.curr, None))
    case Free =>
      var a := if th.op == Add then th.node else th.curr;
      a in s.heap && s' == Move(s, t, th.(pc := Idle)).(heap := s.heap - {a})
  }

  /** The logical order without node `curr`. */
  function Bypass(succ: map<nat, nat>, prev: nat, curr: nat): map<nat, nat> {
    if curr in succ then (succ - {curr})[prev := succ[curr]] else succ - {prev, curr}
  }

  /** The test for equality behind the loop. */
  ghost function TestStep(s: State, t: nat): State
    requires t < |s.threads| && s.threads[t].curr in s.heap
  {
    var th := s.threads[t];
    var k := s.heap[th.curr].key;
    if th.op == Add then
      if k == th.key then Linearize(s, t, th.(pc := Release1), false) else Move(s, t, th.(pc := Publish))
    else if th.op == Remove then
      if k != th.key then Linearize(s, t, th.(pc := Release1), false) else Move(s, t, th.(pc := LoadNext))
    else Linearize(s, t, th.(pc := Release1), k == th.key)
  }

  ghost predicate Begins(s: State, t: nat, s': State)
    requires t < |s.threads|
  {
    exists op, key, a, junk :: Begin(s, t, op, key, a, junk, s')
  }

  ghost predicate Moves(s: State, t: nat, s': State) {
    t < |s.threads| && (Step(s, t, s') || Begins(s, t, s'))
  }

  ghost predicate Next(s: State, s': State) {
    exists t: nat :: Moves(s, t, s')
  }

  /** A run, whatever keys the calls are given. */
  ghost predicate AnyRun(run: seq<State>) {
    && |run| > 0 && Init(run[0])
    && forall n :: 0 <= n < |run| - 1 ==> Next(run[n], run[n + 1])
  }

  /** No call in progress is about the key of the tail. */
  ghost predicate SpareTail(s: State) {
    forall t :: 0 <= t < |s.threads| && s.threads[t].pc != Idle ==> s.threads[t].key != MAX_KEY
  }

  /** A run in which the largest integer is left to the tail. */
  ghost predicate IsRun(run: seq<State>) {
    AnyRun(run) && forall n :: 0 <= n < |run| ==> SpareTail(run[n])
  }

  // ----- the invariant -----

  /** A node the call has allocated but not published (or failed to publish). */
  predicate OwnsNode(th: Thread) {
    th.pc != Idle && th.op == Add && !th.res
  }

  /** A node the call has taken out of the list and not yet freed. */
  predicate OwnsCurr(th: Thread) {
    th.pc != Idle && th.op == Remove && th.res
  }

  predicate Private(th: Thread, a: nat) {
    (OwnsNode(th) && a == th.node) || (OwnsCurr(th) && a == th.curr)
  }

  /** The place of a node in the list.  The key of the head is never read, and the head comes
      before every key, the smallest integer included. */
  ghost function Rank(heap: map<nat, Node>, a: nat): int
    requires a in heap
  {
    if a == HEAD then MIN_KEY - 1 else heap[a].key
  }

  /** `b` is the node with the next greater key after `a`. */
  ghost predicate IsSucc(heap: map<nat, Node>, live: set<nat>, a: nat, b: nat)
    requires a in heap && forall c :: c in live ==> c in heap
  {
    && b in live && Rank(heap, a) < Rank(heap, b)
    && forall c :: c in live && Rank(heap, a) < Rank(heap, c) ==> Rank(heap, b) <= Rank(heap, c)
  }

  /** Both sentinels are in the list, at the ends of the key range, and no key twice. */
  ghost predicate NodesOk(heap: map<nat, Node>, live: set<nat>) {
    && HEAD in live && TAIL in live && (forall a :: a in live ==> a in heap)
    && heap[TAIL].key == MAX_KEY
    && (forall a :: a in live && a != HEAD && a != TAIL ==> MIN_KEY <= heap[a].key < MAX_KEY)
    && (forall a, b :: a in live && b in live && Rank(heap, a) == Rank(heap, b) ==> a == b)
  }

  /** The live nodes form one list, sorted strictly, from sentinel to sentinel: the logical
      successor of a node is the live node with the next greater key. */
  ghost predicate ListOk(heap: map<nat, Node>, live: set<nat>, succ: map<nat, nat>) {
    && NodesOk(heap, live)
    && forall a :: a in live && a != TAIL ==> a in succ && IsSucc(heap, live, a, succ[a])
  }

  /** Between `prev->next = node` and `node->next = curr` the new node's pointer is junk. */
  ghost predicate HalfLinked(s: State, a: nat) {
    exists t :: 0 <= t < |s.threads| && s.threads[t].pc == SetNext && s.threads[t].node == a
  }

  /** Every other stored pointer is the logical successor. */
  ghost predicate PointersOk(s: State) {
    forall a :: a in s.live && a != TAIL && a in s.heap && a in s.succ ==>
      HalfLinked(s, a) || s.heap[a].next == Some(s.succ[a])
  }

  ghost predicate PrevOk(s: State, t: nat, th: Thread) {
    HoldsPrev(th.pc) ==>
      && th.prev in s.live && th.prev in s.heap && th.prev != TAIL
      && s.heap[th.prev].owner == Some(t) && Rank(s.heap, th.prev) < th.key
  }

  ghost predicate CurrOk(s: State, t: nat, th: Thread) {
    && (HoldsCurr(th.pc) ==> th.curr != HEAD && th.curr in s.heap && s.heap[th.curr].owner == Some(t))
    && (HoldsCurr(th.pc) && !OwnsCurr(th) ==> th.curr in s.live)
    && (th.pc == UnlockPrev || th.pc == Advance ==> s.heap[th.curr].key < th.key)
    && (th.pc == Publish ==> s.heap[th.curr].key > th.key)
    && (th.pc == TestKey ==> s.heap[th.curr].key >= th.key)
    && (th.pc == LoadNext || th.pc == Unlink ==> s.heap[th.curr].key == th.key)
    && (th.pc == Unlink ==> th.curr in s.succ && th.next == Some(s.succ[th.curr]))
  }

  ghost predicate PairOk(s: State, th: Thread) {
    && (th.pc == ReadFirst ==> th.prev == HEAD)
    && (HoldsPrev(th.pc) && HoldsCurr(th.pc) ==> th.prev != th.curr)
    && (th.pc == LockCurr || th.pc == Test || th.pc == UnlockPrev || th.pc == TestKey || th.pc == Publish
        || th.pc == LoadNext || th.pc == Unlink ==>
          th.prev in s.succ && s.succ[th.prev] == th.curr)
    && (th.pc == SetNext ==>
          && th.op == Add && th.prev in s.succ && s.succ[th.prev] == th.node
          && th.node in s.succ && s.succ[th.node] == th.curr
          && th.node in s.live && th.node in s.heap && s.heap[th.node].owner == None && s.heap[th.node].key == th.key)
  }

  ghost predicate PrivateOk(s: State, t: nat, th: Thread) {
    && (OwnsNode(th) ==>
          th.node in s.heap && th.node !in s.live && s.heap[th.node].owner == None && s.heap[th.node].key == th.key)
    && (OwnsCurr(th) ==> th.curr in s.heap && th.curr !in s.live)
    && (OwnsCurr(th) && th.pc == Free ==> s.heap[th.curr].owner == None)
    && (th.pc == Publish ==> th.op == Add) && (th.pc == LoadNext || th.pc == Unlink ==> th.op == Remove)
  }

  predicate Finishing(pc: Pc) { pc == SetNext || pc == Release1 || pc == Release2 || pc == Free }

  /** Exactly the calls past their effect are in the linearization, inside their interval. */
  ghost predicate EffectOk(s: State, t: nat, th: Thread) {
    th.pc != Idle ==>
      && MIN_KEY <= th.key < MAX_KEY && th.started <= |s.lin|
      && (!Finishing(th.pc) ==> !th.res && th.at == None)
      && (Finishing(th.pc) ==>
            && th.at.Some? && th.started <= th.at.value < |s.lin|
            && s.lin[th.at.value] == Event(t, th.op, th.key, th.res))
      && (th.pc == Free ==> (th.op == Add && !th.res) || (th.op == Remove && th.res))
  }

  ghost predicate ThreadOk(s: State, t: nat, th: Thread) {
    PrevOk(s, t, th) && CurrOk(s, t, th) && PairOk(s, th) && PrivateOk(s, t, th) && EffectOk(s, t, th)
  }

  /** Locked nodes are locked by the threads that say so. */
  ghost predicate OwnersOk(s: State) {
    forall a :: a in s.heap && s.heap[a].owner.Some? ==>
      var t := s.heap[a].owner.value; t < |s.threads| && Holds(s.threads[t], a)
  }

  /** Every allocated node is in the list or private to exactly one call. */
  ghost predicate MemoryOk(s: State) {
    && (forall t, u, a ::
          0 <= t < |s.threads| && 0 <= u < |s.threads| && Private(s.threads[t], a) && Private(s.threads[u], a) ==>
            t == u)
    && (forall a :: a in s.heap && a !in s.live ==> exists t :: 0 <= t < |s.threads| && Private(s.threads[t], a))
  }

  function Keys(heap: map<nat, Node>, live: set<nat>): set<int> {
    set a | a in live && a in heap && a != HEAD && a != TAIL :: heap[a].key
  }

  ghost predicate Inv(s: State) {
    && ListOk(s.heap, s.live, s.succ) && PointersOk(s)
    && (forall t :: 0 <= t < |s.threads| ==> ThreadOk(s, t, s.threads[t]))
    && OwnersOk(s) && MemoryOk(s)
    && Legal(s.lin) && SetAfter(s.lin) == Keys(s.heap, s.live)
  }
}
