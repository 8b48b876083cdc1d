/** The transactions that run on the lock table: read record `i`, add to `j`, subtract from
    `k`, commit with the next global number, or roll back.  A step is one stretch of code
    under the global mutex, or one load or store of a record outside it. */
module Transactions {
  import opened Graphs
  import opened LockQueues
  import opened LockTables
  import opened LockProtocol
  import opened Options
  import opened SerialReplay

  /** `threads` counts the unused thread 0; `commits` is the number of commits to reach. */
  datatype Config = Config(threads: nat, records: nat, commits: nat)

  datatype Pc =
    | Start
    | AskRead | SleepRead | LoadI
    | AskFirst | SleepFirst | LoadJ | StoreJ
    | AskSecond | SleepSecond | LoadK | StoreK
    | AtCommit
    | Done

  datatype Thread = Thread(
    pc: Pc, i: nat, j: nat, k: nat,
    vi: int, vj: int, vk: int,
    tmp: int,       // the record value between a load and the matching store
    pending: bool)  // a signal that the sleeping thread has not consumed

  datatype State = State(table: Table, records: seq<int>, order: nat, threads: seq<Thread>, logs: seq<Log>)

  predicate Asking(pc: Pc) { pc == AskRead || pc == AskFirst || pc == AskSecond }

  predicate Asleep(pc: Pc) { pc == SleepRead || pc == SleepFirst || pc == SleepSecond }

  /** The lock a thread asks for or sleeps on. */
  function Request(th: Thread): Want {
    match th.pc
    case AskFirst | SleepFirst => Want(th.j, FirstWrite)
    case AskSecond | SleepSecond => Want(th.k, SecondWrite)
    case _ => Want(th.i, Read)
  }

  function WhenGranted(pc: Pc): Pc {
    match pc
    case AskFirst | SleepFirst => LoadJ
    case AskSecond | SleepSecond => LoadK
    case _ => LoadI
  }

  function WhenWaiting(pc: Pc): Pc {
    match pc
    case AskFirst => SleepFirst
    case AskSecond => SleepSecond
    case _ => SleepRead
  }

  predicate HoldsI(pc: Pc) { pc == LoadI || pc == AskFirst || pc == SleepFirst || HoldsJ(pc) }

  predicate HoldsJ(pc: Pc) { pc == LoadJ || pc == StoreJ || HasWrittenJ(pc) }

  predicate HasWrittenJ(pc: Pc) { pc == AskSecond || pc == SleepSecond || HoldsK(pc) }

  predicate HoldsK(pc: Pc) { pc == LoadK || pc == StoreK || pc == AtCommit }

  /** Every lock granted so far is kept until the transaction ends. */
  function Held(th: Thread): map<nat, Phase> {
    if HoldsK(th.pc) then map[th.i := Read, th.j := FirstWrite, th.k := SecondWrite]
    else if HoldsJ(th.pc) then map[th.i := Read, th.j := FirstWrite]
    else if HoldsI(th.pc) then map[th.i := Read]
    else map[]
  }

  function ViewOf(th: Thread): LockView {
    LockView(Held(th), if Asleep(th.pc) then Some(Request(th)) else None, Asleep(th.pc) && th.pending)
  }

  function ViewsOf(threads: seq<Thread>): (V: Views)
    ensures |V| == |threads|
    ensures forall x :: 0 <= x < |V| ==> V[x] == ViewOf(threads[x])
  {
    seq(|threads|, x requires 0 <= x < |threads| => ViewOf(threads[x]))
  }

  /** `pthread_cond_signal` to every thread of `woken`; one that does not sleep misses it. */
  function SignalThreads(threads: seq<Thread>, woken: set<nat>): (threads': seq<Thread>)
    ensures |threads'| == |threads|
    ensures forall x :: 0 <= x < |threads| ==>
              threads'[x] == if x in woken && Asleep(threads[x].pc) then threads[x].(pending := true) else threads[x]
  {
    seq(|threads|, x requires 0 <= x < |threads| =>
      if x in woken && Asleep(threads[x].pc) then threads[x].(pending := true) else threads[x])
  }

  // ----- releasing and rolling back -----

  /** What a critical section does to the table and the records, and whom it signals. */
  datatype Effect = Effect(table: Table, records: seq<int>, woken: set<nat>)

  /** Thread `t` has an entry in the queue of record `r`. */
  ghost predicate Queued(T: Table, t: nat, r: nat) {
    r < |T.queues| == |T.status| == |T.readers| && InQueue(T.queues[r], t)
  }

  /** One call of `unlock`; a call without a queue entry would trip an assertion. */
  ghost function Release(e: Effect, t: nat, r: nat): (e': Effect)
    ensures e'.records == e.records
  {
    if Queued(e.table, t, r)
    then e.(table := Unlock(e.table, t, r), woken := e.woken + Woken(e.table, t, r))
    else e
  }

  function AddTo(e: Effect, r: nat, amount: int): Effect {
    if r < |e.records| then e.(records := e.records[r := e.records[r] + amount]) else e
  }

  /** The tail of the fall-through undo in which only the read lock is left. */
  ghost function UndoRead(e: Effect, t: nat, th: Thread): Effect {
    Release(e, t, th.i)
  }

  /** Take back the write of `j`, then fall through. */
  ghost function UndoFirst(e: Effect, t: nat, th: Thread): Effect {
    UndoRead(Release(AddTo(e, th.j, -(th.vi + 1)), t, th.j), t, th)
  }

  /** Take back the write of `k`, then fall through. */
  ghost function UndoSecond(e: Effect, t: nat, th: Thread): Effect {
    UndoFirst(Release(AddTo(e, th.k, th.vi), t, th.k), t, th)
  }

  /** The undo of an aborted transaction enters the fall-through at its current phase; a
      lock whose request failed is not released. */
  ghost function Rollback(e: Effect, t: nat, th: Thread, phase: Phase): Effect {
    match phase
    case Commit => UndoSecond(e, t, th)
    case SecondWrite => UndoFirst(e, t, th)
    case FirstWrite => UndoRead(e, t, th)
    case _ => e
  }

  /** Everything the program asserts on its way through one call of `unlock`. */
  ghost predicate CanUnlock(T: Table, t: nat, r: nat) {
    && Queued(T, t, r) && Blk(T.queues[r], t) == {}
    && T.status[r] == (if T.queues[r][Pos(T.queues[r], t)].phase == Read then ReaderLock else WriterLock)
    && (T.status[r] == ReaderLock ==> T.readers[r] > 0)
  }

  ghost predicate UndoReadAllowed(e: Effect, t: nat, th: Thread) {
    CanUnlock(e.table, t, th.i)
  }

  ghost predicate UndoFirstAllowed(e: Effect, t: nat, th: Thread) {
    && th.j < |e.records| && CanUnlock(e.table, t, th.j)
    && UndoReadAllowed(Release(AddTo(e, th.j, -(th.vi + 1)), t, th.j), t, th)
  }

  ghost predicate UndoSecondAllowed(e: Effect, t: nat, th: Thread) {
    && th.k < |e.records| && CanUnlock(e.table, t, th.k)
    && UndoFirstAllowed(Release(AddTo(e, th.k, th.vi), t, th.k), t, th)
  }

  /** Every `unlock` and every record access of the undo is in order. */
  ghost predicate RollbackAllowed(e: Effect, t: nat, th: Thread, phase: Phase) {
    match phase
    case Commit => UndoSecondAllowed(e, t, th)
    case SecondWrite => UndoFirstAllowed(e, t, th)
    case FirstWrite => UndoReadAllowed(e, t, th)
    case _ => phase == Read
  }

  ghost predicate ReleaseLocksAllowed(e: Effect, t: nat, th: Thread) {
    var e1 := Release(e, t, th.i);
    var e2 := Release(e1, t, th.j);
    CanUnlock(e.table, t, th.i) && CanUnlock(e1.table, t, th.j) && CanUnlock(e2.table, t, th.k)
  }

  ghost function ReleaseLocks(e: Effect, t: nat, th: Thread): Effect {
    Release(Release(Release(e, t, th.i), t, th.j), t, th.k)
  }

  // ----- steps -----

  datatype Step =
    | Begin(t: nat, i: nat, j: nat, k: nat)   // loop test passes, three records are drawn
    | Leave(t: nat)                           // loop test fails
    | Ask(t: nat, victimOf: nat)              // lock request up to the first wait
    | Wake(t: nat)                            // return from the wait, also a spurious one
    | Access(t: nat)                          // one load or store of a record
    | Finish(t: nat)                          // the commit section

  ghost predicate Init(c: Config, s: State) {
    && c.threads > 0
    && s.table == Table(seq(c.records, _ => Unlocked), seq(c.records, _ => 0),
                        seq(c.records, _ => []), seq(c.threads, _ => {}))
    && s.records == seq(c.records, _ => 100)
    && s.order == 0 && s.logs == []
    && |s.threads| == c.threads
    && forall x :: 0 <= x < |s.threads| ==>
         s.threads[x] == Thread(if x == 0 then Done else Start, 0, 0, 0, 0, 0, 0, 0, false)
  }

  function Idle(pc: Pc): Thread {
    Thread(pc, 0, 0, 0, 0, 0, 0, 0, false)
  }

  /** The state after the critical section of thread `t` had effect `e`. */
  ghost function Apply(s: State, t: nat, th: Thread, e: Effect): State
    requires t < |s.threads|
  {
    s.(table := e.table, records := e.records, threads := SignalThreads(s.threads[t := th], e.woken))
  }

  ghost predicate AskStep(s: State, t: nat, w: nat, s': State)
    requires t < |s.threads| && Asking(s.threads[t].pc)
  {
    var th := s.threads[t];
    var a := Request(th);
    && a.rid < |s.table.queues| == |s.table.status| == |s.table.readers| && t < |s.table.graph|
    && match RequestOutcome(s.table, t, a.rid, a.phase)
       case Granted =>
         s' == s.(table := LockTables.Request(s.table, t, a.rid, a.phase),
                  threads := s.threads[t := th.(pc := WhenGranted(th.pc))])
       case Waiting =>
         s' == s.(table := LockTables.Request(s.table, t, a.rid, a.phase),
                  threads := s.threads[t := th.(pc := WhenWaiting(th.pc), pending := false)])
       case Deadlock =>
         && Edge(Enqueue(s.table, t, a.rid, a.phase).graph, w, t)
         && s' == Apply(s, t, Idle(Start), Rollback(Effect(s.table, s.records, {w}), t, th, a.phase))
  }

  ghost predicate WakeStep(s: State, t: nat, s': State)
    requires t < |s.threads| && Asleep(s.threads[t].pc)
  {
    var th := s.threads[t];
    var a := Request(th);
    && a.rid < |s.table.queues| == |s.table.status| == |s.table.readers|
    && s' == s.(table := Resume(s.table, t, a.rid, a.phase),
                threads := s.threads[t := if Blk(s.table.queues[a.rid], t) == {}
                          then th.(pc := WhenGranted(th.pc), pending := false)
                                          else th.(pending := false)])
  }

  ghost predicate AccessStep(s: State, t: nat, s': State)
    requires t < |s.threads|
  {
    var th := s.threads[t];
    match th.pc
    case LoadI =>
      th.i < |s.records| && s' == s.(threads := s.threads[t := th.(pc := AskFirst, vi := s.records[th.i])])
    case LoadJ =>
      th.j < |s.records| && s' == s.(threads := s.threads[t := th.(pc := StoreJ, tmp := s.records[th.j])])
    case StoreJ =>
      && th.j < |s.records|
      && s' == s.(records := s.records[th.j := th.tmp + (th.vi + 1)],
                  threads := s.threads[t := th.(pc := AskSecond, vj := th.tmp + (th.vi + 1))])
    case LoadK =>
      th.k < |s.records| && s' == s.(threads := s.threads[t := th.(pc := StoreK, tmp := s.records[th.k])])
    case StoreK =>
      && th.k < |s.records|
      && s' == s.(records := s.records[th.k := th.tmp - th.vi],
                  threads := s.threads[t := th.(pc := AtCommit, vk := th.tmp - th.vi)])
    case _ => false
  }

  function LogOf(th: Thread, id: nat): Log {
    Log(id, th.i, th.j, th.k, th.vi, th.vj, th.vk)
  }

  ghost predicate FinishStep(c: Config, s: State, t: nat, s': State)
    requires t < |s.threads|
  {
    var th := s.threads[t];
    var e := Effect(s.table, s.records, {});
    var id := s.order + 1;
    if id > c.commits then
      s' == Apply(s.(order := id), t, Idle(Done), Rollback(e, t, th, Commit))
    else
      s' == Apply(s.(order := id, logs := s.logs + [LogOf(th, id)]), t, Idle(Start), ReleaseLocks(e, t, th))
  }

  ghost predicate Next(c: Config, s: State, step: Step, s': State) {
    1 <= step.t < |s.threads| &&
    var th := s.threads[step.t];
    match step
    case Begin(t, i, j, k) =>
      && th.pc == Start && s.order <= c.commits
      && i < c.records && j < c.records && k < c.records && i != j && k != i && k != j
      && s' == s.(threads := s.threads[t := Idle(AskRead).(i := i, j := j, k := k)])
    case Leave(t) =>
      th.pc == Start && s.order > c.commits && s' == s.(threads := s.threads[t := Idle(Done)])
    case Ask(t, w) => Asking(th.pc) && AskStep(s, t, w, s')
    case Wake(t) => Asleep(th.pc) && WakeStep(s, t, s')
    case Access(t) => AccessStep(s, t, s')
    case Finish(t) => th.pc == AtCommit && FinishStep(c, s, t, s')
  }

  ghost predicate Steps(c: Config, s: State, s': State) {
    exists step :: Next(c, s, step, s')
  }

  /** A finite run from an initial state, any thread moving at each step. */
  ghost predicate IsRun(c: Config, run: seq<State>) {
    && |run| > 0 && Init(c, run[0])
    && forall n :: 0 <= n < |run| - 1 ==> Steps(c, run[n], run[n + 1])
  }
}
