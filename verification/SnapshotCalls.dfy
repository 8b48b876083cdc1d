/** The calls on the snapshot object from their arguments to what they leave in the table or return,
    in every interleaving with other calls, and how many steps they take. */
module SnapshotCalls {
  import opened Snapshot
  import opened SnapshotFreshness

  /** The thread is in the same call from state `n + 1` to state `m`. */
  ghost predicate InCall(run: seq<State>, n: nat, m: nat, t: nat) {
    n < m < |run| && forall k :: n < k <= m ==> t < |run[k].threads| && run[k].threads[t] != Idle
  }

  /** Thread `t` begins a call in step `n`. */
  ghost predicate Begins(run: seq<State>, n: nat, t: nat, job: Job) {
    && n + 1 < |run| && t < |run[n].threads| && |run[n].history| > 0
    && StartJob(run[n], t, job, run[n + 1])
  }

  /** The thread is at work on the job, since instant `began`. */
  predicate WorksOn(th: Thread, job: Job, began: nat) {
    match th
    case Idle => false
    case Scanning(j, scan) => j == job && scan.began == began
    case Storing(value, _, _) => job == Update(value)
  }

  lemma OwnStepWorks(s: State, t: nat, s': State, job: Job, began: nat)
    requires Inv(s) && Moves(s, t, s') && WorksOn(s.threads[t], job, began)
    ensures |s'.threads| == |s.threads|
    ensures s'.threads[t] != Idle ==> WorksOn(s'.threads[t], job, began)
    ensures s'.threads[t] == Idle ==> if job.Update? then s.threads[t].Storing? else Returns(s, t)
    ensures s'.threads[t].Storing? ==> Returns(s, t)
  {
    hide HistoryOk, Unrepeated, SnapsOk, ThreadOk, Result, TakenAt;
    StepShape(s, t, s');
  }

  lemma StepWorks(s: State, s': State, t: nat, job: Job, began: nat)
    requires Inv(s) && Next(s, s') && t < |s.threads| && WorksOn(s.threads[t], job, began)
    ensures |s'.threads| == |s.threads| && |s'.cells| == |s.cells|
    ensures s'.threads[t] != Idle ==> WorksOn(s'.threads[t], job, began)
    ensures s'.threads[t] == Idle ==> if job.Update? then s.threads[t].Storing? else Returns(s, t)
    ensures t < |s.cells| && (s'.threads[t] != Idle || job == Report) ==> s'.cells[t] == s.cells[t]
  {
    hide Inv, Moves, WorksOn, Returns;
    var u: nat :| Moves(s, u, s');
    StepShape(s, u, s');
    if u == t {
      OwnStepWorks(s, t, s', job, began);
      WorkKinds(s.threads[t], job, began);
      if s.threads[t].Storing? { StoreIdles(s, t, s'); }
    } else {
      WorkKinds(s.threads[t], job, began);
    }
  }

  lemma WorkKinds(th: Thread, job: Job, began: nat)
    requires WorksOn(th, job, began)
    ensures th != Idle && (th.Storing? ==> job == Update(th.value))
  { }

  lemma StoreIdles(s: State, t: nat, s': State)
    requires t < |s.threads| && s.threads[t].Storing? && Store(s, t, s')
    ensures s'.threads[t] == Idle
  { }

  /** Whatever the others do, a call stays the one it began as and leaves its cell alone until its end. */
  lemma {:induction false} CallWorks(run: seq<State>, n: nat, m: nat, t: nat, job: Job)
    requires IsRun(run) && InCall(run, n, m, t) && Begins(run, n, t, job)
    ensures WorksOn(run[m].threads[t], job, Now(run[n]))
    ensures |run[m].cells| == |run[n].cells| && (t < |run[n].cells| ==> run[m].cells[t] == run[n].cells[t])
    decreases m
  {
    hide Inv, Next, Init, WorksOn, StartJob;
    BeginsWork(run[n], t, job, run[n + 1]);
    if m > n + 1 {
      CallWorks(run, n, m - 1, t, job);
      RunInv(run, m - 1);
      assert Next(run[m - 1], run[m - 1 + 1]);
      StepWorks(run[m - 1], run[m], t, job, Now(run[n]));
    }
  }

  lemma BeginsWork(s: State, t: nat, job: Job, s': State)
    requires t < |s.threads| && |s.history| > 0 && StartJob(s, t, job, s')
    ensures |s'.threads| == |s.threads| && s'.cells == s.cells && WorksOn(s'.threads[t], job, Now(s))
    ensures job.Update? ==> t < |s.cells|
  { }

  /** End to end: in every interleaving, an update that begins in step `n` and returns in step `m` puts
      the value it was called with into the cell of its thread in that step and no other, raises the
      stamp by one and changes no other cell. */
  lemma UpdateStores(run: seq<State>, n: nat, m: nat, t: nat, v: int)
    requires IsRun(run) && InCall(run, n, m, t) && m + 1 < |run| && Begins(run, n, t, Update(v))
    requires t < |run[m + 1].threads| && run[m + 1].threads[t] == Idle
    ensures |run[m + 1].cells| == |run[m].cells| == |run[n].cells| > t
    ensures run[m + 1].cells[t].value == v && run[m + 1].cells[t].stamp == run[m].cells[t].stamp + 1
    ensures forall j :: 0 <= j < |run[m].cells| && j != t ==> run[m + 1].cells[j] == run[m].cells[j]
    ensures forall k :: n <= k <= m ==> |run[k].cells| == |run[n].cells| && run[k].cells[t] == run[n].cells[t]
  {
    hide Inv, Next, Init, WorksOn, StartJob;
    BeginsWork(run[n], t, Update(v), run[n + 1]);
    forall k | n < k <= m ensures |run[k].cells| == |run[n].cells| && run[k].cells[t] == run[n].cells[t] {
      CallWorks(run, n, k, t, Update(v));
    }
    CallWorks(run, n, m, t, Update(v));
    RunInv(run, m);
    assert Next(run[m], run[m + 1]);
    EndStores(run[m], run[m + 1], t, Update(v), Now(run[n]));
  }

  lemma EndStores(s: State, s': State, t: nat, job: Job, began: nat)
    requires Inv(s) && Next(s, s') && t < |s.threads| && t < |s.cells| && job.Update?
    requires WorksOn(s.threads[t], job, began) && t < |s'.threads| && s'.threads[t] == Idle
    ensures |s'.cells| == |s.cells| && s'.cells[t].value == job.value && s'.cells[t].stamp == s.cells[t].stamp + 1
    ensures forall j :: 0 <= j < |s.cells| && j != t ==> s'.cells[j] == s.cells[j]
  {
    hide Inv, Moves;
    StepWorks(s, s', t, job, began);
    var u: nat :| Moves(s, u, s');
    StepShape(s, u, s');
  }

  /** End to end: a scan that begins in step `n` and returns in step `m` changes nothing when it
      returns, and returns the whole table as it was in one state; in one since the scan began, if it
      ends on two equal collects. */
  lemma ReportReturns(run: seq<State>, n: nat, m: nat, t: nat) returns (k: nat)
    requires IsRun(run) && InCall(run, n, m, t) && m + 1 < |run| && Begins(run, n, t, Report)
    requires t < |run[m + 1].threads| && run[m + 1].threads[t] == Idle
    ensures run[m + 1].cells == run[m].cells && Returns(run[m], t)
    ensures k <= m && |Result(run[m], run[m].threads[t])| == |run[k].cells|
    ensures forall j :: 0 <= j < |run[k].cells| ==> Result(run[m], run[m].threads[t])[j] == run[k].cells[j].value
    ensures VerdictOf(run[m], run[m].threads[t]) == Clean ==> n <= k
  {
    hide Inv, Next, Init, StartJob;
    CallWorks(run, n, m, t, Report);
    RunInv(run, m);
    assert Next(run[m], run[m + 1]);
    EndReports(run[m], run[m + 1], t, Now(run[n]));
    hide IsRun;
    if VerdictOf(run[m], run[m].threads[t]) == Clean {
      CleanScansAreCurrent(run, m, t);
      k := HistorySince(run, n, m, run[m].threads[t].scan.since);
    } else {
      k := ScansAreConsistent(run, m, t);
    }
  }

  lemma EndReports(s: State, s': State, t: nat, began: nat)
    requires Inv(s) && Next(s, s') && t < |s.threads| && WorksOn(s.threads[t], Report, began)
    requires t < |s'.threads| && s'.threads[t] == Idle
    ensures s'.cells == s.cells && Returns(s, t) && s.threads[t].scan.began == began
  {
    hide Inv, Moves, Returns;
    StepWorks(s, s', t, Report, began);
    var u: nat :| Moves(s, u, s');
    StepShape(s, u, s');
  }

  // ----- nothing is invented -----

  ghost predicate Begun(run: seq<State>, n: nat, t: nat, job: Job) {
    exists k :: 0 <= k < n && Begins(run, k, t, job)
  }

  /** Every call in progress was begun by its thread, and every value written was an argument. */
  ghost predicate OriginsOk(run: seq<State>, n: nat)
    requires n < |run|
  {
    && (forall t :: 0 <= t < |run[n].threads| ==> ThreadOrigin(run, n, t, run[n].threads[t]))
    && (forall j :: 0 <= j < |run[n].cells| ==> CellOrigin(run, n, j, run[n].cells[j]))
  }

  ghost predicate ThreadOrigin(run: seq<State>, n: nat, t: nat, th: Thread) {
    && (th.Scanning? ==> Begun(run, n, t, th.job))
    && (th.Storing? ==> Begun(run, n, t, Update(th.value)))
  }

  ghost predicate CellOrigin(run: seq<State>, n: nat, j: nat, c: Cell) {
    c.stamp > 0 ==> Begun(run, n, j, Update(c.value))
  }

  lemma BegunGrows(run: seq<State>, n: nat, t: nat, job: Job)
    requires Begun(run, n, t, job)
    ensures Begun(run, n + 1, t, job)
  { }

  /** What the moving thread is about in a step is what it was about, or has just begun. */
  lemma OwnOrigin(run: seq<State>, n: nat, t: nat)
    requires IsRun(run) && n + 1 < |run| && OriginsOk(run, n) && Moves(run[n], t, run[n + 1])
    ensures |run[n + 1].threads| == |run[n].threads|
    ensures ThreadOrigin(run, n + 1, t, run[n + 1].threads[t])
  {
    assert ThreadOrigin(run, n, t, run[n].threads[t]);
    hide IsRun, Begins, Result, TakenAt, VerdictOf;
    var s, s' := run[n], run[n + 1];
    if s.threads[t] == Idle {
      var job :| StartJob(s, t, job, s');
      assert Begins(run, n, t, job) by { BeginsNow(run, n, t, job); }
    } else if s.threads[t].Scanning? {
      BegunGrows(run, n, t, s.threads[t].job);
    }
  }

  lemma BeginsNow(run: seq<State>, n: nat, t: nat, job: Job)
    requires n + 1 < |run| && t < |run[n].threads| && |run[n].history| > 0 && StartJob(run[n], t, job, run[n + 1])
    ensures Begins(run, n, t, job)
  { }

  lemma OldOrigins(run: seq<State>, n: nat)
    requires n < |run| && OriginsOk(run, n)
    ensures forall t :: 0 <= t < |run[n].threads| ==> ThreadOrigin(run, n + 1, t, run[n].threads[t])
    ensures forall j :: 0 <= j < |run[n].cells| ==> CellOrigin(run, n + 1, j, run[n].cells[j])
  {
    hide Begins;
    forall t | 0 <= t < |run[n].threads| ensures ThreadOrigin(run, n + 1, t, run[n].threads[t]) {
      assert ThreadOrigin(run, n, t, run[n].threads[t]);
    }
    forall j | 0 <= j < |run[n].cells| ensures CellOrigin(run, n + 1, j, run[n].cells[j]) {
      assert CellOrigin(run, n, j, run[n].cells[j]);
    }
  }

  lemma StoredOrigin(run: seq<State>, n: nat, t: nat, s: State, s': State)
    requires t < |s.threads| && s.threads[t].Storing? && Store(s, t, s') && ThreadOrigin(run, n, t, s.threads[t])
    ensures CellOrigin(run, n, t, s'.cells[t])
  { }

  lemma OriginsStep(run: seq<State>, n: nat)
    requires IsRun(run) && n + 1 < |run| && OriginsOk(run, n)
    ensures OriginsOk(run, n + 1)
  {
    RunInv(run, n);
    hide Inv, ThreadOrigin, CellOrigin, Moves, Store;
    var s, s' := run[n], run[n + 1];
    assert Next(s, s');
    var t: nat :| Moves(s, t, s');
    OwnOrigin(run, n, t);
    OldOrigins(run, n);
    StepShape(s, t, s');
    hide IsRun;
    if s.threads[t].Storing? { StoredOrigin(run, n + 1, t, s, s'); }
  }

  /** No value comes from nowhere: what a cell holds after its first update is the argument of an
      update that the owner of the cell began before. */
  lemma {:induction false} ValuesAreArguments(run: seq<State>, n: nat)
    requires IsRun(run) && n < |run|
    ensures OriginsOk(run, n)
    ensures forall j :: 0 <= j < |run[n].cells| && run[n].cells[j].stamp > 0 ==>
              exists k :: 0 <= k < n && Begins(run, k, j, Update(run[n].cells[j].value))
  {
    if n > 0 {
      hide OriginsOk;
      ValuesAreArguments(run, n - 1);
      OriginsStep(run, n - 1);
    }
    AllOrigins(run, n);
  }

  lemma AllOrigins(run: seq<State>, n: nat)
    requires n < |run| && OriginsOk(run, n)
    ensures forall j :: 0 <= j < |run[n].cells| && run[n].cells[j].stamp > 0 ==>
              exists k :: 0 <= k < n && Begins(run, k, j, Update(run[n].cells[j].value))
  {
    hide Begins;
    forall j | 0 <= j < |run[n].cells| && run[n].cells[j].stamp > 0
      ensures exists k :: 0 <= k < n && Begins(run, k, j, Update(run[n].cells[j].value))
    {
      assert CellOrigin(run, n, j, run[n].cells[j]);
    }
  }

  // ----- how many steps a call takes -----

  /** The steps from state `n` to state `m` in which the thread moved. */
  function OwnSteps(run: seq<State>, t: nat, n: nat, m: nat): nat
    requires m < |run| && forall k :: 0 <= k < |run| ==> t < |run[k].threads|
    decreases m
  {
    if m <= n then 0 else
      OwnSteps(run, t, n, m - 1) + (if run[m].threads[t] != run[m - 1].threads[t] then 1 else 0)
  }

  lemma RoundsIs(size: nat, k: nat)
    ensures Rounds(size, k) == k * (size + 1)
  {
    if k > 0 { RoundsIs(size, k - 1); }
  }

  lemma {:induction false} StepsCount(run: seq<State>, t: nat, n: nat, m: nat)
    requires IsRun(run) && n < m < |run| && forall k :: 0 <= k < |run| ==> t < |run[k].threads|
    requires forall k :: n <= k < m ==> run[k].threads[t] != Idle
    ensures |run[m].cells| == |run[n].cells|
    ensures OwnSteps(run, t, n, m) + StepsLeft(|run[n].cells|, run[m].threads[t]) <=
            StepsLeft(|run[n].cells|, run[n].threads[t])
    decreases m
  {
    hide Moves, Init, StepsLeft;
    if m > n + 1 { StepsCount(run, t, n, m - 1); }
    assert Next(run[m - 1], run[m - 1 + 1]);
    var u: nat :| Moves(run[m - 1], u, run[m]);
    hide IsRun;
    WaitFree(run, m - 1, u, t);
  }

  lemma StepsLeftNat(s: State, t: nat)
    requires Inv(s) && t < |s.threads|
    ensures StepsLeft(|s.cells|, s.threads[t]) >= 0
  {
    hide HistoryOk, Unrepeated, SnapsOk, WasTable, Seen;
    assert ThreadOk(s, t, s.threads[t]);
  }

  lemma StepsAtFirst(s: State, t: nat, job: Job, s': State)
    requires t < |s.threads| && |s.history| > 0 && StartJob(s, t, job, s')
    ensures s'.cells == s.cells && |s'.threads| == |s.threads|
    ensures StepsLeft(|s.cells|, s'.threads[t]) == (|s.cells| + 1) * (|s.cells| + 2) + 1
  {
    RoundsIs(|s.cells|, |s.cells| + 1);
    hide Rounds;
  }

  /** Wait-freedom end to end: whatever the others do, a call that begins in step `n` is over before its
      thread has made more steps than this, which depends on the number of cells alone. */
  lemma CallIsShort(run: seq<State>, t: nat, n: nat, m: nat, job: Job)
    requires IsRun(run) && n + 1 < m < |run| && Begins(run, n, t, job)
    requires forall k :: 0 <= k < |run| ==> t < |run[k].threads|
    requires forall k :: n + 1 <= k < m ==> run[k].threads[t] != Idle
    ensures OwnSteps(run, t, n + 1, m) <= (|run[n].cells| + 1) * (|run[n].cells| + 2) + 1
  {
    StepsAtFirst(run[n], t, job, run[n + 1]);
    StepsCount(run, t, n + 1, m);
    RunInv(run, m);
    StepsLeftNat(run[m], t);
  }
}
