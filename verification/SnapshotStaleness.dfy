/** A scan that borrows takes the snapshot of the older of its two collects, and that snapshot
    may be older than the scan itself.  From every state in which two owners of cells are idle
    there is a continuation in which one of them misses an update it had itself finished.  So
    scans are always current exactly when the table has at most one cell. */
module SnapshotStaleness {
  import opened Snapshot
  import opened SnapshotFreshness

  ghost predicate Reach(s: State, s': State) {
    exists path :: IsPath(path, s, s')
  }

  ghost predicate IsPath(path: seq<State>, s: State, s': State) {
    Steps(path) && path[0] == s && path[|path| - 1] == s'
  }

  lemma ReachStep(s: State, t: nat, s': State)
    requires Moves(s, t, s')
    ensures Reach(s, s')
  {
    hide Moves;
    assert IsPath([s, s'], s, s');
  }

  lemma ReachTrans(s: State, s': State, s'': State)
    requires Reach(s, s') && Reach(s', s'')
    ensures Reach(s, s'')
  {
    hide Next;
    var p :| IsPath(p, s, s');
    var q :| IsPath(q, s', s'');
    var r := p + q[1..];
    forall n | 0 <= n < |r| - 1 ensures Next(r[n], r[n + 1]) {
      if n < |p| - 1 {
        assert Next(p[n], p[n + 1]);
      } else {
        var k := n - (|p| - 1);
        assert Next(q[k], q[k + 1]) && r[n] == q[k] && r[n + 1] == q[k + 1];
      }
    }
    assert IsPath(r, s, s'');
  }

  function WithCopy(s: State, t: nat, copy: Cells): State
    requires t < |s.threads| && s.threads[t].Scanning?
  {
    Goto(s, t, s.threads[t].(scan := s.threads[t].scan.(copy := copy)))
  }

  /** A collect that nobody disturbs copies the table. */
  lemma {:induction false} CollectAlone(s: State, t: nat, k: nat)
    requires t < |s.threads| && s.threads[t].Scanning? && |s.history| > 0
    requires k <= |s.cells| && s.threads[t].scan.copy == s.cells[..k]
    ensures Reach(s, WithCopy(s, t, s.cells))
    decreases |s.cells| - k
  {
    if k == |s.cells| {
      assert s.cells[..k] == s.cells;
      assert WithCopy(s, t, s.cells) == s;
      assert IsPath([s], s, s);
    } else {
      var s' := WithCopy(s, t, s.cells[..k + 1]);
      assert s.cells[..k] + [s.cells[k]] == s.cells[..k + 1];
      assert ReadCell(s, t, s');
      ReachStep(s, t, s');
      CollectAlone(s', t, k + 1);
      assert WithCopy(s', t, s.cells) == WithCopy(s, t, s.cells);
      hide Reach;
      ReachTrans(s, s', WithCopy(s, t, s.cells));
    }
  }

  function Starting(s: State, t: nat, value: int): State
    requires t < |s.threads| && |s.history| > 0
  {
    Goto(s, t, Scanning(Update(value), Again(Now(s), s.cells, [], {}, 2, Now(s))))
  }

  /** The first collect of an update, undisturbed. */
  lemma FirstCollectAlone(s: State, t: nat, value: int)
    requires t < |s.threads| && t < |s.cells| && s.threads[t] == Idle && |s.history| > 0
    ensures Reach(s, Starting(s, t, value))
  {
    hide Reach;
    var s1 := Goto(s, t, Scanning(Update(value), First(Now(s), [])));
    assert StartJob(s, t, Update(value), s1);
    ReachStep(s, t, s1);
    CollectAlone(s1, t, 0);
    var s2 := WithCopy(s1, t, s.cells);
    ReachTrans(s, s1, s2);
    var s3 := Starting(s, t, value);
    assert s3.threads == s2.threads[t := s3.threads[t]];
    assert EndFirst(s2, t, s3);
    ReachStep(s2, t, s3);
    ReachTrans(s, s2, s3);
  }

  /** An undisturbed scan yields the current table. */
  lemma ScanAlone(s: State, t: nat, value: int)
    requires t < |s.threads| && t < |s.cells| && s.threads[t] == Idle && |s.history| > 0
    ensures Reach(s, Goto(s, t, Storing(value, Values(s.cells), Now(s))))
  {
    hide Reach;
    var s1 := Starting(s, t, value);
    FirstCollectAlone(s, t, value);
    CollectAlone(s1, t, 0);
    var s2 := WithCopy(s1, t, s.cells);
    ReachTrans(s, s1, s2);
    var s3 := Goto(s, t, Storing(value, Values(s.cells), Now(s)));
    assert s3.threads == s2.threads[t := s3.threads[t]];
    assert VerdictOf(s2, s2.threads[t]) == Clean;
    assert EndAgain(s2, t, s3);
    ReachStep(s2, t, s3);
    ReachTrans(s, s2, s3);
  }

  function Stored(s: State, t: nat, c: Cell): State
    requires t < |s.threads| && t < |s.cells|
  {
    State(s.cells[t := c], s.threads[t := Idle], s.history + [s.cells[t := c]])
  }

  /** An undisturbed update stores its value together with the table it replaces. */
  lemma UpdateAlone(s: State, t: nat, value: int)
    requires t < |s.threads| && t < |s.cells| && s.threads[t] == Idle && |s.history| > 0
    ensures Reach(s, Stored(s, t, Cell(s.cells[t].stamp + 1, value, Values(s.cells), Now(s))))
  {
    hide Reach;
    ScanAlone(s, t, value);
    var s1 := Goto(s, t, Storing(value, Values(s.cells), Now(s)));
    var s2 := Stored(s, t, Cell(s.cells[t].stamp + 1, value, Values(s.cells), Now(s)));
    assert s2.threads == s1.threads[t := Idle];
    assert Store(s1, t, s2);
    ReachStep(s1, t, s2);
    ReachTrans(s, s1, s2);
  }

  /** Collects that differ in one cell first differ there. */
  lemma OnlyMoved(prior: Cells, copy: Cells, j: nat)
    requires |prior| == |copy| && j < |prior| && prior[j].stamp != copy[j].stamp
    requires forall i :: 0 <= i < |prior| && i != j ==> prior[i] == copy[i]
    ensures FirstMoved(prior, copy, 0) == j
  { }

  /** The other thread's pending store makes a scan restart. */
  lemma MovedOnce(s: State, t: nat, value: int, u: nat, c: Cell)
    requires t < |s.threads| && u < |s.cells| <= |s.threads| && t != u && t < |s.cells| && |s.history| > 0
    requires s.threads[t] == Idle && s.threads[u] == Storing(c.value, c.snap, c.at) && c.stamp == s.cells[u].stamp + 1
    ensures Reach(s, Restarted(s, t, value, u, c))
  {
    hide Reach;
    FirstCollectAlone(s, t, value);
    var s1 := Starting(s, t, value);
    var s2 := Stored(s1, u, c);
    assert Store(s1, u, s2);
    ReachStep(s1, u, s2);
    ReachTrans(s, s1, s2);
    CollectAlone(s2, t, 0);
    var s3 := WithCopy(s2, t, s2.cells);
    ReachTrans(s, s2, s3);
    var s4 := Restarted(s, t, value, u, c);
    OnlyMoved(s.cells, s2.cells, u);
    assert VerdictOf(s3, s3.threads[t]) == Restart(u);
    assert {} + {u} == {u};
    assert s4.threads == s3.threads[t := s4.threads[t]];
    assert EndAgain(s3, t, s4);
    ReachStep(s3, t, s4);
    ReachTrans(s, s3, s4);
  }

  function Restarted(s: State, t: nat, value: int, u: nat, c: Cell): State
    requires t < |s.threads| && u < |s.cells| <= |s.threads| && |s.history| > 0
  {
    var s1 := Stored(s, u, c);
    Goto(s1, t, Scanning(Update(value), Again(Now(s), s1.cells, [], {u}, 3, Now(s1))))
  }

  /** The failing family: thread `u` has scanned but not yet stored, `t` finishes an update
      and starts another, and the second scan of `t` returns the table from before the first
      update of `t`, which no instant since that scan began agrees with. */
  lemma BorrowedScanCanBeStale(s: State, t: nat, u: nat, value: int) returns (s': State)
    requires t < |s.cells| <= |s.threads| && u < |s.cells| && t != u && |s.history| > 0
    requires s.threads[t] == Idle && s.threads[u] == Idle && value != s.cells[t].value
    ensures Reach(s, s') && |s'.threads| == |s.threads| && s.history <= s'.history
    ensures AtCompare(s', s'.threads[t]) && VerdictOf(s', s'.threads[t]) == Borrow(u)
    ensures Result(s', s'.threads[t]) == Values(s.cells)
    ensures s'.threads[t].scan.began == |s.history| < |s'.history|
    ensures forall i :: |s.history| <= i < |s'.history| ==>
              |s'.history[i]| == |s.cells| && Values(s'.history[i])[t] == value != Result(s', s'.threads[t])[t]
  {
    hide Reach;
    var before := Values(s.cells);
    ScanAlone(s, u, 0);
    var s1 := Goto(s, u, Storing(0, before, Now(s)));
    UpdateAlone(s1, t, value);
    var s2 := Stored(s1, t, Cell(s.cells[t].stamp + 1, value, before, Now(s)));
    ReachTrans(s, s1, s2);
    var b := Cell(s.cells[u].stamp + 1, 0, before, Now(s));
    MovedOnce(s2, t, 0, u, b);
    var s3 := Restarted(s2, t, 0, u, b);
    ReachTrans(s, s2, s3);
    UpdateAlone(s3, u, 0);
    var s4 := Stored(s3, u, Cell(b.stamp + 1, 0, Values(s3.cells), Now(s3)));
    ReachTrans(s, s3, s4);
    CollectAlone(s4, t, 0);
    s' := WithCopy(s4, t, s4.cells);
    ReachTrans(s, s4, s');
    OnlyMoved(s3.cells, s4.cells, u);
    assert s'.history == s.history + [s2.cells, s3.cells, s4.cells];
  }

  // ----- tables with at most one cell -----

  /** The array it returns is the whole table at an instant since the scan began. */
  ghost predicate Current(s: State, t: nat)
    requires Returns(s, t)
  {
    exists i :: s.threads[t].scan.began <= i < |s.history| && Values(s.history[i]) == Result(s, s.threads[t])
  }

  /** With a single cell every update stores the table it replaces. */
  ghost predicate SingleOk(s: State) {
    && |s.cells| == 1 && Inv(s)
    && (forall i :: 0 <= i < |s.history| ==> s.history[i][0].stamp == i)
    && (forall i :: 1 <= i < |s.history| ==> s.history[i][0].snap == Values(s.history[i - 1]))
    && (s.threads[0].Storing? ==> s.threads[0].snap == Values(s.cells))
    && forall t :: 0 <= t < |s.threads| ==> MovedSince(s.threads[t])
  }

  /** A cell that was seen to move had been written since the scan began. */
  predicate MovedSince(th: Thread) {
    th.Scanning? && th.scan.Again? && 0 in th.scan.moved && |th.scan.prior| > 0 ==>
      th.scan.prior[0].stamp > th.scan.began
  }

  lemma SingleMoved(s: State, t: nat, s': State)
    requires SingleOk(s) && Moves(s, t, s')
    ensures |s'.threads| == |s.threads| && MovedSince(s'.threads[t])
  {
    hide Unrepeated, SnapsOk, WasTable, Values;
    var th := s.threads[t];
    if AtCompare(s, th) && VerdictOf(s, th).Restart? {
      var scan := th.scan;
      assert ThreadOk(s, t, th);
      assert Seen(s.history, 0, scan.prior[0], scan.began, scan.since);
      Sandwich(s, 0, scan.prior[0], scan.copy[0], scan.began, scan.since, Now(s));
    }
  }

  lemma SingleOwner(s: State, s': State)
    requires SingleOk(s) && Moves(s, 0, s') && s'.threads[0].Storing?
    ensures s'.threads[0].snap == Values(s'.cells)
  {
    hide Unrepeated, SnapsOk, WasTable, Seen, HistoryOk;
    assert ThreadOk(s, 0, s.threads[0]);
    assert s.threads[0].scan.copy == s.cells;
  }

  lemma SingleKeeps(s: State, s': State)
    requires SingleOk(s) && Next(s, s')
    ensures SingleOk(s')
  {
    NextKeeps(s, s');
    var t: nat :| Moves(s, t, s');
    StepShape(s, t, s');
    SingleMoved(s, t, s');
    if t == 0 && s'.threads[0].Storing? { SingleOwner(s, s'); }
    hide Unrepeated, SnapsOk, WasTable, Seen, ThreadOk;
    assert s.threads[t].Storing? ==> t == 0 by { assert ThreadOk(s, t, s.threads[t]); }
  }

  lemma {:induction false} SingleRun(run: seq<State>, n: nat)
    requires IsRun(run) && n < |run| && |run[0].cells| == 1
    ensures SingleOk(run[n])
  {
    hide Next;
    if n == 0 {
      InitInv(run[0]);
    } else {
      SingleRun(run, n - 1);
      hide SingleOk;
      assert Next(run[n - 1], run[n - 1 + 1]);
      SingleKeeps(run[n - 1], run[n]);
    }
  }

  lemma SingleIsCurrent(s: State, t: nat)
    requires SingleOk(s) && Returns(s, t) && VerdictOf(s, s.threads[t]).Borrow?
    ensures Current(s, t)
  {
    hide Unrepeated, SnapsOk, WasTable;
    assert ThreadOk(s, t, s.threads[t]);
    var scan := s.threads[t].scan;
    var a :| scan.began <= a <= scan.since && a < |s.history| && 0 < |s.history[a]| && s.history[a][0] == scan.prior[0];
    assert Values(s.history[a - 1]) == Result(s, s.threads[t]);
  }

  lemma {:induction false} SizeStays(run: seq<State>, n: nat)
    requires IsRun(run) && n < |run|
    ensures |run[n].cells| == |run[0].cells|
  {
    if n > 0 {
      SizeStays(run, n - 1);
      RunInv(run, n - 1);
      assert Next(run[n - 1], run[n - 1 + 1]);
      var t: nat :| Moves(run[n - 1], t, run[n]);
      StepShape(run[n - 1], t, run[n]);
    }
  }

  lemma SmallIsCurrent(run: seq<State>, n: nat, t: nat)
    requires IsRun(run) && n < |run| && Returns(run[n], t) && |run[0].cells| <= 1
    ensures Current(run[n], t)
  {
    hide IsRun;
    if VerdictOf(run[n], run[n].threads[t]) == Clean {
      CleanScansAreCurrent(run, n, t);
    } else {
      SizeStays(run, n);
      SingleRun(run, n);
      SingleIsCurrent(run[n], t);
    }
  }

  ghost predicate AlwaysCurrent(s: State) {
    forall run, n: nat, t: nat :: RunFrom(s, run) && n < |run| && Returns(run[n], t) ==> Current(run[n], t)
  }

  ghost predicate RunFrom(s: State, run: seq<State>) {
    IsRun(run) && run[0] == s
  }

  /** Scans return the table at an instant of their own exactly when there are fewer than two cells. */
  lemma CurrentIffSmall(s: State)
    requires Init(s)
    ensures AlwaysCurrent(s) <==> |s.cells| <= 1
  {
    if |s.cells| <= 1 {
      forall run, n: nat, t: nat | RunFrom(s, run) && n < |run| && Returns(run[n], t) ensures Current(run[n], t) {
        SmallIsCurrent(run, n, t);
      }
    } else {
      var s' := BorrowedScanCanBeStale(s, 0, 1, s.cells[0].value + 1);
      var run :| IsPath(run, s, s');
      assert RunFrom(s, run) && Returns(run[|run| - 1], 0);
      assert !Current(s', 0);
    }
  }
}
