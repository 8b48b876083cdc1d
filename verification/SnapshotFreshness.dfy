/** How old what a scan returns can be: exactly when it is a table the scan lived through, and that it
    is never older than the last moment at which no call was in progress. */
module SnapshotFreshness {
  import opened Snapshot

  /** Thread `t` is about to return from a scan. */
  ghost predicate Returns(s: State, t: nat) {
    t < |s.threads| && AtCompare(s, s.threads[t]) && !VerdictOf(s, s.threads[t]).Restart?
  }

  /** Instants from `lo` on at which the table was `cells`. */
  ghost predicate LivedThrough(h: seq<Cells>, cells: Cells, lo: nat) {
    exists i :: lo <= i < |h| && h[i] == cells
  }

  /** The table that a scan returns is one of those since the scan began exactly if it ended on two
      equal collects, or the update that stored the array it borrows had taken that array since
      then. */
  lemma CurrentIffTakenSince(run: seq<State>, n: nat, t: nat)
    requires IsRun(run) && n < |run| && Returns(run[n], t)
    ensures var s := run[n]; var scan := s.threads[t].scan;
            && TakenAt(s, s.threads[t]) < |s.history|
            && Result(s, s.threads[t]) == Values(s.history[TakenAt(s, s.threads[t])])
            && (LivedThrough(s.history, s.history[TakenAt(s, s.threads[t])], scan.began) <==>
                  match VerdictOf(s, s.threads[t])
                  case Borrow(j) => scan.prior[j].at >= scan.began
                  case _ => true)
  {
    hide IsRun;
    RunInv(run, n);
    var s := run[n];
    ResultWasTable(s, t);
    assert ThreadOk(s, t, s.threads[t]);
    hide HistoryOk, SnapsOk, Seen, Values;
    var at := TakenAt(s, s.threads[t]);
    assert at >= s.threads[t].scan.began ==> LivedThrough(s.history, s.history[at], s.threads[t].scan.began);
  }

  // ----- the last moment of rest -----

  ghost predicate AtRest(s: State) {
    forall t :: 0 <= t < |s.threads| ==> s.threads[t] == Idle
  }

  /** Whatever was stored since instant `q`, when the table was `base`, was also taken since. */
  ghost predicate TakenSince(h: seq<Cells>, q: nat) {
    && q < |h|
    && forall i, j :: q <= i < |h| && 0 <= j < |h[i]| && j < |h[q]| && h[i][j].stamp > h[q][j].stamp ==> h[i][j].at >= q
  }

  /** A call since instant `q`: what it has taken, and every move it has seen, is since then. */
  ghost predicate CallSince(h: seq<Cells>, q: nat, th: Thread)
    requires q < |h|
  {
    match th
    case Idle => true
    case Storing(_, _, at) => at >= q
    case Scanning(_, scan) =>
      && scan.began >= q
      && (scan.Again? ==> forall j :: j in scan.moved && j < |scan.prior| && j < |h[q]| ==>
            scan.prior[j].stamp > h[q][j].stamp)
  }

  ghost predicate SinceOk(s: State, q: nat) {
    && q < |s.history| && TakenSince(s.history, q)
    && forall t :: 0 <= t < |s.threads| ==> CallSince(s.history, q, s.threads[t])
  }

  /** A reading made since instant `q` is not older than the table then. */
  lemma SeenLater(s: State, q: nat, j: nat, c: Cell, lo: nat, hi: nat)
    requires HistoryOk(s.cells, s.history) && q <= lo && q < |s.history| && j < |s.cells|
    requires Seen(s.history, j, c, lo, hi)
    ensures j < |s.history[q]| && s.history[q][j].stamp <= c.stamp
    ensures TakenSince(s.history, q) && c.stamp > s.history[q][j].stamp ==> c.at >= q
  {
    var a :| lo <= a <= hi && a < |s.history| && j < |s.history[a]| && s.history[a][j] == c;
    assert Later(s.history[q][j], s.history[a][j]);
  }

  /** What a scan since instant `q` returns was taken since then. */
  lemma ResultSince(s: State, q: nat, t: nat)
    requires Inv(s) && SinceOk(s, q) && Returns(s, t)
    ensures TakenAt(s, s.threads[t]) >= q
  {
    hide HistoryOk, SnapsOk, Unrepeated, TakenSince, Seen;
    var th := s.threads[t];
    assert ThreadOk(s, t, th) && CallSince(s.history, q, th);
    if VerdictOf(s, th).Borrow? {
      var j := VerdictOf(s, th).from;
      SeenLater(s, q, j, th.scan.prior[j], th.scan.began, th.scan.since);
    }
  }

  lemma RestartSince(s: State, q: nat, t: nat, s': State)
    requires Inv(s) && SinceOk(s, q) && t < |s.threads| && s.threads[t].Scanning? && EndAgain(s, t, s')
    requires VerdictOf(s, s.threads[t]).Restart?
    ensures CallSince(s'.history, q, s'.threads[t])
  {
    hide HistoryOk, SnapsOk, Unrepeated, TakenSince, Seen;
    var th := s.threads[t];
    assert ThreadOk(s, t, th) && CallSince(s.history, q, th);
    forall j: nat | j < |s.cells|
      ensures j < |s.history[q]| && s.history[q][j].stamp <= th.scan.prior[j].stamp <= th.scan.copy[j].stamp
    {
      SeenLater(s, q, j, th.scan.prior[j], th.scan.began, th.scan.since);
      Sandwich(s, j, th.scan.prior[j], th.scan.copy[j], th.scan.began, th.scan.since, Now(s));
    }
  }

  lemma OwnSince(s: State, q: nat, t: nat, s': State)
    requires Inv(s) && SinceOk(s, q) && Moves(s, t, s')
    ensures |s'.threads| == |s.threads| && q < |s'.history| && CallSince(s'.history, q, s'.threads[t])
  {
    hide HistoryOk, SnapsOk, Unrepeated, Seen, TakenSince;
    StepShape(s, t, s');
    assert CallSince(s.history, q, s.threads[t]);
    if s.threads[t].Scanning? && EndAgain(s, t, s') {
      if VerdictOf(s, s.threads[t]).Restart? {
        RestartSince(s, q, t, s');
      } else {
        ResultSince(s, q, t);
      }
    }
  }

  lemma StoreSince(s: State, q: nat, t: nat, s': State)
    requires Inv(s) && SinceOk(s, q) && t < |s.threads| && s.threads[t].Storing? && Store(s, t, s')
    ensures TakenSince(s'.history, q)
  {
    hide SnapsOk, Unrepeated, ThreadOk;
    assert CallSince(s.history, q, s.threads[t]);
    var h: seq<Cells>, h': seq<Cells> := s.history, s'.history;
    forall i, j | q <= i < |h'| && 0 <= j < |h'[i]| && j < |h'[q]| && h'[i][j].stamp > h'[q][j].stamp
      ensures h'[i][j].at >= q
    {
      if i == |h| && j != t { assert h'[i][j] == h[|h| - 1][j]; }
    }
  }

  lemma SinceKeeps(s: State, q: nat, s': State)
    requires Inv(s) && SinceOk(s, q) && Next(s, s')
    ensures SinceOk(s', q)
  {
    hide HistoryOk, SnapsOk, Unrepeated, ThreadOk, TakenSince, CallSince;
    var t: nat :| Moves(s, t, s');
    StepShape(s, t, s');
    OwnSince(s, q, t, s');
    if s.threads[t].Storing? { StoreSince(s, q, t, s'); }
    forall u | 0 <= u < |s.threads| && u != t ensures CallSince(s'.history, q, s'.threads[u]) {
      OtherSince(s.history, s'.history, q, s.threads[u]);
    }
  }

  lemma OtherSince(h: seq<Cells>, h': seq<Cells>, q: nat, th: Thread)
    requires q < |h| && h <= h' && CallSince(h, q, th)
    ensures CallSince(h', q, th)
  {
    assert h'[q] == h[q];
  }

  lemma {:induction false} SinceRun(run: seq<State>, r: nat, n: nat)
    requires IsRun(run) && r <= n < |run| && AtRest(run[r])
    ensures |run[r].history| > 0 && SinceOk(run[n], Now(run[r]))
    decreases n
  {
    hide Inv, SinceOk, Next, AtRest;
    RunInv(run, r);
    LastIsNow(run[r]);
    if n == r {
      RestSince(run[r]);
    } else {
      SinceRun(run, r, n - 1);
      RunInv(run, n - 1);
      assert Next(run[n - 1], run[n - 1 + 1]);
      SinceKeeps(run[n - 1], Now(run[r]), run[n]);
    }
  }

  lemma RestSince(s: State)
    requires Inv(s) && AtRest(s) && |s.history| > 0
    ensures SinceOk(s, Now(s))
  { }

  /** The instants since state `r` of a run are tables of the run since then. */
  lemma {:induction false} HistorySince(run: seq<State>, r: nat, n: nat, i: nat) returns (m: nat)
    requires IsRun(run) && r <= n < |run| && |run[r].history| <= i + 1 <= |run[n].history|
    ensures r <= m <= n && run[m].cells == run[n].history[i]
    decreases n
  {
    hide Inv, Moves;
    RunInv(run, n);
    LastIsNow(run[n]);
    if n == r {
      m := r;
    } else {
      RunInv(run, n - 1);
      assert Next(run[n - 1], run[n - 1 + 1]);
      OneMore(run[n - 1], run[n]);
      if i < |run[n - 1].history| {
        m := HistorySince(run, r, n - 1, i);
      } else {
        m := n;
      }
    }
  }

  lemma OneMore(s: State, s': State)
    requires Inv(s) && Next(s, s')
    ensures s.history <= s'.history && |s'.history| <= |s.history| + 1
  {
    hide Inv, Moves;
    var t: nat :| Moves(s, t, s');
    StepShape(s, t, s');
  }

  lemma LastIsNow(s: State)
    requires Inv(s)
    ensures |s.history| > 0 && s.history[|s.history| - 1] == s.cells
  { }

  /** Quiescent consistency: if no call was in progress in state `r`, then whatever a scan returns
      later is the whole table in a state since then. */
  lemma NeverOlderThanRest(run: seq<State>, r: nat, n: nat, t: nat) returns (m: nat)
    requires IsRun(run) && r <= n < |run| && AtRest(run[r]) && Returns(run[n], t)
    ensures r <= m <= n && Result(run[n], run[n].threads[t]) == Values(run[m].cells)
  {
    hide IsRun, SinceOk;
    SinceRun(run, r, n);
    RunInv(run, n);
    hide Inv;
    ResultSince(run[n], Now(run[r]), t);
    ResultWasTable(run[n], t);
    m := HistorySince(run, r, n, TakenAt(run[n], run[n].threads[t]));
  }
}
