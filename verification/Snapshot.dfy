/** The wait-free snapshot object: every thread owns one cell of a table, an update first takes
    a scan, and a scan either sees two equal collects or borrows the scan of a cell that moved
    twice.  Reading one cell and writing one cell are single steps. */
module Snapshot {

  /** `at` is the instant at which the snapshot was taken; no step depends on it. */
  datatype Cell = Cell(stamp: nat, value: int, snap: seq<int>, at: nat)

  type Cells = seq<Cell>

  datatype Job = Update(value: int) | Report

  /** A scan in progress.  `began` and `since` are instants: the position in the history at
      which the scan started and at which its latest full collect was complete. */
  datatype Scan =
    | First(began: nat, copy: Cells)
    | Again(began: nat, prior: Cells, copy: Cells, moved: set<nat>, collects: nat, since: nat)

  datatype Thread = Idle | Scanning(job: Job, scan: Scan) 
                    | Storing(value: int, snap: seq<int>, at: nat)

  /** `history` records the table after every write, oldest first. */
  datatype State = State(cells: Cells, threads: seq<Thread>, history: seq<Cells>)

  datatype Verdict = Clean | Borrow(from: nat) | Restart(at: nat)

  function Values(cells: Cells): seq<int> {
    seq(|cells|, j requires 0 <= j < |cells| => cells[j].value)
  }

  /** The first position at or after `j` where the stamps differ. */
  function FirstMoved(prior: Cells, copy: Cells, j: nat): (r: nat)
    requires |prior| == |copy| && j <= |prior|
    ensures j <= r <= |prior|
    ensures forall i :: j <= i < r ==> prior[i].stamp == copy[i].stamp
    ensures r < |prior| ==> prior[r].stamp != copy[r].stamp
    decreases |prior| - j
  {
    if j == |prior| || prior[j].stamp != copy[j].stamp then j else FirstMoved(prior, copy, j + 1)
  }

  function Compare(prior: Cells, copy: Cells, moved: set<nat>): (v: Verdict)
    requires |prior| == |copy|
    ensures v == Clean <==> forall i :: 0 <= i < |prior| ==> prior[i].stamp == copy[i].stamp
    ensures v != Clean ==> var j := if v.Borrow? then v.from else v.at;
                           && j < |prior| && prior[j].stamp != copy[j].stamp && (v.Borrow? <==> j in moved)
                           && forall i :: 0 <= i < j ==> prior[i].stamp == copy[i].stamp
  {
    var j := FirstMoved(prior, copy, 0);
    if j == |prior| then Clean else if j in moved then Borrow(j) else Restart(j)
  }

  /** The comparison loop of one round of a scan. */
  method CompareCollects(prior: Cells, copy: Cells, moved: set<nat>) returns (v: Verdict)
    requires |prior| == |copy|
    ensures v == Compare(prior, copy, moved)
    ensures v == Clean <==> forall i :: 0 <= i < |prior| ==> prior[i].stamp == copy[i].stamp
    ensures v != Clean ==> var j := if v.Borrow? then v.from else v.at;
                           && j < |prior| && prior[j].stamp != copy[j].stamp && (v.Borrow? <==> j in moved)
                           && forall i :: 0 <= i < j ==> prior[i].stamp == copy[i].stamp
  {
    for j := 0 to |prior|
      invariant FirstMoved(prior, copy, 0) == FirstMoved(prior, copy, j)
    {
      if prior[j].stamp != copy[j].stamp {
        if j in moved {
          return Borrow(j);
        }
        return Restart(j);
      }
    }
    return Clean;
  }

  // ----- steps -----

  /** A scan whose current collect is complete and that has an earlier one to compare with. */
  predicate AtCompare(s: State, th: Thread) {
    th.Scanning? && th.scan.Again? && |th.scan.copy| == |th.scan.prior| == |s.cells|
  }

  function VerdictOf(s: State, th: Thread): Verdict
    requires AtCompare(s, th)
  {
    Compare(th.scan.prior, th.scan.copy, th.scan.moved)
  }

  /** What the scan is about to return. */
  function Result(s: State, th: Thread): seq<int>
    requires AtCompare(s, th) && !VerdictOf(s, th).Restart?
  {
    match VerdictOf(s, th)
    case Clean => Values(th.scan.copy)
    case Borrow(j) => th.scan.prior[j].snap
  }

  /** The instant at which what it is about to return was taken. */
  function TakenAt(s: State, th: Thread): nat
    requires AtCompare(s, th) && !VerdictOf(s, th).Restart?
  {
    match VerdictOf(s, th)
    case Clean => th.scan.since
    case Borrow(j) => th.scan.prior[j].at
  }

  function Goto(s: State, t: nat, th: Thread): State
    requires t < |s.threads|
  {
    s.(threads := s.threads[t := th])
  }

  function Now(s: State): nat
    requires |s.history| > 0
  {
    |s.history| - 1
  }

  /** Threads with an index below the table's size own a cell; others may only scan. */
  ghost predicate StartJob(s: State, t: nat, job: Job, s': State)
    requires t < |s.threads| && |s.history| > 0
  {
    s.threads[t] == Idle && (job.Update? ==> t < |s.cells|) && s' == Goto(s, t, Scanning(job, First(Now(s), [])))
  }

  ghost predicate Start(s: State, t: nat, s': State)
    requires t < |s.threads| && |s.history| > 0
  {
    exists job: Job :: StartJob(s, t, job, s')
  }

  ghost predicate ReadCell(s: State, t: nat, s': State)
    requires t < |s.threads| && s.threads[t].Scanning?
  {
    var th := s.threads[t];
    var copy := th.scan.copy;
    |copy| < |s.cells| && s' == Goto(s, t, th.(scan := th.scan.(copy := copy + [s.cells[|copy|]])))
  }

  ghost predicate EndFirst(s: State, t: nat, s': State)
    requires t < |s.threads| && s.threads[t].Scanning? && |s.history| > 0
  {
    var th := s.threads[t];
    && th.scan.First? && |th.scan.copy| == |s.cells|
    && s' == Goto(s, t, th.(scan := Again(th.scan.began, th.scan.copy, [], {}, 2, Now(s))))
  }

  ghost predicate EndAgain(s: State, t: nat, s': State)
    requires t < |s.threads| && s.threads[t].Scanning? && |s.history| > 0
  {
    var th := s.threads[t];
    && AtCompare(s, th)
    && var scan := th.scan;
       match VerdictOf(s, th)
       case Restart(j) =>
         s' == Goto(s, t, th.(scan := Again(scan.began, scan.copy, [], scan.moved + {j}, scan.collects + 1, Now(s))))
       case _ =>
         s' == Goto(s, t, if th.job.Update? then Storing(th.job.value, Result(s, th), TakenAt(s, th)) else Idle)
  }

  ghost predicate Store(s: State, t: nat, s': State)
    requires t < |s.threads| && s.threads[t].Storing?
  {
    && t < |s.cells|
    && var th := s.threads[t];
       var cells := s.cells[t := Cell(s.cells[t].stamp + 1, th.value, th.snap, th.at)];
       s' == State(cells, s.threads[t := Idle], s.history + [cells])
  }

  ghost predicate Moves(s: State, t: nat, s': State) {
    && t < |s.threads| && |s.history| > 0
    && match s.threads[t]
       case Idle => Start(s, t, s')
       case Scanning(_, _) => ReadCell(s, t, s') || EndFirst(s, t, s') || EndAgain(s, t, s')
       case Storing(_, _, _) => Store(s, t, s')
  }

  ghost predicate Next(s: State, s': State) {
    exists t: nat :: Moves(s, t, s')
  }

  /** All stamps start at zero; nothing is said of the snapshots in the initial cells. */
  ghost predicate Init(s: State) {
    && (forall j :: 0 <= j < |s.cells| ==> s.cells[j].stamp == 0)
    && |s.cells| <= |s.threads|
    && (forall t :: 0 <= t < |s.threads| ==> s.threads[t] == Idle)
    && s.history == [s.cells]
  }

  ghost predicate Steps(path: seq<State>) {
    |path| > 0 && forall n :: 0 <= n < |path| - 1 ==> Next(path[n], path[n + 1])
  }

  ghost predicate IsRun(run: seq<State>) {
    Steps(run) && Init(run[0])
  }

  // ----- the invariant -----

  /** Instants are tables of the right size whose stamps never go back, and an unchanged stamp
      means an unchanged cell. */
  ghost predicate HistoryOk(cells: Cells, h: seq<Cells>) {
    && |h| > 0 && h[|h| - 1] == cells
    && (forall i :: 0 <= i < |h| ==> |h[i]| == |cells|)
    && (forall i, k, j :: 0 <= i <= k < |h| && 0 <= j < |cells| ==> Later(h[i][j], h[k][j]))
  }

  ghost predicate Later(c: Cell, d: Cell) {
    c.stamp <= d.stamp && (c.stamp == d.stamp ==> c == d)
  }

  /** Cell `j` was `c` at some instant from `lo` to `hi`. */
  ghost predicate Seen(h: seq<Cells>, j: nat, c: Cell, lo: nat, hi: nat) {
    exists a :: lo <= a <= hi && a < |h| && j < |h[a]| && h[a][j] == c
  }

  /** The array was the whole table at instant `at`. */
  ghost predicate WasTable(h: seq<Cells>, r: seq<int>, at: nat) {
    at < |h| && Values(h[at]) == r
  }

  /** No table recurs. */
  ghost predicate Unrepeated(h: seq<Cells>) {
    forall i, k :: 0 <= i < k < |h| ==> h[i] != h[k]
  }

  /** Every snapshot ever stored by an update was the whole table at some instant. */
  ghost predicate SnapsOk(h: seq<Cells>) {
    forall i, j :: 0 <= i < |h| && 0 <= j < |h[i]| && h[i][j].stamp > 0 ==>
      WasTable(h, h[i][j].snap, h[i][j].at)
  }

  ghost predicate ScanOk(s: State, t: nat, scan: Scan)
    requires |s.history| > 0
  {
    && scan.began <= Now(s) && |scan.copy| <= |s.cells|
    && match scan
       case First(began, copy) =>
         && (forall j :: 0 <= j < |copy| ==> Seen(s.history, j, copy[j], began, Now(s)))
         && (t < |copy| ==> copy[t] == s.cells[t])
       case Again(began, prior, copy, moved, collects, since) =>
         && |prior| == |s.cells| && began <= since <= Now(s)
         && (forall j :: 0 <= j < |prior| ==> Seen(s.history, j, prior[j], began, since))
         && (forall j :: 0 <= j < |copy| ==> Seen(s.history, j, copy[j], since, Now(s)))
         && (forall j :: j in moved ==> j < |prior| && prior[j].stamp > 0)
         && collects == |moved| + 2
         && (t < |prior| ==> prior[t] == s.cells[t] && t !in moved)
         && (t < |copy| ==> copy[t] == s.cells[t])
  }

  ghost predicate ThreadOk(s: State, t: nat, th: Thread)
    requires |s.history| > 0
  {
    match th
    case Idle => true
    case Scanning(job, scan) => ScanOk(s, t, scan) && (job.Update? ==> t < |s.cells|)
    case Storing(_, snap, at) => t < |s.cells| && WasTable(s.history, snap, at)
  }

  ghost predicate Inv(s: State) {
    && |s.history| > 0 && HistoryOk(s.cells, s.history) && Unrepeated(s.history) && SnapsOk(s.history)
    && |s.cells| <= |s.threads|
    && forall t :: 0 <= t < |s.threads| ==> ThreadOk(s, t, s.threads[t])
  }

  lemma InitInv(s: State)
    requires Init(s)
    ensures Inv(s)
  { }

  lemma SeenGrows(h: seq<Cells>, h': seq<Cells>, j: nat, c: Cell, lo: nat, hi: nat, hi': nat)
    requires h <= h' && hi <= hi' && Seen(h, j, c, lo, hi)
    ensures Seen(h', j, c, lo, hi')
  {
    var a :| lo <= a <= hi && a < |h| && j < |h[a]| && h[a][j] == c;
    assert h'[a] == h[a];
  }

  lemma WasTableGrows(h: seq<Cells>, h': seq<Cells>, r: seq<int>, at: nat)
    requires h <= h' && WasTable(h, r, at)
    ensures WasTable(h', r, at)
  {
    assert h'[at] == h[at];
  }

  /** Two readings of a cell around an instant with one stamp are the cell at that instant. */
  lemma Sandwich(s: State, j: nat, c: Cell, d: Cell, lo: nat, mid: nat, hi: nat)
    requires HistoryOk(s.cells, s.history) && j < |s.cells| && mid < |s.history|
    requires Seen(s.history, j, c, lo, mid) && Seen(s.history, j, d, mid, hi)
    ensures Later(c, s.history[mid][j]) && Later(s.history[mid][j], d) && Later(c, d)
    ensures c.stamp == d.stamp ==> s.history[mid][j] == c == d
  {
    var a :| lo <= a <= mid && a < |s.history| && j < |s.history[a]| && s.history[a][j] == c;
    var b :| mid <= b <= hi && b < |s.history| && j < |s.history[b]| && s.history[b][j] == d;
    assert Later(s.history[a][j], s.history[mid][j]);
    assert Later(s.history[mid][j], s.history[b][j]);
  }

  /** A clean double collect is the whole table at the instant between the two collects. */
  lemma CleanCollect(s: State, t: nat)
    requires Inv(s) && t < |s.threads| && AtCompare(s, s.threads[t]) && VerdictOf(s, s.threads[t]) == Clean
    ensures s.threads[t].scan.began <= s.threads[t].scan.since < |s.history|
    ensures s.threads[t].scan.copy == s.history[s.threads[t].scan.since]
  {
    hide Unrepeated, SnapsOk, Seen;
    var scan := s.threads[t].scan;
    assert ThreadOk(s, t, s.threads[t]);
    assert |s.history[scan.since]| == |s.cells|;
    hide HistoryOk;
    forall j | 0 <= j < |s.cells| ensures scan.copy[j] == s.history[scan.since][j] {
      Sandwich(s, j, scan.prior[j], scan.copy[j], scan.began, scan.since, Now(s));
    }
  }

  /** Whatever a scan returns was the whole table at some instant. */
  lemma ResultWasTable(s: State, t: nat)
    requires Inv(s) && t < |s.threads| && AtCompare(s, s.threads[t]) && !VerdictOf(s, s.threads[t]).Restart?
    ensures WasTable(s.history, Result(s, s.threads[t]), TakenAt(s, s.threads[t]))
  {
    var scan := s.threads[t].scan;
    assert ThreadOk(s, t, s.threads[t]);
    if VerdictOf(s, s.threads[t]) == Clean {
      CleanCollect(s, t);
    } else {
      var j := VerdictOf(s, s.threads[t]).from;
      assert Seen(s.history, j, scan.prior[j], scan.began, scan.since);
    }
  }

  // ----- every step keeps the invariant -----

  /** Only a store changes the table, in the cell of the storing thread. */
  lemma StepShape(s: State, t: nat, s': State)
    requires Inv(s) && Moves(s, t, s')
    ensures |s'.threads| == |s.threads| && |s'.cells| == |s.cells| && s.history <= s'.history
    ensures forall u :: 0 <= u < |s.threads| && u != t ==> s'.threads[u] == s.threads[u]
    ensures forall j :: 0 <= j < |s.cells| && j != t ==> s'.cells[j] == s.cells[j]
    ensures if s.threads[t].Storing? then Store(s, t, s') else s'.cells == s.cells && s'.history == s.history
  {
    hide HistoryOk, Unrepeated, SnapsOk, Result, AtCompare, VerdictOf;
  }

  lemma StoreHistory(cells: Cells, h: seq<Cells>, t: nat, c: Cell)
    requires HistoryOk(cells, h) && t < |cells| && c.stamp == cells[t].stamp + 1
    ensures HistoryOk(cells[t := c], h + [cells[t := c]])
  {
    var h': seq<Cells> := h + [cells[t := c]];
    forall i, k, j | 0 <= i <= k < |h'| && 0 <= j < |cells| ensures Later(h'[i][j], h'[k][j]) {
      if i < |h| && k == |h| { assert Later(h[i][j], h[|h| - 1][j]); }
    }
  }

  lemma StoreUnrepeated(cells: Cells, h: seq<Cells>, t: nat, c: Cell)
    requires HistoryOk(cells, h) && Unrepeated(h) && t < |cells| && c.stamp == cells[t].stamp + 1
    ensures Unrepeated(h + [cells[t := c]])
  {
    forall i | 0 <= i < |h| ensures h[i] != cells[t := c] { assert Later(h[i][t], h[|h| - 1][t]); }
  }

  lemma StoreSnaps(cells: Cells, h: seq<Cells>, t: nat, c: Cell)
    requires HistoryOk(cells, h) && SnapsOk(h) && t < |cells| && WasTable(h, c.snap, c.at)
    ensures SnapsOk(h + [cells[t := c]])
  {
    hide WasTable;
    var h': seq<Cells> := h + [cells[t := c]];
    forall i, j | 0 <= i < |h'| && 0 <= j < |h'[i]| && h'[i][j].stamp > 0
      ensures WasTable(h', h'[i][j].snap, h'[i][j].at)
    {
      assert i == |h| && j != t ==> h'[i][j] == h[|h| - 1][j];
      WasTableGrows(h, h', h'[i][j].snap, h'[i][j].at);
    }
  }

  lemma StoreKeeps(s: State, t: nat, s': State)
    requires Inv(s) && t < |s.threads| && s.threads[t].Storing? && Store(s, t, s')
    ensures HistoryOk(s'.cells, s'.history) && Unrepeated(s'.history) && SnapsOk(s'.history)
  {
    hide HistoryOk, Unrepeated, SnapsOk, WasTable;
    assert ThreadOk(s, t, s.threads[t]);
    StoreHistory(s.cells, s.history, t, s'.cells[t]);
    StoreUnrepeated(s.cells, s.history, t, s'.cells[t]);
    StoreSnaps(s.cells, s.history, t, s'.cells[t]);
  }

  lemma OtherThreadOk(s: State, t: nat, s': State, u: nat)
    requires Inv(s) && Moves(s, t, s') && u < |s.threads| && u != t
    ensures |s'.history| > 0 && ThreadOk(s', u, s.threads[u])
  {
    hide Moves, HistoryOk, Unrepeated, SnapsOk, Seen, WasTable;
    StepShape(s, t, s');
    assert ThreadOk(s, u, s.threads[u]);
    var h, h' := s.history, s'.history;
    match s.threads[u] {
      case Idle =>
      case Storing(_, snap, at) => WasTableGrows(h, h', snap, at);
      case Scanning(_, scan) =>
        var lo := if scan.First? then scan.began else scan.since;
        forall j: nat | j < |scan.copy| ensures Seen(h', j, scan.copy[j], lo, Now(s')) {
          SeenGrows(h, h', j, scan.copy[j], lo, Now(s), Now(s'));
        }
        if scan.Again? {
          forall j: nat | j < |scan.prior| ensures Seen(h', j, scan.prior[j], scan.began, scan.since) {
            SeenGrows(h, h', j, scan.prior[j], scan.began, scan.since, scan.since);
          }
        }
    }
  }

  lemma SeenNow(s: State, j: nat, lo: nat)
    requires HistoryOk(s.cells, s.history) && j < |s.cells| && lo <= Now(s)
    ensures Seen(s.history, j, s.cells[j], lo, Now(s))
  {
    assert s.history[Now(s)][j] == s.cells[j];
  }

  lemma ReadOk(s: State, t: nat, s': State)
    requires Inv(s) && t < |s.threads| && s.threads[t].Scanning? && ReadCell(s, t, s')
    ensures |s'.history| > 0 && ThreadOk(s', t, s'.threads[t])
  {
    hide Seen, HistoryOk, Unrepeated, SnapsOk;
    var scan := s.threads[t].scan;
    assert ThreadOk(s, t, s.threads[t]);
    SeenNow(s, |scan.copy|, if scan.First? then scan.began else scan.since);
  }

  lemma EndFirstOk(s: State, t: nat, s': State)
    requires Inv(s) && t < |s.threads| && s.threads[t].Scanning? && |s.history| > 0 && EndFirst(s, t, s')
    ensures ThreadOk(s', t, s'.threads[t])
  {
    hide HistoryOk, Unrepeated, SnapsOk, Seen;
    assert ThreadOk(s, t, s.threads[t]);
  }

  lemma RestartOk(s: State, t: nat, s': State)
    requires Inv(s) && t < |s.threads| && s.threads[t].Scanning? && |s.history| > 0 && EndAgain(s, t, s')
    requires VerdictOf(s, s.threads[t]).Restart?
    ensures ThreadOk(s', t, s'.threads[t])
  {
    hide HistoryOk, Unrepeated, SnapsOk, Seen;
    var scan := s.threads[t].scan;
    assert ThreadOk(s, t, s.threads[t]);
    forall j: nat | j < |s.cells|
      ensures Later(scan.prior[j], scan.copy[j]) && Seen(s.history, j, scan.copy[j], scan.began, Now(s))
    {
      Sandwich(s, j, scan.prior[j], scan.copy[j], scan.began, scan.since, Now(s));
      SeenEarlier(s.history, j, scan.copy[j], scan.began, scan.since, Now(s));
    }
  }

  lemma SeenEarlier(h: seq<Cells>, j: nat, c: Cell, lo: nat, lo': nat, hi: nat)
    requires lo <= lo' && Seen(h, j, c, lo', hi)
    ensures Seen(h, j, c, lo, hi)
  { }

  lemma OwnThreadOk(s: State, t: nat, s': State)
    requires Inv(s) && Moves(s, t, s')
    ensures |s'.history| > 0 && |s'.threads| == |s.threads| && ThreadOk(s', t, s'.threads[t])
  {
    StepShape(s, t, s');
    if s.threads[t].Scanning? {
      if ReadCell(s, t, s') {
        ReadOk(s, t, s');
      } else if EndFirst(s, t, s') {
        EndFirstOk(s, t, s');
      } else if VerdictOf(s, s.threads[t]).Restart? {
        RestartOk(s, t, s');
      } else {
        ResultWasTable(s, t);
        assert ThreadOk(s, t, s.threads[t]);
      }
    }
  }

  lemma NextKeeps(s: State, s': State)
    requires Inv(s) && Next(s, s')
    ensures Inv(s')
  {
    hide HistoryOk, Unrepeated, SnapsOk, ThreadOk;
    var t: nat :| Moves(s, t, s');
    StepShape(s, t, s');
    if s.threads[t].Storing? { StoreKeeps(s, t, s'); }
    OwnThreadOk(s, t, s');
    hide Moves;
    forall u: nat | u < |s'.threads| ensures ThreadOk(s', u, s'.threads[u]) {
      if u != t { OtherThreadOk(s, t, s', u); }
    }
  }

  lemma {:induction false} RunInv(run: seq<State>, n: nat)
    requires IsRun(run) && n < |run|
    ensures Inv(run[n])
  {
    hide Inv, Next;
    if n == 0 {
      InitInv(run[0]);
    } else {
      RunInv(run, n - 1);
      assert Next(run[n - 1], run[n - 1 + 1]);
      NextKeeps(run[n - 1], run[n]);
    }
  }

  // ----- what every run satisfies -----

  /** The history of a run is made of the tables it went through. */
  lemma {:induction false} HistoryIsRun(run: seq<State>, n: nat, i: nat) returns (m: nat)
    requires IsRun(run) && n < |run| && i < |run[n].history|
    ensures m <= n && run[m].cells == run[n].history[i]
  {
    if n == 0 {
      return 0;
    }
    RunInv(run, n - 1);
    assert Next(run[n - 1], run[n - 1 + 1]);
    var t: nat :| Moves(run[n - 1], t, run[n]);
    StepShape(run[n - 1], t, run[n]);
    if i < |run[n - 1].history| {
      m := HistoryIsRun(run, n - 1, i);
    } else {
      m := n;
    }
  }

  /** Every array that a scan returns is the whole table at one moment of the run. */
  lemma ScansAreConsistent(run: seq<State>, n: nat, t: nat) returns (m: nat)
    requires IsRun(run) && n < |run| && t < |run[n].threads|
    requires AtCompare(run[n], run[n].threads[t]) && !VerdictOf(run[n], run[n].threads[t]).Restart?
    ensures m <= n && |Result(run[n], run[n].threads[t])| == |run[m].cells|
    ensures forall j :: 0 <= j < |run[m].cells| ==> Result(run[n], run[n].threads[t])[j] == run[m].cells[j].value
    ensures TakenAt(run[n], run[n].threads[t]) < |run[n].history|
    ensures run[m].cells == run[n].history[TakenAt(run[n], run[n].threads[t])]
  {
    RunInv(run, n);
    hide Inv, IsRun;
    ResultWasTable(run[n], t);
    m := HistoryIsRun(run, n, TakenAt(run[n], run[n].threads[t]));
  }

  /** So is every array that an update has stored. */
  lemma StoredSnapsAreConsistent(run: seq<State>, n: nat, j: nat) returns (m: nat)
    requires IsRun(run) && n < |run| && j < |run[n].cells| && run[n].cells[j].stamp > 0
    ensures m <= n && |run[n].cells[j].snap| == |run[m].cells|
    ensures forall i :: 0 <= i < |run[m].cells| ==> run[n].cells[j].snap[i] == run[m].cells[i].value
  {
    hide IsRun;
    RunInv(run, n);
    var h := run[n].history;
    assert h[|h| - 1][j] == run[n].cells[j];
    assert WasTable(h, run[n].cells[j].snap, run[n].cells[j].at);
    hide Inv;
    m := HistoryIsRun(run, n, run[n].cells[j].at);
  }

  /** A scan that ends on two equal collects returns the table as it was between them. */
  lemma CleanScansAreCurrent(run: seq<State>, n: nat, t: nat)
    requires IsRun(run) && n < |run| && t < |run[n].threads|
    requires AtCompare(run[n], run[n].threads[t]) && VerdictOf(run[n], run[n].threads[t]) == Clean
    ensures var scan := run[n].threads[t].scan;
            && scan.began <= scan.since < |run[n].history|
            && Result(run[n], run[n].threads[t]) == Values(run[n].history[scan.since])
  {
    RunInv(run, n);
    hide Inv, IsRun;
    CleanCollect(run[n], t);
  }

  lemma SubsetSize(a: set<nat>, n: nat)
    requires forall j :: j in a ==> j < n
    ensures |a| <= n
  {
    if n == 0 {
      assert a == {};
    } else {
      SubsetSize(a - {n - 1}, n - 1);
      assert a <= (a - {n - 1}) + {n - 1};
    }
  }

  /** A scan makes at most two collects more than there are cells, and one fewer when the
      scanning thread owns a cell. */
  lemma FewCollects(run: seq<State>, n: nat, t: nat)
    requires IsRun(run) && n < |run| && t < |run[n].threads|
    requires run[n].threads[t].Scanning? && run[n].threads[t].scan.Again?
    ensures run[n].threads[t].scan.collects <= |run[n].cells| + if t < |run[n].cells| then 1 else 2
  {
    hide IsRun, HistoryOk, Unrepeated, SnapsOk, Seen;
    RunInv(run, n);
    var scan := run[n].threads[t].scan;
    assert ThreadOk(run[n], t, run[n].threads[t]);
    var size := |run[n].cells|;
    SubsetSize(scan.moved, size);
    if t < size {
      SubsetSize(scan.moved + {t}, size);
    }
  }

  /** An upper bound on the steps a thread still needs for the call it is in. */
  function StepsLeft(size: nat, th: Thread): int {
    match th
    case Idle => 0
    case Storing(_, _, _) => 1
    case Scanning(_, scan) =>
      match scan
      case First(_, copy) => Rounds(size, size + 1) + (size - |copy|) + 2
      case Again(_, _, copy, moved, _, _) => Rounds(size, size - |moved|) + (size - |copy|) + 2
  }

  /** The steps of `k` full rounds, each of `size` reads and one comparison. */
  function Rounds(size: nat, k: int): (r: int)
    ensures r >= 0
  {
    if k <= 0 then 0 else size + 1 + Rounds(size, k - 1)
  }

  lemma OwnStepCounts(s: State, t: nat, s': State)
    requires Inv(s) && Moves(s, t, s') && s.threads[t] != Idle
    ensures |s'.threads| == |s.threads| && |s'.cells| == |s.cells|
    ensures StepsLeft(|s.cells|, s'.threads[t]) < StepsLeft(|s.cells|, s.threads[t])
  {
    hide HistoryOk, Unrepeated, SnapsOk, WasTable, Seen, Values;
    var size := |s.cells|;
    assert ThreadOk(s, t, s.threads[t]);
    if AtCompare(s, s.threads[t]) && VerdictOf(s, s.threads[t]).Restart? {
      SubsetSize(s.threads[t].scan.moved + {VerdictOf(s, s.threads[t]).at}, size);
    }
  }

  /** Wait-freedom: each own step of a thread that has started a call brings its end nearer,
      and steps of the other threads do not touch the bound. */
  lemma WaitFree(run: seq<State>, n: nat, t: nat, u: nat)
    requires IsRun(run) && n + 1 < |run| && Moves(run[n], t, run[n + 1]) && u < |run[n].threads|
    ensures |run[n + 1].threads| == |run[n].threads| && |run[n + 1].cells| == |run[n].cells|
    ensures StepsLeft(|run[n].cells|, run[n].threads[u]) >= 0
    ensures u == t && run[n].threads[t] != Idle ==>
              StepsLeft(|run[n].cells|, run[n + 1].threads[t]) < StepsLeft(|run[n].cells|, run[n].threads[t])
    ensures u != t ==> run[n + 1].threads[u] == run[n].threads[u]
  {
    hide IsRun, Moves, HistoryOk, Unrepeated, SnapsOk, WasTable, Seen;
    RunInv(run, n);
    StepShape(run[n], t, run[n + 1]);
    assert ThreadOk(run[n], u, run[n].threads[u]);
    if u == t && run[n].threads[t] != Idle { OwnStepCounts(run[n], t, run[n + 1]); }
  }

  /** A thread in the middle of a call can always take its next step. */
  lemma NeverBlocked(run: seq<State>, n: nat, t: nat)
    requires IsRun(run) && n < |run| && t < |run[n].threads| && run[n].threads[t] != Idle
    ensures exists s': State :: Moves(run[n], t, s')
  {
    hide IsRun, HistoryOk, Unrepeated, SnapsOk, WasTable, Seen;
    RunInv(run, n);
    var s := run[n];
    assert ThreadOk(s, t, s.threads[t]);
    var s' := OwnStep(s, t);
    assert Moves(s, t, s');
  }

  lemma OwnStep(s: State, t: nat) returns (s': State)
    requires Inv(s) && t < |s.threads| && s.threads[t] != Idle
    ensures Moves(s, t, s')
  {
    hide HistoryOk, Unrepeated, SnapsOk, WasTable, Seen;
    var th := s.threads[t];
    assert ThreadOk(s, t, th);
    match th {
      case Storing(value, snap, at) =>
        var cells := s.cells[t := Cell(s.cells[t].stamp + 1, value, snap, at)];
        s' := State(cells, s.threads[t := Idle], s.history + [cells]);
      case Scanning(job, scan) =>
        if |scan.copy| < |s.cells| {
          s' := Goto(s, t, th.(scan := scan.(copy := scan.copy + [s.cells[|scan.copy|]])));
        } else if scan.First? {
          s' := Goto(s, t, th.(scan := Again(scan.began, scan.copy, [], {}, 2, Now(s))));
        } else if VerdictOf(s, th).Restart? {
          var moved := scan.moved + {VerdictOf(s, th).at};
          s' := Goto(s, t, th.(scan := Again(scan.began, scan.copy, [], moved, scan.collects + 1, Now(s))));
        } else {
          s' := Goto(s, t, if job.Update? then Storing(job.value, Result(s, th), TakenAt(s, th)) else Idle);
        }
    }
  }
}
