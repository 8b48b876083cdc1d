/** The serial meaning of a commit log: replaying the logged transactions one after the
    other, as the marking program does. */
module SerialReplay {
  import opened Sums

  datatype Log = Log(commitId: nat, i: nat, j: nat, k: nat, vi: int, vj: int, vk: int)

  /** Records among the first `n`.  The marking program replays an entry whose records are not
      distinct as well. */
  predicate LogOk(log: Log, n: nat) {
    log.i < n && log.j < n && log.k < n
  }

  predicate ThreeRecords(log: Log) {
    log.i != log.j && log.k != log.i && log.k != log.j
  }

  predicate LogsOk(logs: seq<Log>, n: nat) {
    forall m :: 0 <= m < |logs| ==> LogOk(logs[m], n)
  }

  /** Execute one logged transaction on its own. */
  function Replay1(records: seq<int>, log: Log): (r: seq<int>)
    requires LogOk(log, |records|)
    ensures |r| == |records|
  {
    var v := records[log.i];
    var written := records[log.j := records[log.j] + (v + 1)];
    written[log.k := written[log.k] - v]
  }

  /** Execute the log from records that all hold 100. */
  function Replay(n: nat, logs: seq<Log>): (r: seq<int>)
    requires LogsOk(logs, n)
    ensures |r| == n
  {
    if logs == [] then seq(n, _ => 100)
    else Replay1(Replay(n, logs[..|logs| - 1]), logs[|logs| - 1])
  }

  /** The logged values are the ones a serial execution on `records` produces. */
  predicate Agrees(records: seq<int>, log: Log)
    requires LogOk(log, |records|)
  {
    var v := records[log.i];
    var written := records[log.j := records[log.j] + (v + 1)];
    log.vi == v && log.vj == written[log.j] && log.vk == written[log.k] - v
  }

  /** Entry `m` carries the values of the serial execution after its predecessors. */
  ghost predicate AgreesAt(n: nat, logs: seq<Log>, m: nat)
    requires LogsOk(logs, n) && m < |logs|
  {
    Agrees(Replay(n, logs[..m]), logs[m])
  }

  /** Numbered 1, 2, 3, ... without a gap, each on three distinct records, and serial in that
      order. */
  ghost predicate Serial(n: nat, logs: seq<Log>) {
    && LogsOk(logs, n)
    && forall m :: 0 <= m < |logs| ==> logs[m].commitId == m + 1 && ThreeRecords(logs[m]) && AgreesAt(n, logs, m)
  }

  lemma ReplayNext(n: nat, logs: seq<Log>, m: nat)
    requires LogsOk(logs, n) && m < |logs|
    ensures Replay(n, logs[..m + 1]) == Replay1(Replay(n, logs[..m]), logs[m])
  {
    assert logs[..m + 1][..m] == logs[..m];
  }

  /** What a replayed transaction does to each record. */
  lemma Replay1Means(records: seq<int>, log: Log, r: nat)
    requires LogOk(log, |records|) && r < |records|
    ensures Replay1(records, log)[r] ==
            records[r] + (if r == log.j then records[log.i] + 1 else 0) - (if r == log.k then records[log.i] else 0)
  { }

  /** An entry agrees with the replay exactly if its three values are those that the records have in
      it: the first before the transaction, the others when they are written. */
  lemma AgreesMeans(n: nat, logs: seq<Log>, m: nat)
    requires LogsOk(logs, n) && m < |logs|
    ensures var log, before, after := logs[m], Replay(n, logs[..m]), Replay(n, logs[..m + 1]);
            && (AgreesAt(n, logs, m) <==>
                  log.vi == before[log.i] && log.vj == before[log.j] + before[log.i] + 1 && log.vk == after[log.k])
            && (log.j != log.k ==> after[log.j] == before[log.j] + before[log.i] + 1)
  {
    ReplayNext(n, logs, m);
  }

  /** What the logged transactions have added to record `r`, from the logged values alone. */
  function Net(logs: seq<Log>, r: nat): int {
    if logs == [] then 0
    else
      var log := logs[|logs| - 1];
      Net(logs[..|logs| - 1], r) + (if log.j == r then log.vi + 1 else 0) - (if log.k == r then log.vi else 0)
  }

  /** In a serial log every record is 100 plus what the logged values say was added to it. */
  lemma {:induction false} RecordIsNet(n: nat, logs: seq<Log>, r: nat)
    requires Serial(n, logs) && r < n
    ensures Replay(n, logs)[r] == 100 + Net(logs, r)
    decreases |logs|
  {
    if logs != [] {
      var m := |logs| - 1;
      SerialPrefix(n, logs, m);
      RecordIsNet(n, logs[..m], r);
      assert AgreesAt(n, logs, m);
      Replay1Means(Replay(n, logs[..m]), logs[m], r);
    }
  }

  lemma SerialPrefix(n: nat, logs: seq<Log>, x: nat)
    requires Serial(n, logs) && x <= |logs|
    ensures Serial(n, logs[..x])
  {
    forall m | 0 <= m < x
      ensures logs[..x][m].commitId == m + 1 && ThreeRecords(logs[..x][m]) && AgreesAt(n, logs[..x], m)
    {
      assert AgreesAt(n, logs, m) && logs[..x][..m] == logs[..m];
    }
  }

  lemma SerialAppend(n: nat, logs: seq<Log>, log: Log)
    requires Serial(n, logs) && LogOk(log, n) && ThreeRecords(log)
    requires log.commitId == |logs| + 1 && Agrees(Replay(n, logs), log)
    ensures Serial(n, logs + [log])
    ensures Replay(n, logs + [log]) == Replay1(Replay(n, logs), log)
  {
    var all := logs + [log];
    assert all[..|logs|] == logs;
    forall m | 0 <= m < |all| ensures all[m].commitId == m + 1 && ThreeRecords(all[m]) && AgreesAt(n, all, m) {
      if m < |logs| { assert all[..m] == logs[..m] && all[m] == logs[m] && AgreesAt(n, logs, m); }
    }
  }

  /** Each transaction adds exactly one to the sum of all records. */
  lemma {:induction false} SumOfReplay(n: nat, logs: seq<Log>)
    requires LogsOk(logs, n)
    ensures Sum(Replay(n, logs)) == 100 * n + |logs|
    decreases |logs|
  {
    if logs == [] {
      SumConstant(n, 100);
    } else {
      var log := logs[|logs| - 1];
      var before := Replay(n, logs[..|logs| - 1]);
      SumOfReplay(n, logs[..|logs| - 1]);
      var v := before[log.i];
      var written := before[log.j := before[log.j] + (v + 1)];
      SumUpdate(before, log.j, before[log.j] + (v + 1));
      SumUpdate(written, log.k, written[log.k] - v);
    }
  }

  /** One round of the marking loop: redo the transaction, compare with what was logged. */
  method Mark1(records: seq<int>, log: Log) returns (same: bool, after: seq<int>)
    requires LogOk(log, |records|)
    ensures after == Replay1(records, log) && |after| == |records|
    ensures forall r :: 0 <= r < |records| ==>
              after[r] == records[r] + (if r == log.j then records[log.i] + 1 else 0)
                                     - (if r == log.k then records[log.i] else 0)
    ensures same <==> Agrees(records, log)
    ensures same <==>
            log.vi == records[log.i] && log.vj == records[log.j] + records[log.i] + 1 && log.vk == after[log.k]
  {
    var again := log.(vi := records[log.i]);
    after := records[log.j := records[log.j] + (again.vi + 1)];
    again := again.(vj := after[log.j]);
    after := after[log.k := after[log.k] - again.vi];
    again := again.(vk := after[log.k]);
    same := again == log;
  }

  /** Records beyond those that the log mentions do not matter. */
  lemma {:induction false} ReplayPrefix(n: nat, m: nat, logs: seq<Log>)
    requires n <= m && LogsOk(logs, n)
    ensures LogsOk(logs, m) && Replay(m, logs)[..n] == Replay(n, logs)
    decreases |logs|
  {
    if logs != [] {
      var log := logs[|logs| - 1];
      ReplayPrefix(n, m, logs[..|logs| - 1]);
      var few, many := Replay(n, logs[..|logs| - 1]), Replay(m, logs[..|logs| - 1]);
      assert forall r :: 0 <= r < n ==> few[r] == many[r];
    }
  }

  lemma AgreesPrefix(n: nat, m: nat, logs: seq<Log>, x: nat)
    requires n <= m && LogsOk(logs, n) && x < |logs|
    ensures LogsOk(logs, m) && (AgreesAt(n, logs, x) <==> AgreesAt(m, logs, x))
  {
    ReplayPrefix(n, m, logs[..x]);
    var few, many := Replay(n, logs[..x]), Replay(m, logs[..x]);
    assert forall r :: 0 <= r < n ==> few[r] == many[r];
  }

  function Max(a: nat, b: nat): nat {
    if a < b then b else a
  }

  /** How many records the log mentions: one more than the largest number in it. */
  method CountRecords(logs: seq<Log>) returns (n: nat)
    ensures n > 0 && LogsOk(logs, n)
    ensures n == 1 || exists m :: 0 <= m < |logs| && !LogOk(logs[m], n - 1)
  {
    n := 0;
    for x := 0 to |logs|
      invariant forall m :: 0 <= m < x ==> LogOk(logs[m], n + 1)
      invariant n == 0 || exists m :: 0 <= m < x && !LogOk(logs[m], n)
    {
      n := Max(n, logs[x].i);
      n := Max(n, logs[x].j);
      n := Max(n, logs[x].k);
    }
    n := n + 1;
  }

  /** The marking program on the sorted log: it reports an error exactly when some entry does not
      agree with its serial replay, whatever number of records beyond those in the log there
      are, and it ends with the replayed records. */
  method Mark(logs: seq<Log>) returns (wrongFound: bool, records: seq<int>)
    ensures LogsOk(logs, |records|) && records == Replay(|records|, logs)
    ensures !wrongFound <==>
              forall m :: 0 <= m < |logs| ==>
                && logs[m].vi == ReplayTo(|records|, logs, m)[logs[m].i]
                && logs[m].vj == ReplayTo(|records|, logs, m)[logs[m].j] + ReplayTo(|records|, logs, m)[logs[m].i] + 1
                && logs[m].vk == ReplayPast(|records|, logs, m)[logs[m].k]
    ensures (forall m :: 0 <= m < |logs| ==> ThreeRecords(logs[m])) ==>
              (!wrongFound <==>
                 forall m :: 0 <= m < |logs| ==>
                   && logs[m].vi == ReplayTo(|records|, logs, m)[logs[m].i]
                   && logs[m].vj == ReplayPast(|records|, logs, m)[logs[m].j]
                   && logs[m].vk == ReplayPast(|records|, logs, m)[logs[m].k])
    ensures forall n: nat :: LogsOk(logs, n) && n > 0 ==>
              |records| <= n && (wrongFound <==> exists m :: 0 <= m < |logs| && !AgreesAt(n, logs, m))
  {
    var n := CountRecords(logs);
    hide Replay, AgreesAt;
    wrongFound, records := MarkWith(logs, n);
    VerdictMeans(logs, n, wrongFound);
    forall r: nat | LogsOk(logs, r) && r > 0
      ensures n <= r && (wrongFound <==> exists m :: 0 <= m < |logs| && !AgreesAt(r, logs, m))
    {
      Larger(logs, n, r);
      SameVerdict(logs, n, r);
    }
  }

  /** The records before entry `m` of the log, and after it. */
  function ReplayTo(n: nat, logs: seq<Log>, m: nat): (r: seq<int>)
    requires LogsOk(logs, n) && m < |logs|
    ensures |r| == n
  {
    Replay(n, logs[..m])
  }

  function ReplayPast(n: nat, logs: seq<Log>, m: nat): (r: seq<int>)
    requires LogsOk(logs, n) && m < |logs|
    ensures |r| == n
  {
    Replay(n, logs[..m + 1])
  }

  lemma VerdictMeans(logs: seq<Log>, n: nat, wrongFound: bool)
    requires LogsOk(logs, n) && (wrongFound <==> exists m :: 0 <= m < |logs| && !AgreesAt(n, logs, m))
    ensures !wrongFound <==>
              forall m :: 0 <= m < |logs| ==>
                && logs[m].vi == ReplayTo(n, logs, m)[logs[m].i]
                && logs[m].vj == ReplayTo(n, logs, m)[logs[m].j] + ReplayTo(n, logs, m)[logs[m].i] + 1
                && logs[m].vk == ReplayPast(n, logs, m)[logs[m].k]
    ensures (forall m :: 0 <= m < |logs| ==> ThreeRecords(logs[m])) ==>
              (!wrongFound <==>
                 forall m :: 0 <= m < |logs| ==>
                   && logs[m].vi == ReplayTo(n, logs, m)[logs[m].i]
                   && logs[m].vj == ReplayPast(n, logs, m)[logs[m].j]
                   && logs[m].vk == ReplayPast(n, logs, m)[logs[m].k])
  {
    hide Replay, AgreesAt;
    forall m: nat | m < |logs|
      ensures AgreesAt(n, logs, m) <==>
              && logs[m].vi == ReplayTo(n, logs, m)[logs[m].i]
              && logs[m].vj == ReplayTo(n, logs, m)[logs[m].j] + ReplayTo(n, logs, m)[logs[m].i] + 1
              && logs[m].vk == ReplayPast(n, logs, m)[logs[m].k]
      ensures ThreeRecords(logs[m]) ==>
              ReplayPast(n, logs, m)[logs[m].j] == ReplayTo(n, logs, m)[logs[m].j] + ReplayTo(n, logs, m)[logs[m].i] + 1
    {
      AgreesMeans(n, logs, m);
    }
    if wrongFound {
      var m: nat :| m < |logs| && !AgreesAt(n, logs, m);
    }
  }

  lemma SameVerdict(logs: seq<Log>, n: nat, r: nat)
    requires n <= r && LogsOk(logs, n)
    ensures LogsOk(logs, r)
    ensures (exists m :: 0 <= m < |logs| && !AgreesAt(n, logs, m))
       <==> (exists m :: 0 <= m < |logs| && !AgreesAt(r, logs, m))
  {
    hide AgreesAt;
    forall x: nat | x < |logs| ensures AgreesAt(n, logs, x) <==> AgreesAt(r, logs, x) { AgreesPrefix(n, r, logs, x); }
  }

  lemma Larger(logs: seq<Log>, n: nat, r: nat)
    requires n > 0 && (n == 1 || exists m :: 0 <= m < |logs| && !LogOk(logs[m], n - 1))
    requires LogsOk(logs, r) && r > 0
    ensures n <= r
  { }

  /** The loop over the sorted log. */
  method MarkWith(logs: seq<Log>, n: nat) returns (wrongFound: bool, records: seq<int>)
    requires LogsOk(logs, n)
    ensures records == Replay(n, logs)
    ensures wrongFound <==> exists m :: 0 <= m < |logs| && !AgreesAt(n, logs, m)
    ensures !wrongFound <==>
              forall m :: 0 <= m < |logs| ==>
                && logs[m].vi == ReplayTo(n, logs, m)[logs[m].i]
                && logs[m].vj == ReplayTo(n, logs, m)[logs[m].j] + ReplayTo(n, logs, m)[logs[m].i] + 1
                && logs[m].vk == ReplayPast(n, logs, m)[logs[m].k]
  {
    hide ReplayTo, ReplayPast, Replay1;
    records := seq(n, _ => 100);
    wrongFound := false;
    var x := 0;
    while x < |logs|
      invariant x <= |logs|
      invariant records == Replay(n, logs[..x])
      invariant wrongFound <==> exists m :: 0 <= m < x && !AgreesAt(n, logs, m)
    {
      var same;
      same, records := Mark1(records, logs[x]);
      assert same <==> AgreesAt(n, logs, x);
      if !same {
        wrongFound := true;
      }
      ReplayNext(n, logs, x);
      x := x + 1;
    }
    assert logs[..|logs|] == logs;
    VerdictMeans(logs, n, wrongFound);
  }
}
