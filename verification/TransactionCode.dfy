/** The parts of the transaction code that run sequentially under the global mutex, on the
    lock table object and the record array. */
module TransactionCode {
  import opened LockQueues
  import opened LockTables
  import opened RwLockTables
  import opened Transactions

  class Database {
    const lockTable: RwLockTable
    const records: array<int>

    constructor (lockTable: RwLockTable, records: array<int>)
      ensures this.lockTable == lockTable && this.records == records
    {
      this.lockTable := lockTable;
      this.records := records;
    }

    /** The lock table and the records as a critical section leaves them behind. */
    ghost function Now(woken: set<nat>): Effect
      reads this, lockTable, lockTable.waitForGraph, records
    {
      Effect(lockTable.View(), records[..], woken)
    }

    method Unlock(tid: nat, rid: nat, woken: set<nat>) returns (woken': set<nat>)
      requires lockTable.Valid() && CanUnlock(lockTable.View(), tid, rid)
      modifies lockTable, lockTable.waitForGraph
      ensures lockTable.Valid()
      ensures Now(woken') == Release(old(Now(woken)), tid, rid)
    {
      var signalled := lockTable.Unlock(tid, rid);
      woken' := woken + signalled;
    }

    /** The switch that falls through from the current phase down to the read phase. */
    method Rollback(tid: nat, log: Thread, currentPhase: Phase, woken: set<nat>) returns (woken': set<nat>)
      requires lockTable.Valid() && RollbackAllowed(Now(woken), tid, log, currentPhase)
      modifies lockTable, lockTable.waitForGraph, records
      ensures lockTable.Valid()
      ensures Now(woken') == Transactions.Rollback(old(Now(woken)), tid, log, currentPhase)
    {
      woken' := woken;
      if currentPhase == Commit {
        RollbackCommit(log, woken');
      }
      if currentPhase == Commit || currentPhase == SecondWrite {
        woken' := RollbackSecondWrite(tid, log, currentPhase, woken');
      }
      if currentPhase == Commit || currentPhase == SecondWrite || currentPhase == FirstWrite {
        woken' := RollbackFirstWrite(tid, log, currentPhase, woken');
      }
      woken' := RollbackRead(tid, log, currentPhase, woken');
    }

    method RollbackCommit(log: Thread, ghost woken: set<nat>)
      requires log.k < records.Length
      modifies records
      ensures Now(woken) == AddTo(old(Now(woken)), log.k, log.vi)
    {
      records[log.k] := records[log.k] + log.vi;
    }

    /** A transaction whose second write lock was refused does not release it. */
    method RollbackSecondWrite(tid: nat, log: Thread, currentPhase: Phase, woken: set<nat>) returns (woken': set<nat>)
      requires lockTable.Valid() && log.j < records.Length
      requires currentPhase != SecondWrite ==> CanUnlock(lockTable.View(), tid, log.k)
      modifies lockTable, lockTable.waitForGraph, records
      ensures lockTable.Valid()
      ensures var e := old(Now(woken));
              Now(woken') == AddTo(if currentPhase == SecondWrite then e else Release(e, tid, log.k),
                                   log.j, -(log.vi + 1))
    {
      woken' := woken;
      if currentPhase != SecondWrite {
        woken' := Unlock(tid, log.k, woken);
      }
      records[log.j] := records[log.j] - (log.vi + 1);
    }

    method RollbackFirstWrite(tid: nat, log: Thread, currentPhase: Phase, woken: set<nat>) returns (woken': set<nat>)
      requires lockTable.Valid()
      requires currentPhase != FirstWrite ==> CanUnlock(lockTable.View(), tid, log.j)
      modifies lockTable, lockTable.waitForGraph
      ensures lockTable.Valid()
      ensures var e := old(Now(woken));
              Now(woken') == if currentPhase == FirstWrite then e else Release(e, tid, log.j)
    {
      woken' := woken;
      if currentPhase != FirstWrite {
        woken' := Unlock(tid, log.j, woken);
      }
    }

    method RollbackRead(tid: nat, log: Thread, currentPhase: Phase, woken: set<nat>) returns (woken': set<nat>)
      requires lockTable.Valid()
      requires currentPhase != Read ==> CanUnlock(lockTable.View(), tid, log.i)
      modifies lockTable, lockTable.waitForGraph
      ensures lockTable.Valid()
      ensures var e := old(Now(woken));
              Now(woken') == if currentPhase == Read then e else Release(e, tid, log.i)
    {
      woken' := woken;
      if currentPhase != Read {
        woken' := Unlock(tid, log.i, woken);
      }
    }

    /** The release of a committing transaction. */
    method ReleaseLocks(tid: nat, log: Thread) returns (woken: set<nat>)
      requires lockTable.Valid() && ReleaseLocksAllowed(Now({}), tid, log)
      modifies lockTable, lockTable.waitForGraph
      ensures lockTable.Valid()
      ensures Now(woken) == Transactions.ReleaseLocks(old(Now({})), tid, log)
    {
      woken := Unlock(tid, log.i, {});
      woken := Unlock(tid, log.j, woken);
      woken := Unlock(tid, log.k, woken);
    }
  }
}
