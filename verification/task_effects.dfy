/** What each transaction does to the rows of the two tables, column by column. */
module TaskEffects {
  import opened Tables
  import opened TaskStore
  import opened Wrappers

  /**
    A closing that goes through: all the task's rows are closed and stay its own; of the other rows only closed ones
    with an account and nonce of the list are gone; and the task is finished if it had the status asked for.
   */
  lemma ClosedTaskIs(db: Db, t: TaskId, list: set<Record>, from: SmtStatus)
    requires t in db.tasks && CloseTask(db, t, list, from).Some?
    ensures var after := CloseTask(db, t, list, from).value;
            && after.tasks == (if db.tasks[t].smtStatus == from
                               then db.tasks[t := db.tasks[t].(smtStatus := RollbackComplete)] else db.tasks)
            && after.nextId == db.nextId && after.records.Keys <= db.records.Keys
            && forall i, r | i in db.records && r == db.records[i] ::
               if r.taskId == Some(t)
               then i in after.records
                 && after.records[i] == Record(r.accountId, r.nonce, RecordClosed, r.recordBN, Some(t))
               else if r.recordType == RecordClosed && ListsNonce(list, r.accountId, r.nonce) then i !in after.records
               else i in after.records && after.records[i] == r
  {
  }

  ghost predicate ListsNonce(list: set<Record>, accountId: string, nonce: nat) {
    exists v :: v in list && v.accountId == accountId && v.nonce == nonce
  }

  /** The nonce check's closing: the given rows are closed, and with them the task if asked. */
  lemma ClosedRowsAre(db: Db, t: TaskId, ids: set<nat>, closed: bool)
    requires t in db.tasks && CloseRecords(db, t, ids, closed).Some?
    requires forall i | i in ids :: i in db.records && db.records[i].taskId == Some(t)
    ensures var after := CloseRecords(db, t, ids, closed).value;
            && after.tasks == (if closed then db.tasks[t := db.tasks[t].(taskType := TaskClosed)] else db.tasks)
            && after.nextId == db.nextId && after.records.Keys <= db.records.Keys
            && forall i, r | i in db.records && r == db.records[i] ::
               if i in ids
               then i in after.records
                 && after.records[i] == Record(r.accountId, r.nonce, RecordClosed, r.recordBN, Some(t))
               else if r.taskId != Some(t) && r.recordType == RecordClosed
                       && exists j ::
                          j in ids && db.records[j].accountId == r.accountId && db.records[j].nonce == r.nonce
               then i !in after.records
               else i in after.records && after.records[i] == r
  {
    var list := set i | i in ids && i in db.records :: db.records[i];
    forall i, r | i in db.records && r == db.records[i]
      ensures ListsNonce(list, r.accountId, r.nonce) <==>
              exists j :: j in ids && db.records[j].accountId == r.accountId && db.records[j].nonce == r.nonce
    {
      if j :| j in ids && db.records[j].accountId == r.accountId && db.records[j].nonce == r.nonce {
        assert db.records[j] in list;
      }
    }
    forall i | i in db.records && i !in ids
      ensures Collides(db.records[i], list, t) <==>
              && db.records[i].taskId != Some(t) && db.records[i].recordType == RecordClosed
              && ListsNonce(list, db.records[i].accountId, db.records[i].nonce)
    {
    }
    hide UniqueKeys;
  }

  /** A distributed task waits to be written; exactly the given rows are its, and a request's record has none. */
  lemma DistributedIs(db: Db, t: TaskId, ids: set<nat>, accountId: string, nonce: nat)
    requires t !in db.tasks && forall i | i in db.records :: db.records[i].taskId != Some(t)
    ensures var after := Distribute(db, t, ids);
            && after.tasks == db.tasks[t := Task(TaskDelegate, "", "", 0, NeedToWrite, UnSend, 0)]
            && after.records.Keys == db.records.Keys && after.nextId == db.nextId
            && (forall i, r | i in db.records && r == db.records[i] ::
               if i in ids then after.records[i] == Record(r.accountId, r.nonce, r.recordType, r.recordBN, Some(t))
               else after.records[i] == r && after.records[i].taskId != Some(t))
    ensures forall i | i in NewRecord(db, accountId, nonce).records && i !in db.records ::
              NewRecord(db, accountId, nonce).records[i] == Record(accountId, nonce, RecordDefault, 0, None)
  {
  }

  /**
    A task being written whose outpoints are recorded and which is then marked as sent is found by the parser when
    its transaction commits, whatever the block; so the commit is taken in as the service's own.
   */
  lemma SentTaskIsFound(db: Db, t: TaskId, c: Commit, self: Option<TaskId>)
    requires t in db.tasks && db.tasks[t].smtStatus == Writing && db.tasks[t].txStatus == UnSend
    ensures var sent := MarkPending(SetOutpoint(db, t, c.refOutpoint, c.outpoint), t);
            && t in Awaiting(sent.tasks, c)
            && sent.records == db.records && (SelfTask(sent, c, self) ==> self.Some?)
    ensures forall u | u != t && u in db.tasks ::
              MarkPending(SetOutpoint(db, t, c.refOutpoint, c.outpoint), t).tasks[u] == db.tasks[u]
  {
    var sent := MarkPending(SetOutpoint(db, t, c.refOutpoint, c.outpoint), t);
    assert sent.tasks[t].refOutpoint == c.refOutpoint && sent.tasks[t].outpoint == c.outpoint;
    assert t in Awaiting(sent.tasks, c);
  }

  /** The service's own commit: its task becomes a chain task to be confirmed, and all its rows chain rows. */
  lemma OwnCommitIs(db: Db, t: TaskId, blockNumber: nat)
    requires t in db.tasks && UpdateToChainTask(db, t, blockNumber).Some?
    ensures var task, after := db.tasks[t], UpdateToChainTask(db, t, blockNumber).value;
            && after.tasks == db.tasks[t :=
                 Task(TaskChain, task.refOutpoint, task.outpoint, blockNumber, NeedToWrite, Committed, task.retry)]
            && after.records.Keys == db.records.Keys && after.nextId == db.nextId
            && forall i, r | i in db.records && r == db.records[i] ::
               after.records[i] ==
                 if r.taskId == Some(t) then Record(r.accountId, r.nonce, RecordChain, blockNumber, r.taskId) else r
  {
  }

  lemma {:induction false} RowsStay(db: Db, c: Commit, n: nat)
    requires n <= |c.subAccounts| && forall i | i in db.records :: i < db.nextId
    ensures var after := InsertIgnore(db, c, n);
            && after.tasks == db.tasks && after.nextId >= db.nextId
            && (forall i | i in after.records :: i < after.nextId)
            && (forall i | i in db.records :: i in after.records && after.records[i] == db.records[i])
  {
    if n > 0 {
      RowsStay(db, c, n - 1);
    }
  }

  ghost predicate BroughtBy(c: Commit, n: nat, r: Record)
    requires n <= |c.subAccounts|
  {
    exists k ::
           0 <= k < n && r == Record(c.subAccounts[k].accountId, c.subAccounts[k].nonce, RecordChain, c.blockNumber,
                                     Some(TaskId(c.outpoint, c.timestamp)))
  }

  lemma {:induction false} NewRowsAre(db: Db, c: Commit, n: nat, i: nat)
    requires n <= |c.subAccounts| && i in InsertIgnore(db, c, n).records && i !in db.records
    ensures BroughtBy(c, n, InsertIgnore(db, c, n).records[i])
  {
    if n > 0 && i in InsertIgnore(db, c, n - 1).records {
      NewRowsAre(db, c, n - 1, i);
    }
  }

  lemma {:induction false} ForeignRowsThere(db: Db, c: Commit, n: nat, k: nat)
    requires k < n <= |c.subAccounts| && forall i | i in db.records :: i < db.nextId
    ensures HasChainRow(InsertIgnore(db, c, n).records, c.subAccounts[k], c.blockNumber)
  {
    RowsStay(db, c, n - 1);
    var before, s := InsertIgnore(db, c, n - 1), c.subAccounts[k];
    var after := InsertIgnore(db, c, n);
    if k < n - 1 {
      ForeignRowsThere(db, c, n - 1, k);
      hide InsertIgnore;
      var i :| i in before.records && before.records[i].accountId == s.accountId && before.records[i].nonce == s.nonce
        && before.records[i].recordType == RecordChain && before.records[i].recordBN == c.blockNumber;
      assert i in after.records && after.records[i] == before.records[i];
    } else if KeyUsed(before.records, ChainRecord(c, s).Key()) {
      var i :| i in before.records && before.records[i].Key() == ChainRecord(c, s).Key();
      assert after.records[i].accountId == s.accountId;
    } else {
      assert after.records[before.nextId] == ChainRecord(c, s);
    }
  }

  ghost predicate HasChainRow(records: map<nat, Record>, s: SubAccount, blockNumber: nat) {
    exists i :: i in records && records[i].accountId == s.accountId && records[i].nonce == s.nonce
                && records[i].recordType == RecordChain && records[i].recordBN == blockNumber
  }

  /**
    A foreign commit: a task to be confirmed named by the transaction, unless it is there, and a chain row for each of
    its accounts unless one with the same account, nonce and block is there. All other rows stay.
   */
  lemma ForeignCommitIs(db: Db, c: Commit)
    requires forall i | i in db.records :: i < db.nextId
    ensures var id, after := TaskId(c.outpoint, c.timestamp), CreateChainTask(db, c);
            && after.tasks == (if id in db.tasks then db.tasks
                               else db.tasks[id :=
                                 Task(TaskChain, c.refOutpoint, c.outpoint, c.blockNumber, NeedToWrite, Committed, 0)])
            && (forall i | i in db.records :: i in after.records && after.records[i] == db.records[i])
            && (forall i | i in after.records && i !in db.records ::
               BroughtBy(c, |c.subAccounts|, after.records[i]))
            && forall s | s in c.subAccounts :: HasChainRow(after.records, s, c.blockNumber)
  {
    var n := |c.subAccounts|;
    RowsStay(db, c, n);
    forall i | i in InsertIgnore(db, c, n).records && i !in db.records
      ensures BroughtBy(c, n, InsertIgnore(db, c, n).records[i])
    {
      NewRowsAre(db, c, n, i);
    }
    forall k | 0 <= k < n
      ensures HasChainRow(InsertIgnore(db, c, n).records, c.subAccounts[k], c.blockNumber)
    {
      ForeignRowsThere(db, c, n, k);
    }
    hide InsertIgnore, BroughtBy, HasChainRow;
  }
}
