/** The transactions on the two tables, statement by statement, with the loops of the service and the parser. */
module TaskDao {
  import opened Tables
  import opened TaskStore
  import opened Reparse
  import opened Wrappers

  /** One (account, nonce) of the list against one row. */
  predicate SameNonce(r: Record, v: Record, t: TaskId) {
    r.accountId == v.accountId && r.nonce == v.nonce && r.recordType == RecordClosed && !Of(r, t)
  }

  function SetOf<T>(s: seq<T>): set<T> {
    set v | v in s
  }

  lemma SetOfNext<T>(s: seq<T>, i: nat)
    requires i < |s|
    ensures SetOf(s[..i + 1]) == SetOf(s[..i]) + {s[i]}
  {
  }

  /** A task id that is taken, or given twice. */
  ghost predicate Duplicated(taskList: seq<TaskId>, tasks: map<TaskId, Task>) {
    || (exists i :: 0 <= i < |taskList| && taskList[i] in tasks)
    || (exists i, j :: 0 <= i < j < |taskList| && taskList[i] == taskList[j])
  }

  lemma DuplicatedNext(taskList: seq<TaskId>, i: nat, tasks: map<TaskId, Task>)
    requires i < |taskList|
    ensures Duplicated(taskList[..i + 1], tasks) <==>
              Duplicated(taskList[..i], tasks) || taskList[i] in tasks || taskList[i] in taskList[..i]
    ensures Duplicated(taskList[..i + 1], tasks) ==> Duplicated(taskList, tasks)
  {
  }

  function DistributeAll(db: Db, taskList: seq<TaskId>, idsList: seq<seq<nat>>): Db
    requires |taskList| == |idsList|
    decreases |taskList|
  {
    if taskList == [] then db
    else
      var n := |taskList| - 1;
      Distribute(DistributeAll(db, taskList[..n], idsList[..n]), taskList[n], SetOf(idsList[n]))
  }

  datatype DistributionError = NoError | LenDiff | DuplicateTask

  class DbDao {
    var tasks: map<TaskId, Task>
    var records: map<nat, Record>
    var nextId: nat

    ghost function Rows(): Db
      reads this
    {
      Db(tasks, records, nextId)
    }

    /** Deletes the closed rows of other tasks that share an account and nonce with the list. */
    method DeleteClosed(list: seq<Record>, taskId: TaskId) returns (rest: map<nat, Record>)
      ensures rest == DeleteColliding(records, SetOf(list), taskId)
    {
      rest := records;
      assert rest == DeleteColliding(records, {}, taskId);
      for i := 0 to |list|
        invariant rest == DeleteColliding(records, SetOf(list[..i]), taskId)
      {
        SetOfNext(list, i);
        rest := map j | j in rest && !SameNonce(rest[j], list[i], taskId) :: rest[j];
      }
      assert list[..|list|] == list;
    }

    /** The transaction shared by the two closings of a task, which differ in the status they guard on. */
    method CloseTaskFrom(taskId: TaskId, list: seq<Record>, from: SmtStatus) returns (ok: bool)
      modifies this
      ensures var r := CloseTask(old(Rows()), taskId, SetOf(list), from);
              ok == r.Some? && Rows() == if r.Some? then r.value else old(Rows())
    {
      var newTasks := tasks;
      if taskId in tasks && tasks[taskId].smtStatus == from {
        newTasks := tasks[taskId := tasks[taskId].(smtStatus := RollbackComplete)];
      }
      var rest := DeleteClosed(list, taskId);
      rest := map i | i in rest :: if Of(rest[i], taskId) then rest[i].(recordType := RecordClosed) else rest[i];
      ok := UniqueKeys(rest);
      if ok {
        tasks, records := newTasks, rest;
      }
    }

    method UpdateSmtRecordToNeedToWrite(taskId: TaskId, retry: nat)
      modifies this`tasks
      ensures Rows() == MarkRetry(old(Rows()), taskId, retry)
    {
      if taskId in tasks && tasks[taskId].smtStatus == NeedToRollback {
        tasks := tasks[taskId := tasks[taskId].(smtStatus := NeedToWrite, txStatus := UnSend, retry := retry)];
      }
    }

    method UpdateSmtStatus(taskId: TaskId)
      modifies this`tasks
      ensures Rows() == MarkWriting(old(Rows()), taskId)
    {
      if taskId in tasks {
        tasks := tasks[taskId := tasks[taskId].(smtStatus := Writing)];
      }
    }

    method UpdateSmtRecordOutpoint(taskId: TaskId, refOutpoint: string, outpoint: string)
      modifies this`tasks
      ensures Rows() == SetOutpoint(old(Rows()), taskId, refOutpoint, outpoint)
    {
      if taskId in tasks {
        tasks := tasks[taskId := tasks[taskId].(refOutpoint := refOutpoint, outpoint := outpoint)];
      }
    }

    method UpdateTaskTxStatusToPending(taskId: TaskId)
      modifies this`tasks
      ensures Rows() == MarkPending(old(Rows()), taskId)
    {
      if taskId in tasks && tasks[taskId].At(Writing, UnSend) {
        tasks := tasks[taskId := tasks[taskId].(smtStatus := WriteComplete, txStatus := TxPending)];
      }
    }

    method UpdateSmtStatusToWriteComplete(taskId: TaskId)
      modifies this`tasks
      ensures Rows() == MarkWriteComplete(old(Rows()), taskId)
    {
      if taskId in tasks && tasks[taskId].At(NeedToWrite, Committed) {
        tasks := tasks[taskId := tasks[taskId].(smtStatus := WriteComplete)];
      }
    }

    method UpdateSmtRecordToRollbackComplete(taskId: TaskId, list: seq<Record>) returns (ok: bool)
      modifies this
      ensures var r := CloseTask(old(Rows()), taskId, SetOf(list), NeedToRollback);
              ok == r.Some? && Rows() == if r.Some? then r.value else old(Rows())
    {
      ok := CloseTaskFrom(taskId, list, NeedToRollback);
    }

    method UpdateTaskCompleteWithDiffCustomScriptHash(taskId: TaskId, list: seq<Record>) returns (ok: bool)
      modifies this
      ensures var r := CloseTask(old(Rows()), taskId, SetOf(list), NeedToWrite);
              ok == r.Some? && Rows() == if r.Some? then r.value else old(Rows())
    {
      ok := CloseTaskFrom(taskId, list, NeedToWrite);
    }

    /** `diffNonceList` are row ids. */
    method UpdateRecordsToClosed(taskId: TaskId, diffNonceList: seq<nat>, closed: bool) returns (ok: bool)
      requires forall i | 0 <= i < |diffNonceList| :: diffNonceList[i] in records
      modifies this
      ensures var r := CloseRecords(old(Rows()), taskId, SetOf(diffNonceList), closed);
              ok == r.Some? && Rows() == if r.Some? then r.value else old(Rows())
    {
      var newTasks := tasks;
      if closed && taskId in tasks {
        newTasks := tasks[taskId := tasks[taskId].(taskType := TaskClosed)];
      }
      var list: seq<Record>, ids: set<nat> := [], {};
      for i := 0 to |diffNonceList|
        invariant ids == SetOf(diffNonceList[..i])
        invariant |list| == i && forall k | 0 <= k < i :: list[k] == records[diffNonceList[k]]
      {
        list := list + [records[diffNonceList[i]]];
        ids := ids + {diffNonceList[i]};
      }
      assert diffNonceList[..|diffNonceList|] == diffNonceList;
      assert SetOf(list) == (set i | i in ids && i in records :: records[i]) by {
        forall i | i in ids ensures records[i] in list {
          var k :| 0 <= k < |diffNonceList| && diffNonceList[k] == i;
          assert list[k] == records[i];
        }
      }
      var rest := DeleteClosed(list, taskId);
      rest := map i | i in rest :: if i in ids then rest[i].(recordType := RecordClosed) else rest[i];
      ok := UniqueKeys(rest);
      if ok {
        tasks, records := newTasks, rest;
      }
    }

    method UpdateTaskDistribution(taskList: seq<TaskId>, idsList: seq<seq<nat>>) returns (err: DistributionError)
      modifies this
      ensures err == if taskList == [] then NoError
                     else if |taskList| != |idsList| then LenDiff
                     else if Duplicated(taskList, old(tasks)) then DuplicateTask
                     else NoError
      ensures Rows() == if err == NoError && taskList != [] then DistributeAll(old(Rows()), taskList, idsList)
              else old(Rows())
    {
      if |taskList| == 0 {
        return NoError;
      }
      if |taskList| != |idsList| {
        return LenDiff;
      }
      var free := TaskIdsFree(taskList);
      if !free {
        return DuplicateTask;
      }
      var db := Db(tasks, records, nextId);
      for i := 0 to |taskList|
        invariant db == DistributeAll(old(Rows()), taskList[..i], idsList[..i])
      {
        hide Distribute, SetOf;
        assert taskList[..i + 1][..i] == taskList[..i] && idsList[..i + 1][..i] == idsList[..i];
        var ids := SetOf(idsList[i]);
        db := Distribute(db, taskList[i], ids);
      }
      assert taskList[..|taskList|] == taskList && idsList[..|idsList|] == idsList;
      tasks, records, nextId := db.tasks, db.records, db.nextId;
      return NoError;
    }

    /** The unique key of the task table, for the tasks about to be created. */
    method TaskIdsFree(taskList: seq<TaskId>) returns (free: bool)
      ensures free <==> !Duplicated(taskList, tasks)
    {
      for i := 0 to |taskList|
        invariant !Duplicated(taskList[..i], tasks)
      {
        DuplicatedNext(taskList, i, tasks);
        if taskList[i] in tasks || taskList[i] in taskList[..i] {
          return false;
        }
      }
      assert taskList[..|taskList|] == taskList;
      return true;
    }

    method UpdateToChainTask(taskId: TaskId, blockNumber: nat) returns (ok: bool)
      modifies this
      ensures var r := TaskStore.UpdateToChainTask(old(Rows()), taskId, blockNumber);
              ok == r.Some? && Rows() == if r.Some? then r.value else old(Rows())
    {
      var newTasks := tasks;
      if taskId in tasks {
        newTasks := tasks[taskId := tasks[taskId].(taskType := TaskChain, smtStatus := NeedToWrite,
                                                    txStatus := Committed, blockNumber := blockNumber)];
      }
      var rows := map i | i in records ::
        if Of(records[i], taskId) then records[i].(recordType := RecordChain, recordBN := blockNumber) else records[i];
      ok := UniqueKeys(rows);
      if ok {
        tasks, records := newTasks, rows;
      }
    }

    /** Called with no task of its own to delete. */
    method CreateChainTask(taskInfo: Task, taskId: TaskId, list: seq<Record>, ghost c: Commit)
      requires taskInfo == ChainTask(c) && taskId == ChainTaskId(c)
      requires |list| == |c.subAccounts| && forall k | 0 <= k < |list| :: list[k] == ChainRecord(c, c.subAccounts[k])
      modifies this
      ensures Rows() == TaskStore.CreateChainTask(old(Rows()), c)
    {
      var newTasks := if taskId in tasks then tasks else tasks[taskId := taskInfo];
      for i := 0 to |list|
        invariant tasks == old(tasks) && Rows() == InsertIgnore(old(Rows()), c, i)
      {
        if !KeyUsed(records, list[i].Key()) {
          records, nextId := records[nextId := list[i]], nextId + 1;
        }
      }
      tasks := newTasks;
    }

    method GetTaskByRefOutpointAndOutpoint(refOutpoint: string, outpoint: string, ghost c: Commit)
        returns (self: Option<TaskId>)
      requires refOutpoint == c.refOutpoint && outpoint == c.outpoint
      ensures SelfTask(Rows(), c, self)
    {
      var todo := tasks.Keys;
      while todo != {}
        invariant todo <= tasks.Keys && forall t | t in tasks && t !in todo :: !Awaits(tasks[t], c)
      {
        var t :| t in todo;
        if tasks[t].refOutpoint == refOutpoint && tasks[t].outpoint == outpoint
          && tasks[t].At(WriteComplete, TxPending) {
          return Some(t);
        }
        todo := todo - {t};
      }
      return None;
    }

    /** `self` is the task of the service that was found waiting for the transaction. */
    method DasActionUpdateSubAccount(c: Commit) returns (ok: bool, self: Option<TaskId>)
      modifies this
      ensures SelfTask(old(Rows()), c, self)
      ensures var r := ParseAs(old(Rows()), c, self);
              ok == r.Some? && Rows() == if r.Some? then r.value else old(Rows())
    {
      var taskInfo, taskId := ChainTask(c), ChainTaskId(c);
      var smtRecordList: seq<Record> := [];
      for i := 0 to |c.subAccounts|
        invariant |smtRecordList| == i && forall k | 0 <= k < i :: smtRecordList[k] == ChainRecord(c, c.subAccounts[k])
      {
        var v := c.subAccounts[i];
        smtRecordList := smtRecordList + [Record(v.accountId, v.nonce, RecordChain, c.blockNumber, Some(taskId))];
      }
      self := GetTaskByRefOutpointAndOutpoint(c.refOutpoint, c.outpoint, c);
      if self.Some? {
        ok := UpdateToChainTask(self.value, c.blockNumber);
      } else {
        CreateChainTask(taskInfo, taskId, smtRecordList, c);
        ok := true;
      }
    }
  }
}
