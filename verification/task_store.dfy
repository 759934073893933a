/**
  The task table and the record table of one parent account, and the guarded transactions on them.
  A transaction that would break the records' unique key fails and changes nothing.
 */
module TaskStore {
  import opened Tables
  import opened Wrappers

  /** The digest's inputs: a task of the service has no outpoint yet, a chain task has its transaction's. */
  datatype TaskId = TaskId(outpoint: string, timestamp: int)

  datatype Task = Task(taskType: TaskType, refOutpoint: string, outpoint: string, blockNumber: nat,
                       smtStatus: SmtStatus, txStatus: TxStatus, retry: nat)
  {
    predicate At(smt: SmtStatus, tx: TxStatus) {
      smtStatus == smt && txStatus == tx
    }
  }

  datatype Record = Record(accountId: string, nonce: nat, recordType: RecordType, recordBN: nat,
    taskId: Option<TaskId>) {
    function Key(): RecordKey {
      RecordKey(accountId, nonce, recordType, recordBN)
    }
  }

  /** Records by row id; row ids below `nextId` have been given out. */
  datatype Db = Db(tasks: map<TaskId, Task>, records: map<nat, Record>, nextId: nat)

  predicate UniqueKeys(records: map<nat, Record>) {
    forall i, j | i in records && j in records && records[i].Key() == records[j].Key() :: i == j
  }

  predicate KeyUsed(records: map<nat, Record>, key: RecordKey) {
    exists i :: i in records && records[i].Key() == key
  }

  predicate Of(r: Record, t: TaskId) {
    r.taskId == Some(t)
  }

  // ---------- status transitions ----------

  function SetStatus(db: Db, t: TaskId, smt: SmtStatus, tx: TxStatus): Db {
    if t in db.tasks then db.(tasks := db.tasks[t := db.tasks[t].(smtStatus := smt, txStatus := tx)]) else db
  }

  predicate TaskAt(db: Db, t: TaskId, smt: SmtStatus, tx: TxStatus) {
    t in db.tasks && db.tasks[t].At(smt, tx)
  }

  function MarkWriting(db: Db, t: TaskId): Db {
    if t in db.tasks then SetStatus(db, t, Writing, db.tasks[t].txStatus) else db
  }

  function SetOutpoint(db: Db, t: TaskId, refOutpoint: string, outpoint: string): Db {
    if t in db.tasks then db.(tasks := db.tasks[t := db.tasks[t].(refOutpoint := refOutpoint, outpoint := outpoint)])
      else db
  }

  function MarkPending(db: Db, t: TaskId): Db {
    if TaskAt(db, t, Writing, UnSend) then SetStatus(db, t, WriteComplete, TxPending) else db
  }

  function MarkRejected(db: Db, ids: set<TaskId>): Db {
    db.(tasks := map t | t in db.tasks ::
                   if t in ids && db.tasks[t].At(WriteComplete, TxPending)
                   then db.tasks[t].(smtStatus := NeedToRollback, txStatus := TxRejected) else db.tasks[t])
  }

  function MarkRollback(db: Db, ids: set<TaskId>): Db {
    db.(tasks := map t | t in db.tasks ::
                   if t in ids && db.tasks[t].At(Writing, UnSend)
                   then db.tasks[t].(smtStatus := NeedToRollback) else db.tasks[t])
  }

  function MarkRetry(db: Db, t: TaskId, retry: nat): Db {
    if t in db.tasks && db.tasks[t].smtStatus == NeedToRollback
    then db.(tasks := db.tasks[t := db.tasks[t].(smtStatus := NeedToWrite, txStatus := UnSend, retry := retry)])
    else db
  }

  function MarkWriteComplete(db: Db, t: TaskId): Db {
    if TaskAt(db, t, NeedToWrite, Committed) then SetStatus(db, t, WriteComplete, Committed) else db
  }

  // ---------- closing ----------

  /** Closed rows of other tasks that share an account and nonce with the list. */
  predicate Collides(r: Record, list: set<Record>, t: TaskId) {
    && r.recordType == RecordClosed && !Of(r, t)
    && exists v :: v in list && v.accountId == r.accountId && v.nonce == r.nonce
  }

  function DeleteColliding(records: map<nat, Record>, list: set<Record>, t: TaskId): map<nat, Record> {
    map i | i in records && !Collides(records[i], list, t) :: records[i]
  }

  function CloseOf(records: map<nat, Record>, t: TaskId): map<nat, Record> {
    map i | i in records :: if Of(records[i], t) then records[i].(recordType := RecordClosed) else records[i]
  }

  function CloseIds(records: map<nat, Record>, ids: set<nat>): map<nat, Record> {
    map i | i in records :: if i in ids then records[i].(recordType := RecordClosed) else records[i]
  }

  ghost function IfUnique(db: Db): Option<Db> {
    if UniqueKeys(db.records) then Some(db) else None
  }

  /** A task leaves `from` for good; its rows are closed whether or not the task's guard matched. */
  ghost function CloseTask(db: Db, t: TaskId, list: set<Record>, from: SmtStatus): Option<Db> {
    var tasks := if t in db.tasks && db.tasks[t].smtStatus == from
                 then db.tasks[t := db.tasks[t].(smtStatus := RollbackComplete)] else db.tasks;
    IfUnique(db.(tasks := tasks, records := CloseOf(DeleteColliding(db.records, list, t), t)))
  }

  /** The nonce check closes some of a task's rows, and the task itself when it closes them all. */
  ghost function CloseRecords(db: Db, t: TaskId, ids: set<nat>, closed: bool): Option<Db> {
    var tasks := if closed && t in db.tasks then db.tasks[t := db.tasks[t].(taskType := TaskClosed)] else db.tasks;
    var list := set i | i in ids && i in db.records :: db.records[i];
    IfUnique(db.(tasks := tasks, records := CloseIds(DeleteColliding(db.records, list, t), ids)))
  }

  /** No two rows of the task would get the same key when closed. */
  ghost predicate DistinctWithin(records: map<nat, Record>, t: TaskId) {
    forall i, j | i in records && j in records && Of(records[i], t) && Of(records[j], t)
                  && records[i].accountId == records[j].accountId && records[i].nonce == records[j].nonce
                  && records[i].recordBN == records[j].recordBN ::
      i == j
  }

  /** The list names the account and nonce of every row of the task that is not closed yet. */
  ghost predicate Lists(records: map<nat, Record>, list: set<Record>, t: TaskId) {
    forall i | i in records && Of(records[i], t) && records[i].recordType != RecordClosed ::
      exists v :: v in list && v.accountId == records[i].accountId && v.nonce == records[i].nonce
  }

  /** Closing a task never breaks the unique key, exactly when its own rows do not clash with each other. */
  lemma CloseTaskSucceedsIff(db: Db, t: TaskId, list: set<Record>, from: SmtStatus)
    requires UniqueKeys(db.records) && Lists(db.records, list, t)
    ensures CloseTask(db, t, list, from).Some? <==> DistinctWithin(db.records, t)
  {
    if DistinctWithin(db.records, t) {
      ClosedRowsUnique(db.records, t, list);
    } else {
      var i, j :| i in db.records && j in db.records && Of(db.records[i], t) && Of(db.records[j], t)
                  && db.records[i].accountId == db.records[j].accountId && db.records[i].nonce == db.records[j].nonce
                  && db.records[i].recordBN == db.records[j].recordBN && i != j;
      var closed := CloseOf(DeleteColliding(db.records, list, t), t);
      assert i in closed && j in closed && closed[i].Key() == closed[j].Key();
    }
  }

  lemma ClosedRowsUnique(records: map<nat, Record>, t: TaskId, list: set<Record>)
    requires UniqueKeys(records) && Lists(records, list, t) && DistinctWithin(records, t)
    ensures UniqueKeys(CloseOf(DeleteColliding(records, list, t), t))
  {
  }

  // ---------- new rows ----------

  function NewRecord(db: Db, accountId: string, nonce: nat): Db {
    var r := Record(accountId, nonce, RecordDefault, 0, None);
    if KeyUsed(db.records, r.Key()) then db
    else db.(records := db.records[db.nextId := r], nextId := db.nextId + 1)
  }

  /** The records a distribution may take are those without a task. */
  function Distribute(db: Db, t: TaskId, ids: set<nat>): Db {
    Db(db.tasks[t := Task(TaskDelegate, "", "", 0, NeedToWrite, UnSend, 0)],
       map i | i in db.records :: if i in ids then db.records[i].(taskId := Some(t)) else db.records[i],
       db.nextId)
  }

  // ---------- ingesting a commit ----------

  /** What a transaction left in an account. */
  datatype SubAccount = SubAccount(accountId: string, nonce: nat, leaf: string)

  datatype Commit = Commit(refOutpoint: string, outpoint: string, blockNumber: nat, timestamp: int,
    subAccounts: seq<SubAccount>)

  function ChainTaskId(c: Commit): TaskId {
    TaskId(c.outpoint, c.timestamp)
  }

  function ChainTask(c: Commit): Task {
    Task(TaskChain, c.refOutpoint, c.outpoint, c.blockNumber, NeedToWrite, Committed, 0)
  }

  function ChainKey(c: Commit, s: SubAccount): RecordKey {
    RecordKey(s.accountId, s.nonce, RecordChain, c.blockNumber)
  }

  function ChainRecord(c: Commit, s: SubAccount): Record {
    Record(s.accountId, s.nonce, RecordChain, c.blockNumber, Some(ChainTaskId(c)))
  }

  /** INSERT IGNORE of the first n rows of a commit. */
  function InsertIgnore(db: Db, c: Commit, n: nat): Db
    requires n <= |c.subAccounts|
  {
    if n == 0 then db
    else
      var before, r := InsertIgnore(db, c, n - 1), ChainRecord(c, c.subAccounts[n - 1]);
      if KeyUsed(before.records, r.Key()) then before
      else before.(records := before.records[before.nextId := r], nextId := before.nextId + 1)
  }

  function CreateChainTask(db: Db, c: Commit): Db {
    var inserted := InsertIgnore(db, c, |c.subAccounts|);
    if ChainTaskId(c) in db.tasks then inserted else inserted.(tasks := db.tasks[ChainTaskId(c) := ChainTask(c)])
  }

  ghost function UpdateToChainTask(db: Db, t: TaskId, blockNumber: nat): Option<Db> {
    var tasks := if t in db.tasks
                 then db.tasks[t := db.tasks[t].(taskType := TaskChain, smtStatus := NeedToWrite, txStatus := Committed,
                                                 blockNumber := blockNumber)]
                 else db.tasks;
    IfUnique(Db(tasks, map i | i in db.records ::
                         if Of(db.records[i], t) then db.records[i].(recordType := RecordChain, recordBN := blockNumber)
                         else db.records[i], db.nextId))
  }

  /** A task of the service that waits for this transaction. */
  predicate Awaits(task: Task, c: Commit) {
    task.refOutpoint == c.refOutpoint && task.outpoint == c.outpoint && task.At(WriteComplete, TxPending)
  }

  function Awaiting(tasks: map<TaskId, Task>, c: Commit): set<TaskId> {
    set t | t in tasks && Awaits(tasks[t], c)
  }

  ghost function ParseAs(db: Db, c: Commit, self: Option<TaskId>): Option<Db> {
    if self.Some? then UpdateToChainTask(db, self.value, c.blockNumber) else Some(CreateChainTask(db, c))
  }

  /** The query picks one of the awaiting tasks. */
  ghost predicate SelfTask(db: Db, c: Commit, self: Option<TaskId>) {
    if self.Some? then self.value in Awaiting(db.tasks, c) else Awaiting(db.tasks, c) == {}
  }

  // ---------- what every transaction keeps ----------

  /** Rows without a task are waiting; a task of the service has waiting and closed rows; a chain task chain rows. */
  ghost predicate RowsMatchTasks(db: Db) {
    forall i | i in db.records :: i < db.nextId && RowMatches(db.tasks, db.records[i])
  }

  predicate RowMatches(tasks: map<TaskId, Task>, r: Record) {
    match r.taskId
    case None => r.recordType == RecordDefault && r.recordBN == 0
    case Some(t) =>
      && t in tasks
      && if tasks[t].taskType == TaskChain then r.recordType == RecordChain && r.recordBN == tasks[t].blockNumber
         else r.recordType in {RecordDefault, RecordClosed} && r.recordBN == 0
  }

  /** The rows of one task have different accounts or nonces. */
  ghost predicate AllDistinct(records: map<nat, Record>) {
    forall i, j | i in records && j in records && records[i].taskId.Some? && records[i].taskId == records[j].taskId
                  && records[i].accountId == records[j].accountId && records[i].nonce == records[j].nonce ::
      i == j
  }

  ghost predicate TablesInv(db: Db) {
    UniqueKeys(db.records) && RowsMatchTasks(db) && AllDistinct(db.records)
  }

  lemma NewRecordKeepsTables(db: Db, accountId: string, nonce: nat)
    requires TablesInv(db)
    ensures TablesInv(NewRecord(db, accountId, nonce))
  {
  }

  lemma AppendKeepsRecords(records: map<nat, Record>, id: nat, r: Record)
    requires UniqueKeys(records) && AllDistinct(records) && !KeyUsed(records, r.Key()) && id !in records
    requires forall i | i in records && r.taskId.Some? && records[i].taskId == r.taskId ::
               records[i].recordType == r.recordType && records[i].recordBN == r.recordBN
    ensures UniqueKeys(records[id := r]) && AllDistinct(records[id := r])
  {
  }

  /** The rows keep their account, nonce and task; some may be gone. */
  ghost predicate SameRows(a: map<nat, Record>, b: map<nat, Record>) {
    forall i | i in b ::
      i in a && b[i].accountId == a[i].accountId && b[i].nonce == a[i].nonce && b[i].taskId == a[i].taskId
  }

  lemma SameRowsDistinct(a: map<nat, Record>, b: map<nat, Record>)
    requires AllDistinct(a) && SameRows(a, b)
    ensures AllDistinct(b)
  {
  }

  lemma DistributeKeepsTables(db: Db, t: TaskId, ids: set<nat>)
    requires TablesInv(db) && t !in db.tasks
    requires forall i | i in ids && i in db.records :: db.records[i].taskId == None
    ensures TablesInv(Distribute(db, t, ids))
  {
  }

  /** A closing always succeeds, and keeps the tables in order. */
  lemma CloseTaskKeepsTables(db: Db, t: TaskId, list: set<Record>, from: SmtStatus)
    requires TablesInv(db) && Lists(db.records, list, t)
    requires t in db.tasks && db.tasks[t].taskType != TaskChain
    ensures CloseTask(db, t, list, from).Some? && TablesInv(CloseTask(db, t, list, from).value)
  {
  }

  lemma CloseRecordsKeepsTables(db: Db, t: TaskId, ids: set<nat>, closed: bool)
    requires TablesInv(db) && t in db.tasks && db.tasks[t].taskType != TaskChain
    requires forall i | i in ids :: i in db.records && Of(db.records[i], t)
    ensures CloseRecords(db, t, ids, closed).Some? && TablesInv(CloseRecords(db, t, ids, closed).value)
  {
    var list := set i | i in ids && i in db.records :: db.records[i];
    var a := db.records;
    var b := CloseIds(DeleteColliding(a, list, t), ids);
    forall i | i in b ensures RowMatches(db.tasks, b[i]) {
      assert RowMatches(db.tasks, a[i]);
    }
    SameRowsDistinct(a, b);
    forall i, j | i in b && j in b && b[i].Key() == b[j].Key()
      ensures i == j
    {
      if i in ids && j !in ids {
        ClosedKeyIsFree(a, t, ids, list, i, j);
      } else if j in ids && i !in ids {
        ClosedKeyIsFree(a, t, ids, list, j, i);
      }
    }
  }

  lemma ClosedKeyIsFree(a: map<nat, Record>, t: TaskId, ids: set<nat>, list: set<Record>, i: nat, j: nat)
    requires UniqueKeys(a) && AllDistinct(a)
    requires i in a && i in ids && Of(a[i], t) && a[i] in list
    requires j in a && j !in ids && !Collides(a[j], list, t)
    ensures a[i].(recordType := RecordClosed).Key() != a[j].Key()
  {
  }

  lemma ToChainKeepsTables(db: Db, t: TaskId, blockNumber: nat)
    requires TablesInv(db) && UpdateToChainTask(db, t, blockNumber).Some?
    ensures TablesInv(UpdateToChainTask(db, t, blockNumber).value)
  {
  }

  lemma {:induction false} InsertKeepsRows(db: Db, c: Commit, n: nat)
    requires UniqueKeys(db.records) && AllDistinct(db.records) && n <= |c.subAccounts|
    requires forall i | i in db.records :: i < db.nextId
    requires forall i | i in db.records && Of(db.records[i], ChainTaskId(c)) ::
               db.records[i].recordType == RecordChain && db.records[i].recordBN == c.blockNumber
    ensures var after := InsertIgnore(db, c, n);
            && UniqueKeys(after.records) && AllDistinct(after.records) && after.nextId >= db.nextId
               && after.tasks == db.tasks
            && (forall i | i in db.records :: i in after.records && after.records[i] == db.records[i])
            && (forall i | i in after.records :: i < after.nextId)
            && (forall i | i in after.records && i !in db.records :: i >= db.nextId && exists s ::
               s in c.subAccounts[..n] && after.records[i] == ChainRecord(c, s))
  {
    if n > 0 {
      InsertKeepsRows(db, c, n - 1);
      var before, s := InsertIgnore(db, c, n - 1), c.subAccounts[n - 1];
      assert c.subAccounts[..n] == c.subAccounts[..n - 1] + [s];
      if !KeyUsed(before.records, ChainRecord(c, s).Key()) {
        AppendKeepsRecords(before.records, before.nextId, ChainRecord(c, s));
      }
    }
  }

  lemma CreateChainKeepsTables(db: Db, c: Commit)
    requires TablesInv(db)
    requires ChainTaskId(c) in db.tasks ==>
               db.tasks[ChainTaskId(c)].taskType == TaskChain && db.tasks[ChainTaskId(c)].blockNumber == c.blockNumber
    ensures TablesInv(CreateChainTask(db, c))
  {
    forall i | i in db.records ensures RowMatches(db.tasks, db.records[i]) {}
    InsertKeepsRows(db, c, |c.subAccounts|);
    var after := CreateChainTask(db, c);
    forall i | i in after.records ensures RowMatches(after.tasks, after.records[i]) {
      if i in db.records {
        assert RowMatches(db.tasks, db.records[i]);
      }
    }
  }
}
