/** What every event of the pipeline keeps of the tables, the chain and the jobs. */
module PipelineInvariants {
  import opened Tables
  import opened TaskStore
  import opened Reparse
  import opened SmtPipeline
  import opened Wrappers

  // ---------- each transaction touches few tasks ----------

  /** The task is as before, and so are its rows, but for closed ones that are deleted. */
  ghost predicate Untouched(a: Db, b: Db, t: TaskId) {
    && t in a.tasks && t in b.tasks && b.tasks[t] == a.tasks[t]
    && (forall i | HasRow(b, t, i) :: HasRow(a, t, i) && b.records[i] == a.records[i])
    && (forall i | HasRow(a, t, i) && a.records[i].recordType != RecordClosed :: HasRow(b, t, i))
  }

  ghost predicate UntouchedBut(a: Db, b: Db, touched: set<TaskId>) {
    forall t | t in a.tasks && t !in touched :: Untouched(a, b, t)
  }

  lemma NewRowsUntouch(db: Db, accountId: string, nonce: nat, t: TaskId, ids: set<nat>)
    requires RowsMatchTasks(db)
    ensures UntouchedBut(db, NewRecord(db, accountId, nonce), {})
    ensures t !in db.tasks && (forall i | i in ids && i in db.records :: db.records[i].taskId == None)
            ==> UntouchedBut(db, Distribute(db, t, ids), {})
  {
  }

  lemma RowsAsBefore(a: Db, b: Db, touched: set<TaskId>)
    requires b.records == a.records && forall t | t in a.tasks && t !in touched ::
             t in b.tasks && b.tasks[t] == a.tasks[t]
    ensures UntouchedBut(a, b, touched)
  {
  }

  lemma MarksUntouch(db: Db, t: TaskId, refOutpoint: string, outpoint: string, retry: nat)
    ensures UntouchedBut(db, MarkWriting(db, t), {t}) && UntouchedBut(db, MarkPending(db, t), {t})
    ensures UntouchedBut(db, SetOutpoint(db, t, refOutpoint, outpoint), {t})
    ensures UntouchedBut(db, MarkRetry(db, t, retry), {t}) && UntouchedBut(db, MarkWriteComplete(db, t), {t})
  {
    hide UntouchedBut;
    RowsAsBefore(db, MarkWriting(db, t), {t});
    RowsAsBefore(db, MarkPending(db, t), {t});
    RowsAsBefore(db, SetOutpoint(db, t, refOutpoint, outpoint), {t});
    RowsAsBefore(db, MarkRetry(db, t, retry), {t});
    RowsAsBefore(db, MarkWriteComplete(db, t), {t});
  }

  function MarkedAt(db: Db, marked: set<TaskId>, smt: SmtStatus, tx: TxStatus): set<TaskId> {
    set t | t in marked && TaskAt(db, t, smt, tx)
  }

  lemma BulkMarksUntouch(db: Db, marked: set<TaskId>)
    ensures UntouchedBut(db, MarkRollback(db, marked), MarkedAt(db, marked, Writing, UnSend))
    ensures UntouchedBut(db, MarkRejected(db, marked), MarkedAt(db, marked, WriteComplete, TxPending))
  {
    hide UntouchedBut;
    RowsAsBefore(db, MarkRollback(db, marked), MarkedAt(db, marked, Writing, UnSend));
    RowsAsBefore(db, MarkRejected(db, marked), MarkedAt(db, marked, WriteComplete, TxPending));
  }

  lemma ClosingsUntouch(db: Db, t: TaskId, list: set<Record>, from: SmtStatus, ids: set<nat>, closed: bool)
    requires forall i | i in ids :: HasRow(db, t, i)
    ensures UntouchedBut(db, OrKeep(CloseTask(db, t, list, from), db), {t})
    ensures UntouchedBut(db, OrKeep(CloseRecords(db, t, ids, closed), db), {t})
  {
    hide UniqueKeys;
  }

  lemma ToChainUntouches(db: Db, t: TaskId, blockNumber: nat)
    ensures UntouchedBut(db, OrKeep(UpdateToChainTask(db, t, blockNumber), db), {t})
  {
  }

  lemma CreateChainUntouches(db: Db, c: Commit)
    requires TablesInv(db) && ChainTaskId(c) !in db.tasks
    ensures UntouchedBut(db, CreateChainTask(db, c), {})
  {
    forall i | i in db.records ensures RowMatches(db.tasks, db.records[i]) {}
    InsertKeepsRows(db, c, |c.subAccounts|);
    hide TablesInv, UniqueKeys, InsertIgnore;
  }

  lemma NothingUntouched(db: Db)
    ensures forall touched :: UntouchedBut(db, db, touched)
  {
  }

  /** The tasks an event may change. */
  ghost function TouchedBy(w: World, e: Event): set<TaskId>
    requires Enabled(w, e)
  {
    match e
    case ParseEvent(k, self) => if self.Some? then {self.value} else {}
    case MarkRollbackEvent(marked) => MarkedAt(w.db, marked, Writing, UnSend)
    case RejectEvent(marked) => MarkedAt(w.db, marked, WriteComplete, TxPending)
    case NonceCloseEvent(t, ids, closed) => {t}
    case CustomScriptCloseEvent(t) => {t}
    case WriteStartEvent => {w.write.task}
    case WriteBuildEvent(refOutpoint, outpoint) => {w.write.task}
    case WritePendingEvent => {w.write.task}
    case RollbackFinishEvent => {w.rollback.task}
    case ConfirmFinishEvent => {w.confirm.task}
    case _ => {}
  }

  /** A commit whose digest task exists is parsed again without effect. */
  lemma DigestAgain(w: World, k: nat)
    requires DigestsPresent(w) && k < |w.commits| && ChainTaskId(w.commits[k]) in w.db.tasks
    ensures CreateChainTask(w.db, w.commits[k]) == w.db
  {
    InsertNothing(w.db, w.commits[k], |w.commits[k].subAccounts|);
  }

  lemma ParseUntouches(w: World, k: nat, self: Option<TaskId>)
    requires TablesInv(w.db) && DigestsPresent(w) && Enabled(w, ParseEvent(k, self))
    ensures UntouchedBut(w.db, ApplyParse(w, k, self).db, TouchedBy(w, ParseEvent(k, self)))
  {
    NothingUntouched(w.db);
    if self.Some? {
      ToChainUntouches(w.db, self.value, w.commits[k].blockNumber);
    } else if ChainTaskId(w.commits[k]) in w.db.tasks {
      DigestAgain(w, k);
    } else {
      CreateChainUntouches(w.db, w.commits[k]);
    }
  }

  lemma OthersUntouched(w: World, e: Event, maxRetry: nat)
    requires Core(w) && Enabled(w, e)
    ensures UntouchedBut(w.db, Apply(w, e, maxRetry).db, TouchedBy(w, e))
  {
    var db := w.db;
    NothingUntouched(db);
    hide RowMatches, Statuses, ChainOk, TaskOrigins, PendingOk, WriteOk, RollbackOk, ConfirmOk, UniqueKeys,
      UntouchedBut;
    hide NewRecord, Distribute, MarkRollback, MarkRejected, CloseTask, CloseRecords, MarkWriting, SetOutpoint,
      MarkPending;
    hide MarkRetry, MarkWriteComplete, SameRoot, SyncCheck, NothingInProgress, LiveCellKnown, LiveCellToConfirm,
      SelfTask;
    match e
    case ParseEvent(k, self) => ParseUntouches(w, k, self);
    case RecordEvent(accountId, nonce) => NewRowsUntouch(db, accountId, nonce, TaskId("", 0), {});
    case DistributeEvent(t, ids) => NewRowsUntouch(db, "", 0, t, ids);
    case MarkRollbackEvent(marked) => BulkMarksUntouch(db, marked);
    case RejectEvent(marked) => BulkMarksUntouch(db, marked);
    case NonceCloseEvent(t, ids, closed) => ClosingsUntouch(db, t, {}, NeedToWrite, ids, closed);
    case CustomScriptCloseEvent(t) =>
      ClosingsUntouch(db, t, (set r | r in RowsOf(db, t) && r.recordType == RecordDefault), NeedToWrite, {}, false);
    case WriteStartEvent => MarksUntouch(db, w.write.task, "", "", 0);
    case WriteBuildEvent(refOutpoint, outpoint) => MarksUntouch(db, w.write.task, refOutpoint, outpoint, 0);
    case WritePendingEvent => MarksUntouch(db, w.write.task, "", "", 0);
    case RollbackFinishEvent =>
      var t := w.rollback.task;
      MarksUntouch(db, t, "", "", if t in db.tasks then db.tasks[t].retry + 1 else 0);
      ClosingsUntouch(db, t, w.rollback.list, NeedToRollback, {}, false);
    case ConfirmFinishEvent => MarksUntouch(db, w.confirm.task, "", "", 0);
    case _ =>
  }

  // ---------- the tables ----------

  /** The records are the same, and no task changed its type or block. */
  ghost predicate OnlyStatuses(a: Db, b: Db) {
    && b.records == a.records && b.nextId == a.nextId && b.tasks.Keys == a.tasks.Keys
    && forall t | t in a.tasks ::
       b.tasks[t].taskType == a.tasks[t].taskType && b.tasks[t].blockNumber == a.tasks[t].blockNumber
  }

  lemma StatusesKeepTables(a: Db, b: Db)
    requires TablesInv(a) && OnlyStatuses(a, b)
    ensures TablesInv(b)
  {
  }

  lemma BulkMarksOnlyStatuses(db: Db, marked: set<TaskId>)
    ensures OnlyStatuses(db, MarkRollback(db, marked)) && OnlyStatuses(db, MarkRejected(db, marked))
  {
  }

  lemma MarksOnlyStatuses(db: Db, t: TaskId, refOutpoint: string, outpoint: string)
    ensures OnlyStatuses(db, MarkWriting(db, t)) && OnlyStatuses(db, MarkPending(db, t)) && OnlyStatuses(db, db)
    ensures OnlyStatuses(db, SetOutpoint(db, t, refOutpoint, outpoint)) && OnlyStatuses(db, MarkWriteComplete(db, t))
  {
  }

  lemma RetryOnlyStatuses(db: Db, t: TaskId, retry: nat)
    ensures OnlyStatuses(db, MarkRetry(db, t, retry))
  {
  }

  /** The waiting rows of a task of the service are all its rows that are not closed. */
  lemma DefaultsListAll(db: Db, t: TaskId)
    requires TablesInv(db) && t in db.tasks && db.tasks[t].taskType != TaskChain
    ensures Lists(db.records, (set r | r in RowsOf(db, t) && r.recordType == RecordDefault), t)
  {
  }

  lemma DigestIsChain(w: World, k: nat)
    requires ChainOk(w) && TaskOrigins(w) && k < |w.commits| && ChainTaskId(w.commits[k]) in w.db.tasks
    ensures w.db.tasks[ChainTaskId(w.commits[k])].taskType == TaskChain
    ensures w.db.tasks[ChainTaskId(w.commits[k])].blockNumber == w.commits[k].blockNumber
    ensures k < w.parsed
  {
  }

  lemma ParseKeepsTables(w: World, k: nat, self: Option<TaskId>)
    requires Core(w) && Enabled(w, ParseEvent(k, self))
    ensures TablesInv(ApplyParse(w, k, self).db)
  {
    hide TablesInv, UniqueKeys;
    if self.Some? {
      if UpdateToChainTask(w.db, self.value, w.commits[k].blockNumber).Some? {
        ToChainKeepsTables(w.db, self.value, w.commits[k].blockNumber);
      }
    } else {
      if ChainTaskId(w.commits[k]) in w.db.tasks {
        DigestIsChain(w, k);
      }
      CreateChainKeepsTables(w.db, w.commits[k]);
    }
  }

  lemma TablesStay(w: World, e: Event, maxRetry: nat)
    requires Core(w) && Enabled(w, e)
    ensures TablesInv(Apply(w, e, maxRetry).db)
  {
    var db := w.db;
    hide TablesInv, ChainOk, TaskOrigins, DigestsPresent, PendingOk, ConfirmOk, Statuses;
    hide NewRecord, Distribute, MarkRollback, MarkRejected, CloseTask, CloseRecords, MarkWriting, SetOutpoint,
      MarkPending;
    hide MarkRetry, MarkWriteComplete, SameRoot, SyncCheck, NothingInProgress, LiveCellKnown, LiveCellToConfirm,
      SelfTask;
    hide OnlyStatuses, Lists, RowsOf;
    match e
    case ParseEvent(k, self) => ParseKeepsTables(w, k, self);
    case RecordEvent(accountId, nonce) => NewRecordKeepsTables(db, accountId, nonce);
    case DistributeEvent(t, ids) => DistributeKeepsTables(db, t, ids);
    case NonceCloseEvent(t, ids, closed) => CloseRecordsKeepsTables(db, t, ids, closed);
    case CustomScriptCloseEvent(t) =>
      DefaultsListAll(db, t);
      CloseTaskKeepsTables(db, t, (set r | r in RowsOf(db, t) && r.recordType == RecordDefault), NeedToWrite);
    case RollbackFinishEvent => RollbackKeepsTables(w, maxRetry);
    case _ => MarksKeepTables(w, e, maxRetry);
  }

  lemma RollbackKeepsTables(w: World, maxRetry: nat)
    requires TablesInv(w.db) && Statuses(w.db) && RollbackOk(w) && w.rollback.RollbackWrote?
    ensures TablesInv(ApplyRollbackFinish(w, maxRetry).db)
  {
    var t := w.rollback.task;
    assert StatusOk(w.db.tasks[t]) && w.db.tasks[t].taskType != TaskChain;
    RetryOnlyStatuses(w.db, t, w.db.tasks[t].retry + 1);
    hide TablesInv, CloseTask, MarkRetry, OnlyStatuses, Statuses, Lists;
    StatusesKeepTables(w.db, MarkRetry(w.db, t, w.db.tasks[t].retry + 1));
    CloseTaskKeepsTables(w.db, t, w.rollback.list, NeedToRollback);
  }

  lemma MarksKeepTables(w: World, e: Event, maxRetry: nat)
    requires TablesInv(w.db) && Enabled(w, e)
    requires !(e.ParseEvent? || e.RecordEvent? || e.DistributeEvent? || e.NonceCloseEvent? || e.CustomScriptCloseEvent?
             || e.RollbackFinishEvent?)
    ensures TablesInv(Apply(w, e, maxRetry).db)
  {
    hide MarkRollback, MarkRejected, MarkWriting, SetOutpoint, MarkPending, MarkWriteComplete, SameRoot, SyncCheck;
    hide OnlyStatuses, TablesInv, NothingInProgress, LiveCellKnown, LiveCellToConfirm;
    var t := match e
      case ConfirmFinishEvent => w.confirm.task
      case WriteStartEvent => w.write.task
      case WriteBuildEvent(_, _) => w.write.task
      case WritePendingEvent => w.write.task
      case _ => TaskId("", 0);
    var marked := match e
      case MarkRollbackEvent(m) => m
      case RejectEvent(m) => m
      case _ => {};
    var refOutpoint := if e.WriteBuildEvent? then e.refOutpoint else "";
    var outpoint := if e.WriteBuildEvent? then e.outpoint else "";
    BulkMarksOnlyStatuses(w.db, marked);
    MarksOnlyStatuses(w.db, t, refOutpoint, outpoint);
    StatusesKeepTables(w.db, Apply(w, e, maxRetry).db);
  }

  // ---------- statuses ----------

  /** The moves of a task. */
  predicate Edge(a: Task, b: Task, maxRetry: nat) {
    // written to the tree, its transaction built, then sent
    || (a.taskType == TaskDelegate && a.At(NeedToWrite, UnSend) && b == a.(smtStatus := Writing))
    || (a.taskType == TaskDelegate && a.At(Writing, UnSend)
       && b == a.(refOutpoint := b.refOutpoint, outpoint := b.outpoint))
    || (a.taskType == TaskDelegate && a.At(Writing, UnSend)
       && b == a.(smtStatus := WriteComplete, txStatus := TxPending))
    // given up, or rejected by the chain
    || (a.At(Writing, UnSend) && b == a.(smtStatus := NeedToRollback))
    || (a.At(WriteComplete, TxPending) && b == a.(smtStatus := NeedToRollback, txStatus := TxRejected))
    // rolled back, to be tried again or closed
    || (a.smtStatus == NeedToRollback && a.taskType == TaskDelegate && a.retry < maxRetry
        && b == a.(smtStatus := NeedToWrite, txStatus := UnSend, retry := a.retry + 1))
    || (a.smtStatus == NeedToRollback && !(a.taskType == TaskDelegate && a.retry < maxRetry)
       && b == a.(smtStatus := RollbackComplete))
    // closed before it is written
    || (a.taskType == TaskDelegate && a.At(NeedToWrite, UnSend) && b == a.(smtStatus := RollbackComplete))
    || (a.taskType == TaskDelegate && a.At(NeedToWrite, UnSend) && b == a.(taskType := TaskClosed))
    // its transaction found on the chain, and confirmed
    || (a.At(WriteComplete, TxPending)
        && b == a.(taskType := TaskChain, smtStatus := NeedToWrite, txStatus := Committed,
           blockNumber := b.blockNumber))
    || (a.At(NeedToWrite, Committed) && b == a.(smtStatus := WriteComplete))
  }

  /**
    A task stays or moves along an edge; only a parse that finds it makes it a chain task, only a send makes it
    pending, only a start writing.
   */
  ghost predicate Moves(w: World, e: Event, v: World, t: TaskId, maxRetry: nat) {
    && t in w.db.tasks && t in v.db.tasks
    && var a, b := w.db.tasks[t], v.db.tasks[t];
       && (b == a || Edge(a, b, maxRetry))
       && (b.taskType == TaskChain && a.taskType != TaskChain ==> e.ParseEvent? && e.self == Some(t))
       && (b.At(WriteComplete, TxPending) && b != a ==> e.WritePendingEvent?)
       && (b.At(Writing, UnSend) && !a.At(Writing, UnSend) ==> e.WriteStartEvent?)
  }

  lemma RequestsMove(w: World, e: Event, t: TaskId, maxRetry: nat)
    requires Enabled(w, e) && t in TouchedBy(w, e) && t in w.db.tasks
    requires e.MarkRollbackEvent? || e.RejectEvent? || e.NonceCloseEvent? || e.CustomScriptCloseEvent?
    ensures Moves(w, e, Apply(w, e, maxRetry), t, maxRetry)
  {
  }

  lemma WritingMoves(w: World, e: Event, maxRetry: nat)
    requires Enabled(w, e) && WriteOk(w) && (e.WriteStartEvent? || e.WriteBuildEvent? || e.WritePendingEvent?)
    ensures Moves(w, e, Apply(w, e, maxRetry), w.write.task, maxRetry)
  {
  }

  lemma RollbackMoves(w: World, maxRetry: nat)
    requires RollbackOk(w) && w.rollback.RollbackWrote?
    ensures Moves(w, RollbackFinishEvent, ApplyRollbackFinish(w, maxRetry), w.rollback.task, maxRetry)
  {
  }

  lemma ChainMoves(w: World, e: Event, t: TaskId, maxRetry: nat)
    requires Enabled(w, e) && t in TouchedBy(w, e) && t in w.db.tasks && (e.ParseEvent? || e.ConfirmFinishEvent?)
    ensures Moves(w, e, Apply(w, e, maxRetry), t, maxRetry)
  {
  }

  /** Every event leaves a task where it is or moves it along an edge. */
  lemma TasksMove(w: World, e: Event, maxRetry: nat, t: TaskId)
    requires Core(w) && Enabled(w, e) && t in w.db.tasks
    ensures Moves(w, e, Apply(w, e, maxRetry), t, maxRetry)
  {
    OthersUntouched(w, e, maxRetry);
    if t in TouchedBy(w, e) {
      assert WriteOk(w) && RollbackOk(w);
      hide Core, Enabled, Apply, Moves, WriteOk, RollbackOk;
      if e.MarkRollbackEvent? || e.RejectEvent? || e.NonceCloseEvent? || e.CustomScriptCloseEvent? {
        RequestsMove(w, e, t, maxRetry);
      } else if e.WriteStartEvent? || e.WriteBuildEvent? || e.WritePendingEvent? {
        WritingMoves(w, e, maxRetry);
      } else if e.RollbackFinishEvent? {
        RollbackFinishMoves(w, maxRetry);
      } else {
        ChainMoves(w, e, t, maxRetry);
      }
    } else {
      hide Core, Enabled, Apply, TouchedBy;
      assert Untouched(w.db, Apply(w, e, maxRetry).db, t);
    }
  }

  lemma RollbackFinishMoves(w: World, maxRetry: nat)
    requires Enabled(w, RollbackFinishEvent) && RollbackOk(w)
    ensures Moves(w, RollbackFinishEvent, Apply(w, RollbackFinishEvent, maxRetry), w.rollback.task, maxRetry)
  {
    hide CloseTask, Lists, Moves;
    RollbackMoves(w, maxRetry);
  }

  /** The only new tasks are the one distributed to, and the digest of the commit being parsed. */
  lemma NewTasks(w: World, e: Event, maxRetry: nat, t: TaskId)
    requires Enabled(w, e) && t in Apply(w, e, maxRetry).db.tasks && t !in w.db.tasks
    ensures || (e.DistributeEvent? && t == e.task
            && Apply(w, e, maxRetry).db.tasks[t] == Task(TaskDelegate, "", "", 0, NeedToWrite, UnSend, 0))
            || (e.ParseEvent? && e.self.None? && t == ChainTaskId(w.commits[e.k])
               && Apply(w, e, maxRetry).db.tasks[t] == ChainTask(w.commits[e.k]))
  {
    hide UniqueKeys, SyncCheck, SameRoot, NothingInProgress, LiveCellKnown, LiveCellToConfirm;
    if e.ParseEvent? && e.self.None? {
      InsertKeepsTasks(w.db, w.commits[e.k], |w.commits[e.k].subAccounts|);
    }
  }

  lemma {:induction false} InsertKeepsTasks(db: Db, c: Commit, n: nat)
    requires n <= |c.subAccounts|
    ensures InsertIgnore(db, c, n).tasks == db.tasks
  {
    if n > 0 {
      InsertKeepsTasks(db, c, n - 1);
    }
  }

  lemma EdgeKeepsStatus(a: Task, b: Task, maxRetry: nat)
    requires StatusOk(a) && Edge(a, b, maxRetry)
    ensures StatusOk(b)
  {
  }

  lemma StatusesStay(w: World, e: Event, maxRetry: nat)
    requires Core(w) && Enabled(w, e)
    ensures Statuses(Apply(w, e, maxRetry).db)
  {
    var v := Apply(w, e, maxRetry);
    assert Statuses(w.db);
    forall t | t in v.db.tasks ensures StatusOk(v.db.tasks[t]) {
      if t in w.db.tasks {
        TasksMove(w, e, maxRetry, t);
        hide Core, Enabled, Apply, Edge, StatusOk;
        if Edge(w.db.tasks[t], v.db.tasks[t], maxRetry) {
          EdgeKeepsStatus(w.db.tasks[t], v.db.tasks[t], maxRetry);
        }
      } else {
        NewTasks(w, e, maxRetry, t);
      }
    }
  }

  // ---------- the chain ----------

  lemma SameChainOk(w: World, v: World)
    requires ChainOk(w) && v.commits == w.commits && w.parsed <= v.parsed <= |w.commits| && v.info == w.info
             && v.built == w.built
    ensures ChainOk(v)
  {
  }

  lemma CommitKeepsChain(w: World, c: Commit)
    requires ChainOk(w) && CommitAllowed(w, c)
    ensures ChainOk(w.(commits := w.commits + [c]))
  {
  }

  lemma SyncKeepsChain(w: World, a: string, k: nat)
    requires ChainOk(w) && k < |w.commits| && Touches(w.commits[k], a)
    ensures ChainOk(w.(info := w.info[a := k]))
  {
  }

  lemma BuildKeepsChain(w: World, v: World, outpoint: string, subAccounts: seq<SubAccount>)
    requires ChainOk(w) && forall k | 0 <= k < |w.commits| :: w.commits[k].outpoint != outpoint
    requires v.commits == w.commits && v.parsed == w.parsed && v.info == w.info
             && v.built == w.built[outpoint := subAccounts]
    ensures ChainOk(v)
  {
  }

  /** The chain and the parser only move forward. */
  lemma ChainGrows(w: World, e: Event, maxRetry: nat)
    requires Enabled(w, e)
    ensures w.commits <= Apply(w, e, maxRetry).commits && w.parsed <= Apply(w, e, maxRetry).parsed
    ensures forall o | o in w.built :: o in Apply(w, e, maxRetry).built && Apply(w, e, maxRetry).built[o] == w.built[o]
    ensures !e.CommitEvent? ==>
              Apply(w, e, maxRetry).commits == w.commits
                && (w.parsed <= |w.commits| ==> Apply(w, e, maxRetry).parsed <= |w.commits|)
    ensures !e.SyncEvent? ==> Apply(w, e, maxRetry).info == w.info
    ensures !e.WriteBuildEvent? ==> Apply(w, e, maxRetry).built == w.built
  {
    hide UpdateToChainTask, CreateChainTask, NewRecord, Distribute, MarkRollback, MarkRejected, CloseTask, CloseRecords;
    hide MarkWriting, SetOutpoint, MarkPending, MarkRetry, MarkWriteComplete, SameRoot, SyncCheck, NothingInProgress;
    hide LiveCellKnown, LiveCellToConfirm, SelfTask, UpdateLeaves, WriteBack, CommitAllowed;
  }

  lemma ChainStays(w: World, e: Event, maxRetry: nat)
    requires Core(w) && Enabled(w, e)
    ensures ChainOk(Apply(w, e, maxRetry))
  {
    assert ChainOk(w) && w.parsed <= |w.commits|;
    hide Core;
    if e.CommitEvent? {
      hide CommitAllowed, ChainOk;
      CommitKeepsChain(w, e.c);
    } else if e.SyncEvent? {
      hide Touches, ChainOk;
      SyncKeepsChain(w, e.a, e.k);
    } else if e.WriteBuildEvent? {
      hide ChainOk, SetOutpoint;
      BuildKeepsChain(w, Apply(w, e, maxRetry), e.outpoint, w.write.subAccounts);
    } else {
      ChainGrows(w, e, maxRetry);
      hide ChainOk, Enabled, Apply;
      SameChainOk(w, Apply(w, e, maxRetry));
    }
  }

  lemma ParsedTask(w: World, k: nat, self: Option<TaskId>, t: TaskId)
    requires Core(w) && Enabled(w, ParseEvent(k, self))
    requires if self.Some? then t == self.value && ApplyParse(w, k, self).db.tasks[t] != w.db.tasks[t]
             else t == ChainTaskId(w.commits[k]) && t !in w.db.tasks
    ensures TaskOfCommit(ApplyParse(w, k, self), t, k)
  {
  }

  lemma NewOrigin(w: World, e: Event, maxRetry: nat, t: TaskId)
    requires Core(w) && Enabled(w, e) && t in Apply(w, e, maxRetry).db.tasks && t !in w.db.tasks
    ensures OriginOk(Apply(w, e, maxRetry), t)
  {
    NewTasks(w, e, maxRetry, t);
    if e.ParseEvent? {
      ParsedTask(w, e.k, e.self, t);
      hide Core, ApplyParse, TaskOfCommit;
    } else {
      hide Core, Apply;
    }
  }

  lemma EdgeKeepsOrigin(a: Task, b: Task, maxRetry: nat)
    requires StatusOk(a) && (b == a || Edge(a, b, maxRetry)) && (b.taskType == TaskChain ==> a.taskType == TaskChain)
    ensures a.taskType == TaskChain ==>
              b.taskType == TaskChain && b.outpoint == a.outpoint && b.blockNumber == a.blockNumber
  {
  }

  lemma OriginStays(w: World, e: Event, maxRetry: nat, t: TaskId)
    requires Core(w) && Enabled(w, e) && t in w.db.tasks
    ensures t in Apply(w, e, maxRetry).db.tasks && OriginOk(Apply(w, e, maxRetry), t)
  {
    var v := Apply(w, e, maxRetry);
    assert OriginOk(w, t) && StatusOk(w.db.tasks[t]);
    hide Core, Apply, Enabled, Edge, StatusOk, OriginOk;
    TasksMove(w, e, maxRetry, t);
    ChainGrows(w, e, maxRetry);
    if v.db.tasks[t].taskType == TaskChain && w.db.tasks[t].taskType != TaskChain {
      ParseStep(w, e, maxRetry);
      IngestedOrigin(w, e, v, t);
    } else {
      EdgeKeepsOrigin(w.db.tasks[t], v.db.tasks[t], maxRetry);
      OldOrigin(w, v, t);
    }
  }

  lemma ParseStep(w: World, e: Event, maxRetry: nat)
    requires Enabled(w, e) && e.ParseEvent?
    ensures Apply(w, e, maxRetry) == ApplyParse(w, e.k, e.self)
  {
    hide ApplyParse;
  }

  lemma IngestedOrigin(w: World, e: Event, v: World, t: TaskId)
    requires Core(w) && Enabled(w, e) && e.ParseEvent? && e.self == Some(t) && v == ApplyParse(w, e.k, Some(t))
    requires t in w.db.tasks && t in v.db.tasks && v.db.tasks[t].taskType == TaskChain
             && w.db.tasks[t].taskType != TaskChain
    ensures OriginOk(v, t)
  {
    hide Core, ApplyParse;
    assert v.db.tasks[t] != w.db.tasks[t];
    ParsedTask(w, e.k, e.self, t);
    hide TaskOfCommit;
  }

  lemma OriginsStay(w: World, e: Event, maxRetry: nat)
    requires Core(w) && Enabled(w, e)
    ensures TaskOrigins(Apply(w, e, maxRetry))
  {
    forall t | t in Apply(w, e, maxRetry).db.tasks ensures OriginOk(Apply(w, e, maxRetry), t) {
      if t in w.db.tasks {
        OriginStays(w, e, maxRetry, t);
      } else {
        NewOrigin(w, e, maxRetry, t);
      }
    }
    hide Core, Enabled, Apply, OriginOk;
  }

  lemma OldOrigin(w: World, v: World, t: TaskId)
    requires t in w.db.tasks && OriginOk(w, t) && w.commits <= v.commits && w.parsed <= v.parsed && t in v.db.tasks
    requires v.db.tasks[t].taskType == TaskChain ==> w.db.tasks[t].taskType == TaskChain
    requires w.db.tasks[t].taskType == TaskChain ==>
               v.db.tasks[t].outpoint == w.db.tasks[t].outpoint
                 && v.db.tasks[t].blockNumber == w.db.tasks[t].blockNumber
               && v.db.tasks[t].taskType == TaskChain
    ensures OriginOk(v, t)
  {
    if v.db.tasks[t].taskType == TaskChain {
      var k: nat :| TaskOfCommit(w, t, k);
      assert TaskOfCommit(v, t, k);
    }
  }

  // ---------- chain rows ----------

  /** Rows of tasks an event touches change only when they are the service's own. */
  lemma TouchedIsOwn(w: World, e: Event, maxRetry: nat, t: TaskId)
    requires Core(w) && Enabled(w, e) && t in TouchedBy(w, e) && t in w.db.tasks && w.db.tasks[t].taskType == TaskChain
    ensures Apply(w, e, maxRetry).db.records == w.db.records
  {
    OnlyConfirmed(w, e, t);
    hide Core, Enabled, Lists, DefaultsCover, SameRoot;
  }

  lemma OnlyConfirmed(w: World, e: Event, t: TaskId)
    requires Core(w) && Enabled(w, e) && t in TouchedBy(w, e) && t in w.db.tasks && w.db.tasks[t].taskType == TaskChain
    ensures e.ConfirmFinishEvent?
  {
    assert StatusOk(w.db.tasks[t]) && WriteOk(w) && RollbackOk(w);
    hide Core, Lists, DefaultsCover, SameRoot, NothingInProgress, LiveCellKnown;
  }

  lemma ChainKeyStays(w: World, e: Event, maxRetry: nat, key: RecordKey)
    requires Core(w) && Enabled(w, e) && key.recordType == RecordChain && KeyUsed(w.db.records, key)
    ensures KeyUsed(Apply(w, e, maxRetry).db.records, key)
  {
    OthersUntouched(w, e, maxRetry);
    var i, t := RowOfChainKey(w, key);
    hide Core, Enabled, Apply, TouchedBy, Untouched, KeyUsed, TablesInv;
    if t in TouchedBy(w, e) {
      TouchedIsOwn(w, e, maxRetry, t);
    } else {
      KeyKept(w.db, Apply(w, e, maxRetry).db, t, i, key);
    }
  }

  lemma KeyKept(a: Db, b: Db, t: TaskId, i: nat, key: RecordKey)
    requires Untouched(a, b, t) && HasRow(a, t, i) && a.records[i].Key() == key && key.recordType == RecordChain
    ensures KeyUsed(b.records, key)
  {
  }

  lemma RowOfChainKey(w: World, key: RecordKey) returns (i: nat, t: TaskId)
    requires TablesInv(w.db) && key.recordType == RecordChain && KeyUsed(w.db.records, key)
    ensures HasRow(w.db, t, i) && w.db.records[i].Key() == key && t in w.db.tasks && w.db.tasks[t].taskType == TaskChain
  {
    i :| i in w.db.records && w.db.records[i].Key() == key;
    assert RowMatches(w.db.tasks, w.db.records[i]);
    t := w.db.records[i].taskId.value;
  }

  lemma NewDigest(w: World, e: Event, maxRetry: nat, k: nat, s: SubAccount)
    requires Core(w) && Enabled(w, e) && k < |Apply(w, e, maxRetry).commits|
    requires ChainTaskId(Apply(w, e, maxRetry).commits[k]) !in w.db.tasks
    requires ChainTaskId(Apply(w, e, maxRetry).commits[k]) in Apply(w, e, maxRetry).db.tasks
    requires s in Apply(w, e, maxRetry).commits[k].subAccounts
    ensures KeyUsed(Apply(w, e, maxRetry).db.records, ChainKey(Apply(w, e, maxRetry).commits[k], s))
  {
    NewTasks(w, e, maxRetry, ChainTaskId(Apply(w, e, maxRetry).commits[k]));
    ChainStays(w, e, maxRetry);
    assert RowsMatchTasks(w.db) && e.ParseEvent?;
    InsertBrings(w.db, w.commits[e.k]);
    hide Core, UniqueKeys, CreateChainTask, UpdateToChainTask;
    assert k < e.k || k > e.k || k == e.k;
  }

  lemma DigestsStay(w: World, e: Event, maxRetry: nat)
    requires Core(w) && Enabled(w, e)
    ensures DigestsPresent(Apply(w, e, maxRetry))
  {
    var v := Apply(w, e, maxRetry);
    ChainGrows(w, e, maxRetry);
    forall k, s | 0 <= k < |v.commits| && ChainTaskId(v.commits[k]) in v.db.tasks && s in v.commits[k].subAccounts
      ensures KeyUsed(v.db.records, ChainKey(v.commits[k], s))
    {
      if ChainTaskId(v.commits[k]) !in w.db.tasks {
        NewDigest(w, e, maxRetry, k, s);
      } else {
        OldDigest(w, e, maxRetry, k);
        assert DigestsPresent(w);
        ChainKeyStays(w, e, maxRetry, ChainKey(v.commits[k], s));
      }
    }
  }

  /** A commit just made has no digest task. */
  lemma OldDigest(w: World, e: Event, maxRetry: nat, k: nat)
    requires Core(w) && Enabled(w, e) && k < |Apply(w, e, maxRetry).commits|
    requires ChainTaskId(Apply(w, e, maxRetry).commits[k]) in w.db.tasks
    ensures k < |w.commits| && Apply(w, e, maxRetry).commits[k] == w.commits[k]
  {
    ChainGrows(w, e, maxRetry);
  }

  // ---------- the jobs ----------

  lemma DefaultsStay(a: Db, b: Db, t: TaskId, subAccounts: seq<SubAccount>)
    requires Untouched(a, b, t) && DefaultsCover(a, t, subAccounts)
    ensures DefaultsCover(b, t, subAccounts)
  {
  }

  /** The tasks a running job relies on are not touched by anything else. */
  lemma JobTasksUntouched(w: World, e: Event, maxRetry: nat, t: TaskId)
    requires Core(w) && Enabled(w, e) && t in w.db.tasks
    requires || (w.write.WriteChecked? && t == w.write.task && !OfWriting(e))
             || ((w.write.WriteStarted? || w.write.WriteTree? || w.write.WriteBuilt?) && t == w.write.task
                && !OfWriting(e))
             || (!w.rollback.NoRollback? && t == w.rollback.task && !e.RollbackFinishEvent?)
             || (!w.confirm.NoConfirm? && t == w.confirm.task && !e.ConfirmFinishEvent?)
    ensures Untouched(w.db, Apply(w, e, maxRetry).db, t)
  {
    OthersUntouched(w, e, maxRetry);
    assert WriteOk(w) && RollbackOk(w) && ConfirmOk(w);
    hide Core, Apply, Lists, DefaultsCover, SameRoot, SyncCheck, NothingInProgress, LiveCellKnown, LiveCellToConfirm,
      Untouched;
    assert t !in TouchedBy(w, e);
  }

  predicate OfWriting(e: Event) {
    e.WriteCheckEvent? || e.WriteStartEvent? || e.WriteTreeEvent? || e.WriteBuildEvent? || e.WritePendingEvent?
      || e.WriteAbort?
  }

  lemma PendingStays(w: World, e: Event, maxRetry: nat)
    requires Core(w) && Enabled(w, e)
    ensures PendingOk(Apply(w, e, maxRetry))
  {
    var v := Apply(w, e, maxRetry);
    forall t | t in v.db.tasks && v.db.tasks[t].At(WriteComplete, TxPending)
      ensures v.db.tasks[t].outpoint in v.built && DefaultsCover(v.db, t, v.built[v.db.tasks[t].outpoint])
    {
      if t !in w.db.tasks {
        NewTasks(w, e, maxRetry, t);
      } else {
        TasksMove(w, e, maxRetry, t);
        OldPending(w, e, maxRetry, t);
      }
    }
  }

  lemma OldPending(w: World, e: Event, maxRetry: nat, t: TaskId)
    requires Core(w) && Enabled(w, e) && Moves(w, e, Apply(w, e, maxRetry), t, maxRetry)
    requires Apply(w, e, maxRetry).db.tasks[t].At(WriteComplete, TxPending)
    ensures Apply(w, e, maxRetry).db.tasks[t].outpoint in Apply(w, e, maxRetry).built
    ensures DefaultsCover(Apply(w, e, maxRetry).db, t,
            Apply(w, e, maxRetry).built[Apply(w, e, maxRetry).db.tasks[t].outpoint])
  {
    OthersUntouched(w, e, maxRetry);
    ChainGrows(w, e, maxRetry);
    var v := Apply(w, e, maxRetry);
    assert PendingOk(w) && WriteOk(w);
    if t in TouchedBy(w, e) {
      PendingTouched(w, e, maxRetry, t);
    } else {
      hide Core, Enabled, Apply, TouchedBy, Edge, DefaultsCover;
      assert Untouched(w.db, v.db, t);
      DefaultsStay(w.db, v.db, t, w.built[w.db.tasks[t].outpoint]);
    }
  }

  /**
    A task an event touches is waiting for its transaction afterwards only if it was sent, or could not be ingested.
   */
  lemma NotPending(w: World, e: Event, maxRetry: nat, t: TaskId)
    requires WriteOk(w) && RollbackOk(w) && ConfirmOk(w) && Enabled(w, e) && t in TouchedBy(w, e) && t in w.db.tasks
    requires Moves(w, e, Apply(w, e, maxRetry), t, maxRetry) && !e.WritePendingEvent? && !e.ParseEvent?
    ensures !Apply(w, e, maxRetry).db.tasks[t].At(WriteComplete, TxPending)
  {
    if w.db.tasks[t].At(WriteComplete, TxPending) {
      hide Moves, CloseTask, CloseRecords, Lists, DefaultsCover, SameRoot;
    } else {
      hide Enabled, Apply, TouchedBy, WriteOk, RollbackOk, ConfirmOk;
    }
  }

  lemma PendingTouched(w: World, e: Event, maxRetry: nat, t: TaskId)
    requires Core(w) && Enabled(w, e) && t in TouchedBy(w, e) && Moves(w, e, Apply(w, e, maxRetry), t, maxRetry)
    requires Apply(w, e, maxRetry).db.tasks[t].At(WriteComplete, TxPending)
    ensures Apply(w, e, maxRetry).db.tasks[t].outpoint in Apply(w, e, maxRetry).built
    ensures DefaultsCover(Apply(w, e, maxRetry).db, t,
            Apply(w, e, maxRetry).built[Apply(w, e, maxRetry).db.tasks[t].outpoint])
  {
    assert PendingOk(w) && WriteOk(w) && RollbackOk(w) && ConfirmOk(w);
    hide Core, RollbackOk, ConfirmOk;
    if e.WritePendingEvent? {
      hide PendingOk, Moves;
    } else if e.ParseEvent? {
      hide WriteOk, Moves, UniqueKeys, DefaultsCover;
      assert Apply(w, e, maxRetry) == w;
    } else {
      hide Enabled, Apply, TouchedBy, WriteOk, PendingOk, Moves;
      NotPending(w, e, maxRetry, t);
    }
  }

  lemma WriteStays(w: World, e: Event, maxRetry: nat)
    requires Core(w) && Enabled(w, e)
    ensures WriteOk(Apply(w, e, maxRetry))
  {
    assert WriteOk(w);
    if OfWriting(e) {
      WriteJobStays(w, e, maxRetry);
    } else if !w.write.NoWrite? {
      var t, v := w.write.task, Apply(w, e, maxRetry);
      JobTasksUntouched(w, e, maxRetry, t);
      ChainGrows(w, e, maxRetry);
      SameJobs(w, e, maxRetry);
      hide Core, Enabled, Apply, DefaultsCover;
      if w.write.WriteTree? {
        DefaultsStay(w.db, v.db, t, w.write.subAccounts);
      } else if w.write.WriteBuilt? {
        DefaultsStay(w.db, v.db, t, w.built[w.write.outpoint]);
      }
    } else {
      SameJobs(w, e, maxRetry);
      hide Core, Enabled, Apply;
    }
  }

  lemma WriteJobStays(w: World, e: Event, maxRetry: nat)
    requires WriteOk(w) && Enabled(w, e) && OfWriting(e)
    ensures WriteOk(Apply(w, e, maxRetry))
  {
    hide SameRoot, NothingInProgress, LiveCellKnown, UpdateLeaves;
  }

  predicate OfRollback(e: Event) {
    e.RollbackReadEvent? || e.RollbackWriteEvent? || e.RollbackFinishEvent? || e.RollbackAbort?
  }

  predicate OfConfirm(e: Event) {
    e.ConfirmReadEvent? || e.ConfirmWriteEvent? || e.ConfirmFinishEvent? || e.ConfirmAbort?
  }

  lemma SameJobs(w: World, e: Event, maxRetry: nat)
    requires Enabled(w, e)
    ensures !OfWriting(e) ==> Apply(w, e, maxRetry).write == w.write
    ensures !OfRollback(e) ==> Apply(w, e, maxRetry).rollback == w.rollback
    ensures !OfConfirm(e) ==> Apply(w, e, maxRetry).confirm == w.confirm
  {
    hide UpdateToChainTask, CreateChainTask, NewRecord, Distribute, MarkRollback, MarkRejected, CloseTask, CloseRecords;
    hide MarkWriting, SetOutpoint, MarkPending, MarkRetry, MarkWriteComplete, SameRoot, SyncCheck, NothingInProgress;
    hide LiveCellKnown, LiveCellToConfirm, SelfTask, UpdateLeaves, WriteBack, CommitAllowed;
  }

  lemma RollbackKept(w: World, v: World)
    requires RollbackOk(w) && !w.rollback.NoRollback? && Untouched(w.db, v.db, w.rollback.task)
             && v.rollback == w.rollback
    ensures RollbackOk(v)
  {
  }

  lemma RollbackJobStays(w: World, e: Event, maxRetry: nat)
    requires RollbackOk(w) && Enabled(w, e) && OfRollback(e)
    ensures RollbackOk(Apply(w, e, maxRetry))
  {
    hide CloseTask, MarkRetry, WriteBack;
  }

  lemma RollbackStays(w: World, e: Event, maxRetry: nat)
    requires Core(w) && Enabled(w, e)
    ensures RollbackOk(Apply(w, e, maxRetry))
  {
    assert RollbackOk(w);
    if OfRollback(e) {
      hide Core, RollbackOk, Enabled, Apply;
      RollbackJobStays(w, e, maxRetry);
    } else {
      SameJobs(w, e, maxRetry);
      if !w.rollback.NoRollback? {
        JobTasksUntouched(w, e, maxRetry, w.rollback.task);
        hide Core, Enabled, Apply, RollbackOk;
        RollbackKept(w, Apply(w, e, maxRetry));
      } else {
        hide Core, Enabled, Apply;
      }
    }
  }

  /** Rows of t_smt_info only move to later commits. */
  ghost predicate InfoGrows(w: World, v: World) {
    w.commits <= v.commits && forall a | a in w.info :: a in v.info && w.info[a] <= v.info[a] < |v.commits|
  }

  lemma InfoStays(w: World, e: Event, maxRetry: nat)
    requires ChainOk(w) && Enabled(w, e)
    ensures InfoGrows(w, Apply(w, e, maxRetry))
  {
    ChainGrows(w, e, maxRetry);
    if e.SyncEvent? {
      hide Touches;
    } else {
      hide Enabled, Apply;
    }
  }

  lemma SyncedRowsKept(w: World, v: World, t: TaskId)
    requires SyncedRows(w, t) && Untouched(w.db, v.db, t) && ChainOk(w) && ChainOk(v) && InfoGrows(w, v)
    ensures SyncedRows(v, t)
  {
    forall i | HasRow(v.db, t, i)
      ensures var a := v.db.records[i].accountId;
              a in v.info && v.info[a] < |v.commits| && v.commits[v.info[a]].blockNumber >= v.db.tasks[t].blockNumber
    {
      assert HasRow(w.db, t, i);
      LaterBlock(w, v, w.db.records[i].accountId);
      hide ChainOk;
    }
    hide ChainOk, InfoGrows;
  }

  lemma ConfirmKept(w: World, v: World)
    requires ConfirmOk(w) && !w.confirm.NoConfirm? && Untouched(w.db, v.db, w.confirm.task) && v.confirm == w.confirm
    requires ChainOk(w) && ChainOk(v) && InfoGrows(w, v)
    ensures ConfirmOk(v)
  {
    var t := w.confirm.task;
    SyncedRowsKept(w, v, t);
    hide SyncedRows, ChainOk;
    if w.confirm.ConfirmChecked? {
      forall a | a in v.confirm.values ensures SyncedRow(v, t, a, v.confirm.values[a]) {
        assert SyncedRow(w, t, a, w.confirm.values[a]);
        hide Untouched;
      }
      hide SyncedRow, InfoGrows;
    }
  }

  lemma LaterBlock(w: World, v: World, a: string)
    requires ChainOk(w) && ChainOk(v) && InfoGrows(w, v) && a in w.info
    ensures w.info[a] < |w.commits| && v.info[a] < |v.commits|
    ensures v.commits[v.info[a]].blockNumber >= w.commits[w.info[a]].blockNumber
  {
    assert w.commits[w.info[a]] == v.commits[w.info[a]];
  }

  lemma ConfirmJobStays(w: World, e: Event, maxRetry: nat)
    requires ConfirmOk(w) && ChainOk(w) && Enabled(w, e) && OfConfirm(e)
    ensures ConfirmOk(Apply(w, e, maxRetry))
  {
    hide MarkWriteComplete, WriteBack, SameRoot, LiveCellToConfirm;
    if e.ConfirmReadEvent? {
      hide ConfirmOk;
      ReadIsSynced(w, e.task);
    } else if e.ConfirmWriteEvent? {
      hide ChainOk;
    } else {
      hide ChainOk, SyncedRows, SyncedRow;
    }
  }

  lemma ReadIsSynced(w: World, t: TaskId)
    requires ChainOk(w) && TaskAt(w.db, t, NeedToWrite, Committed) && SyncCheck(w, t)
    ensures ConfirmOk(w.(confirm := ConfirmChecked(t, Restrict(w.info, AccountsOf(w.db, t)))))
  {
    forall a | a in AccountsOf(w.db, t)
      ensures a in w.info && w.info[a] < |w.commits| && w.commits[w.info[a]].blockNumber >= w.db.tasks[t].blockNumber
    {
      var i :| HasRow(w.db, t, i) && w.db.records[i].accountId == a;
    }
    hide Touches;
  }

  lemma ConfirmStays(w: World, e: Event, maxRetry: nat)
    requires Core(w) && Enabled(w, e)
    ensures ConfirmOk(Apply(w, e, maxRetry))
  {
    assert ConfirmOk(w) && ChainOk(w);
    if OfConfirm(e) {
      hide Core, Enabled, Apply, ConfirmOk;
      ConfirmJobStays(w, e, maxRetry);
    } else {
      SameJobs(w, e, maxRetry);
      if !w.confirm.NoConfirm? {
        JobTasksUntouched(w, e, maxRetry, w.confirm.task);
        InfoStays(w, e, maxRetry);
        ChainStays(w, e, maxRetry);
        hide Core, Enabled, Apply, ConfirmOk;
        ConfirmKept(w, Apply(w, e, maxRetry));
      } else {
        hide Core, Enabled, Apply;
      }
    }
  }

  // ---------- every run ----------

  lemma StepKeepsCore(w: World, e: Event, maxRetry: nat)
    requires Core(w) && Enabled(w, e)
    ensures Core(Apply(w, e, maxRetry))
  {
    TablesStay(w, e, maxRetry);
    StatusesStay(w, e, maxRetry);
    ChainStays(w, e, maxRetry);
    OriginsStay(w, e, maxRetry);
    DigestsStay(w, e, maxRetry);
    PendingStays(w, e, maxRetry);
    WriteStays(w, e, maxRetry);
    RollbackStays(w, e, maxRetry);
    ConfirmStays(w, e, maxRetry);
    hide Apply, Enabled, TablesInv, Statuses, ChainOk, TaskOrigins, DigestsPresent, PendingOk, WriteOk, RollbackOk,
      ConfirmOk;
  }

  /** Whatever the loops, the chain and the crashes do, the tables, the chain and the jobs stay in order. */
  lemma {:induction false} RunKeepsCore(w: World, events: seq<Event>, maxRetry: nat)
    requires Core(w) && ValidRun(w, events, maxRetry)
    ensures Core(Run(w, events, maxRetry))
    decreases |events|
  {
    if events != [] {
      hide Core, Enabled, Apply;
      StepKeepsCore(w, events[0], maxRetry);
      RunKeepsCore(Apply(w, events[0], maxRetry), events[1..], maxRetry);
    }
  }

  lemma RollbackClosingSucceeds(w: World)
    requires Core(w) && w.rollback.RollbackWrote?
    ensures CloseTask(w.db, w.rollback.task, w.rollback.list, NeedToRollback).Some?
  {
    assert TablesInv(w.db) && RollbackOk(w) && StatusOk(w.db.tasks[w.rollback.task]);
    hide Core, TablesInv, CloseTask, Lists;
    CloseTaskKeepsTables(w.db, w.rollback.task, w.rollback.list, NeedToRollback);
  }

  lemma NonceClosingSucceeds(w: World, t: TaskId, ids: set<nat>, closed: bool)
    requires TablesInv(w.db) && Enabled(w, NonceCloseEvent(t, ids, closed))
    ensures CloseRecords(w.db, t, ids, closed).Some?
  {
    hide TablesInv, CloseRecords;
    CloseRecordsKeepsTables(w.db, t, ids, closed);
  }

  lemma CustomScriptClosingSucceeds(w: World, t: TaskId, list: set<Record>)
    requires TablesInv(w.db) && Enabled(w, CustomScriptCloseEvent(t))
    requires list == (set r | r in RowsOf(w.db, t) && r.recordType == RecordDefault)
    ensures CloseTask(w.db, t, list, NeedToWrite).Some?
  {
    hide TablesInv, CloseTask, Lists, RowsOf;
    DefaultsListAll(w.db, t);
    CloseTaskKeepsTables(w.db, t, list, NeedToWrite);
  }

  /** In every reachable state each closing goes through: it never breaks the records' unique key. */
  lemma ClosingsSucceed(events: seq<Event>, maxRetry: nat, t: TaskId, ids: set<nat>, closed: bool)
    requires ValidRun(START, events, maxRetry)
    ensures var w, r := Run(START, events, maxRetry), Run(START, events, maxRetry).rollback;
            && (r.RollbackWrote? ==> CloseTask(w.db, r.task, r.list, NeedToRollback).Some?)
            && (Enabled(w, NonceCloseEvent(t, ids, closed)) ==> CloseRecords(w.db, t, ids, closed).Some?)
            && (Enabled(w, CustomScriptCloseEvent(t)) ==>
                  var list := set r | r in RowsOf(w.db, t) && r.recordType == RecordDefault;
                  CloseTask(w.db, t, list, NeedToWrite).Some?)
  {
    var w := Run(START, events, maxRetry);
    assert Core(START);
    RunKeepsCore(START, events, maxRetry);
    assert TablesInv(w.db);
    hide *;
    if w.rollback.RollbackWrote? {
      RollbackClosingSucceeds(w);
    }
    if Enabled(w, NonceCloseEvent(t, ids, closed)) {
      NonceClosingSucceeds(w, t, ids, closed);
    }
    if Enabled(w, CustomScriptCloseEvent(t)) {
      CustomScriptClosingSucceeds(w, t, set r | r in RowsOf(w.db, t) && r.recordType == RecordDefault);
    }
  }
}
