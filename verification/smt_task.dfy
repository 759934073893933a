/** The bodies of the update, rollback and confirm loops, as compositions of the pipeline's steps. */
module SmtTasks {
  import opened Tables
  import opened TaskStore
  import opened TaskDao
  import opened SmtPipeline
  import PipelineSafety
  import opened Wrappers

  datatype SmtKv = SmtKv(key: string, value: string)

  /** A row of t_smt_info. */
  datatype SmtInfo = SmtInfo(leafDataHash: string, blockNumber: nat)

  datatype TaskError = Done | ErrDistributedLockPreemption | ErrBlockNotSync | ErrOldSubAccount | ErrSmtRootDiff
                     | ErrPrepare | ErrBuild | ErrSend

  function Keys(kvs: seq<SmtKv>): set<string> {
    set kv | kv in kvs :: kv.key
  }

  function ApplyKvs(tree: Leaves, kvs: seq<SmtKv>): Leaves
    decreases |kvs|
  {
    if kvs == [] then tree
    else ApplyKvs(tree, kvs[..|kvs| - 1])[kvs[|kvs| - 1].key := kvs[|kvs| - 1].value]
  }

  lemma WriteBackNext(tree: Leaves, commits: seq<Commit>, accounts: set<string>, values: map<string, nat>, a: string)
    ensures WriteBack(tree, commits, accounts + {a}, values)
         == WriteBack(tree, commits, accounts, values)[a := InfoLeaf(commits, values, a)]
  {
  }

  lemma {:induction false} ApplyKvsWritesBack(tree: Leaves, kvs: seq<SmtKv>, commits: seq<Commit>,
      values: map<string, nat>)
    requires forall kv | kv in kvs :: kv.value == InfoLeaf(commits, values, kv.key)
    ensures ApplyKvs(tree, kvs) == WriteBack(tree, commits, Keys(kvs), values)
    decreases |kvs|
  {
    if kvs == [] {
      assert WriteBack(tree, commits, {}, values) == tree;
    } else {
      hide InfoLeaf, WriteBack;
      var init, last := kvs[..|kvs| - 1], kvs[|kvs| - 1];
      ApplyKvsWritesBack(tree, init, commits, values);
      assert kvs == init + [last];
      assert Keys(kvs) == Keys(init) + {last.key};
      WriteBackNext(tree, commits, Keys(init), values, last.key);
    }
  }

  lemma {:induction false} ApplyKvsUpdates(tree: Leaves, kvs: seq<SmtKv>, subAccounts: seq<SubAccount>)
    requires |kvs| == |subAccounts|
    requires forall k | 0 <= k < |kvs| :: kvs[k] == SmtKv(subAccounts[k].accountId, subAccounts[k].leaf)
    ensures ApplyKvs(tree, kvs) == UpdateLeaves(tree, subAccounts)
    decreases |kvs|
  {
    if kvs != [] {
      ApplyKvsUpdates(tree, kvs[..|kvs| - 1], subAccounts[..|kvs| - 1]);
    }
  }

  // ---------- the rows of a task ----------

  ghost predicate RowIds(records: map<nat, Record>, t: TaskId, ids: seq<nat>) {
    && (forall i :: i in ids <==> i in records && Of(records[i], t))
    && (forall j, k | 0 <= j < k < |ids| :: ids[j] != ids[k])
  }

  lemma {:induction false} CountIff(accounts: seq<string>, rows: set<string>)
    ensures |set a | a in accounts && a in rows| <= |accounts|
    ensures |set a | a in accounts && a in rows| == |accounts| <==>
            (forall j, k | 0 <= j < k < |accounts| :: accounts[j] != accounts[k]) && forall a | a in accounts ::
              a in rows
    decreases |accounts|
  {
    var found := set a | a in accounts && a in rows;
    if accounts != [] {
      var init, last := accounts[..|accounts| - 1], accounts[|accounts| - 1];
      CountIff(init, rows);
      var before := set a | a in init && a in rows;
      assert accounts == init + [last];
      if last in rows && last !in init {
        assert found == before + {last};
      } else {
        assert found == before;
        if last in init {
          var j :| 0 <= j < |init| && init[j] == last;
          assert accounts[j] == accounts[|init|];
        }
      }
      assert forall j | 0 <= j < |init| :: accounts[j] == init[j];
    }
  }

  // ---------- whole jobs ----------

  /** The three steps of a rollback job in a row. */
  ghost function AfterRollback(w: World, t: TaskId, maxRetry: nat): World
    requires Enabled(w, RollbackReadEvent(t))
  {
    Apply(Apply(Apply(w, RollbackReadEvent(t), maxRetry), RollbackWriteEvent, maxRetry), RollbackFinishEvent, maxRetry)
  }

  lemma RollbackSteps(w: World, t: TaskId, maxRetry: nat)
    requires Enabled(w, RollbackReadEvent(t))
    ensures t in w.db.tasks
    ensures AfterRollback(w, t, maxRetry)
         == w.(tree := WriteBack(w.tree, w.commits, AccountsOf(w.db, t), Restrict(w.info, AccountsOf(w.db, t))),
               db := FinishRollback(w.db, t, RowsOf(w.db, t), maxRetry))
  {
    hide WriteBack, AccountsOf, RowsOf, Restrict, FinishRollback;
  }

  ghost function AfterConfirm(w: World, t: TaskId, answered: bool, maxRetry: nat): World
    requires Enabled(w, ConfirmReadEvent(t))
  {
    Apply(Apply(Apply(w, ConfirmReadEvent(t), maxRetry), ConfirmWriteEvent(answered), maxRetry), ConfirmFinishEvent,
      maxRetry)
  }

  lemma ConfirmSteps(w: World, t: TaskId, answered: bool, maxRetry: nat)
    requires Enabled(w, ConfirmReadEvent(t))
    ensures AfterConfirm(w, t, answered, maxRetry)
         == w.(tree := if answered && LiveCellToConfirm(w.db, w.commits) && SameRoot(w.tree, w.commits) then w.tree
                       else WriteBack(w.tree, w.commits, AccountsOf(w.db, t), Restrict(w.info, AccountsOf(w.db, t))),
               db := MarkWriteComplete(w.db, t))
  {
    AllSynced(w, t);
    hide WriteBack, AccountsOf, Restrict, LiveCellToConfirm, SameRoot, MarkWriteComplete, SyncCheck;
    ConfirmFromRead(Apply(w, ConfirmReadEvent(t), maxRetry), answered, maxRetry);
    hide Enabled, Apply, ApplyConfirmWrite;
    assert Apply(w, ConfirmReadEvent(t), maxRetry)
           == w.(confirm := ConfirmChecked(t, Restrict(w.info, AccountsOf(w.db, t)))) by {
      ConfirmReadStep(w, t, maxRetry);
    }
  }

  lemma ConfirmReadStep(w: World, t: TaskId, maxRetry: nat)
    requires Enabled(w, ConfirmReadEvent(t))
    ensures Apply(w, ConfirmReadEvent(t), maxRetry)
            == w.(confirm := ConfirmChecked(t, Restrict(w.info, AccountsOf(w.db, t))))
  {
  }

  lemma ConfirmFromRead(r: World, answered: bool, maxRetry: nat)
    requires r.confirm.ConfirmChecked?
    ensures Enabled(r, ConfirmWriteEvent(answered))
            && Enabled(Apply(r, ConfirmWriteEvent(answered), maxRetry), ConfirmFinishEvent)
    ensures Apply(Apply(r, ConfirmWriteEvent(answered), maxRetry), ConfirmFinishEvent, maxRetry)
         == r.(tree := if answered && LiveCellToConfirm(r.db, r.commits) && SameRoot(r.tree, r.commits) then r.tree
                       else WriteBack(r.tree, r.commits, r.confirm.values.Keys, r.confirm.values),
               db := MarkWriteComplete(r.db, r.confirm.task), confirm := NoConfirm)
  {
    hide WriteBack, LiveCellToConfirm, SameRoot, MarkWriteComplete;
  }

  lemma AllSynced(w: World, t: TaskId)
    requires SyncCheck(w, t)
    ensures AccountsOf(w.db, t) == Restrict(w.info, AccountsOf(w.db, t)).Keys
  {
  }

  ghost predicate AccountsOfRows(db: Db, t: TaskId, ids: seq<nat>, accounts: seq<string>) {
    && RowIds(db.records, t, ids) && |accounts| == |ids|
    && forall k | 0 <= k < |ids| :: ids[k] in db.records && accounts[k] == db.records[ids[k]].accountId
  }

  lemma {:induction false} SameAccounts(db: Db, t: TaskId, ids: seq<nat>, accounts: seq<string>)
    requires AccountsOfRows(db, t, ids, accounts)
    ensures (set a | a in accounts) == AccountsOf(db, t)
    ensures (forall j, k | 0 <= j < k < |accounts| :: accounts[j] != accounts[k]) <==>
            (forall i, j | HasRow(db, t, i) && HasRow(db, t, j) && db.records[i].accountId == db.records[j].accountId ::
              i == j)
  {
  }

  /** The counting check and the comparison of block numbers are the sync check. */
  lemma {:induction false} SyncIff(w: World, t: TaskId, ids: seq<nat>, accounts: seq<string>, found: set<string>)
    requires AccountsOfRows(w.db, t, ids, accounts) && t in w.db.tasks && forall a | a in w.info ::
             w.info[a] < |w.commits|
    requires found == set a | a in accounts && a in w.info
    ensures SyncCheck(w, t) <==>
            |accounts| == |found| && forall a | a in found ::
              w.commits[w.info[a]].blockNumber >= w.db.tasks[t].blockNumber
    ensures |accounts| == |found| ==> found == AccountsOf(w.db, t)
  {
    SameAccounts(w.db, t, ids, accounts);
    CountIff(accounts, w.info.Keys);
    assert found == set a | a in accounts && a in w.info.Keys;
    forall i | HasRow(w.db, t, i) ensures w.db.records[i].accountId in AccountsOf(w.db, t) {}
  }

  /** The accounts of the task's rows have the leaves of t_smt_info, or the zero leaf; the others have theirs. */
  ghost predicate InfoWritten(before: Leaves, after: Leaves, records: map<nat, Record>, t: TaskId,
      smtInfo: map<string, SmtInfo>)
  {
    && (forall i, a | i in records && records[i].taskId == Some(t) && a == records[i].accountId ::
       LeafAt(after, a) == if a in smtInfo then smtInfo[a].leafDataHash else "")
    && (forall a | (forall i | i in records && records[i].taskId == Some(t) :: records[i].accountId != a) ::
       LeafAt(after, a) == LeafAt(before, a))
  }

  lemma TreeWrittenBack(w: World, t: TaskId, smtInfo: map<string, SmtInfo>)
    requires smtInfo.Keys == w.info.Keys
    requires forall a | a in w.info :: w.info[a] < |w.commits|
               && smtInfo[a].leafDataHash == LeafOfCommit(w.commits[w.info[a]], a)
    ensures InfoWritten(w.tree,
            WriteBack(w.tree, w.commits, AccountsOf(w.db, t), Restrict(w.info, AccountsOf(w.db, t))),
              w.db.records, t, smtInfo)
  {
    hide LeafOfCommit;
  }

  /** The accounts of a transaction: for each of the task's records, what its action makes of the account. */
  function Changed(records: map<nat, Record>, ids: seq<nat>, nonceOf: nat -> nat,
      leafOf: nat -> string): seq<SubAccount>
    requires forall k | 0 <= k < |ids| :: ids[k] in records
  {
    seq(|ids|, k requires 0 <= k < |ids| => SubAccount(records[ids[k]].accountId, nonceOf(ids[k]), leafOf(ids[k])))
  }

  /** Each record's account has the leaf its action makes, if no later record is about it; the others have theirs. */
  ghost predicate LeavesSet(before: Leaves, after: Leaves, records: map<nat, Record>, ids: seq<nat>,
      leafOf: nat -> string)
    requires forall k | 0 <= k < |ids| :: ids[k] in records
  {
    && (forall k | 0 <= k < |ids|
       && (forall j | k < j < |ids| :: records[ids[j]].accountId != records[ids[k]].accountId) ::
          LeafAt(after, records[ids[k]].accountId) == leafOf(ids[k]))
    && (forall a | (forall k | 0 <= k < |ids| :: records[ids[k]].accountId != a) ::
       LeafAt(after, a) == LeafAt(before, a))
  }

  lemma {:induction false} LastOfAccount(subAccounts: seq<SubAccount>, k: nat)
    requires k < |subAccounts| && forall j | k < j < |subAccounts| ::
             subAccounts[j].accountId != subAccounts[k].accountId
    ensures LeafIn(subAccounts, subAccounts[k].accountId) == Some(subAccounts[k].leaf)
    decreases |subAccounts|
  {
    if k < |subAccounts| - 1 {
      LastOfAccount(subAccounts[..|subAccounts| - 1], k);
    }
  }

  lemma {:induction false} NotOfAccount(subAccounts: seq<SubAccount>, a: string)
    requires forall k | 0 <= k < |subAccounts| :: subAccounts[k].accountId != a
    ensures LeafIn(subAccounts, a) == None
    decreases |subAccounts|
  {
    if subAccounts != [] {
      NotOfAccount(subAccounts[..|subAccounts| - 1], a);
    }
  }

  lemma ChangedAre(records: map<nat, Record>, ids: seq<nat>, nonceOf: nat -> nat, leafOf: nat -> string)
    requires forall k | 0 <= k < |ids| :: ids[k] in records
    ensures var subAccounts := Changed(records, ids, nonceOf, leafOf);
            |subAccounts| == |ids| && forall k | 0 <= k < |ids| ::
              subAccounts[k] == SubAccount(records[ids[k]].accountId, nonceOf(ids[k]), leafOf(ids[k]))
  {
  }

  lemma ChangedSetsLeaves(tree: Leaves, records: map<nat, Record>, ids: seq<nat>, nonceOf: nat -> nat,
      leafOf: nat -> string)
    requires forall k | 0 <= k < |ids| :: ids[k] in records
    ensures LeavesSet(tree, UpdateLeaves(tree, Changed(records, ids, nonceOf, leafOf)), records, ids, leafOf)
  {
    var subAccounts := Changed(records, ids, nonceOf, leafOf);
    ChangedAre(records, ids, nonceOf, leafOf);
    hide Changed, UpdateLeaves, LeafIn, LeafAt;
    forall k | 0 <= k < |ids| && (forall j | k < j < |ids| :: records[ids[j]].accountId != records[ids[k]].accountId)
      ensures LeafAt(UpdateLeaves(tree, subAccounts), records[ids[k]].accountId) == leafOf(ids[k])
    {
      LastOfAccount(subAccounts, k);
      PipelineSafety.UpdateLeavesAt(tree, subAccounts, subAccounts[k].accountId);
    }
    forall a | (forall k | 0 <= k < |ids| :: records[ids[k]].accountId != a)
      ensures LeafAt(UpdateLeaves(tree, subAccounts), a) == LeafAt(tree, a)
    {
      NotOfAccount(subAccounts, a);
      PipelineSafety.UpdateLeavesAt(tree, subAccounts, a);
    }
  }

  /** The start of a task and its write to the tree. */
  ghost function AfterUpdate(w: World, subAccounts: seq<SubAccount>, maxRetry: nat): World
    requires Enabled(w, WriteStartEvent) && Enabled(Apply(w, WriteStartEvent, maxRetry), WriteTreeEvent(subAccounts))
  {
    Apply(Apply(w, WriteStartEvent, maxRetry), WriteTreeEvent(subAccounts), maxRetry)
  }

  lemma UpdateSteps(w: World, subAccounts: seq<SubAccount>, maxRetry: nat)
    requires w.write.WriteChecked? && Apply(w, WriteStartEvent, maxRetry).write.WriteStarted?
    requires Enabled(Apply(w, WriteStartEvent, maxRetry), WriteTreeEvent(subAccounts))
    ensures AfterUpdate(w, subAccounts, maxRetry)
         == w.(tree := UpdateLeaves(w.tree, subAccounts), db := MarkWriting(w.db, w.write.task),
           write := WriteTree(w.write.task, subAccounts))
  {
    hide UpdateLeaves, MarkWriting, SameRoot;
  }

  /** The transaction's outpoint recorded, then the task marked as sent. */
  lemma SendSteps(u: World, refOutpoint: string, outpoint: string, maxRetry: nat)
    requires u.write.WriteTree? && Enabled(u, WriteBuildEvent(refOutpoint, outpoint))
    ensures var b := Apply(u, WriteBuildEvent(refOutpoint, outpoint), maxRetry);
            && b.tree == u.tree && b.db == SetOutpoint(u.db, u.write.task, refOutpoint, outpoint)
            && b.info == u.info && b.commits == u.commits && Enabled(b, WritePendingEvent)
            && var p := Apply(b, WritePendingEvent, maxRetry);
               p.tree == u.tree && p.db == MarkPending(b.db, u.write.task) && p.info == u.info && p.commits == u.commits
  {
  }

  /** The steps of a task's detail: its start, its write to the tree and, if it is built, its outpoint and sending. */
  ghost predicate DetailEnabled(w: World, subAccounts: seq<SubAccount>, built: Option<(string, string)>, maxRetry: nat)
  {
    && Enabled(w, WriteStartEvent) && Enabled(Apply(w, WriteStartEvent, maxRetry), WriteTreeEvent(subAccounts))
    && (built.Some? ==>
          var u, e := AfterUpdate(w, subAccounts, maxRetry), WriteBuildEvent(built.value.0, built.value.1);
          Enabled(u, e) && Enabled(Apply(u, e, maxRetry), WritePendingEvent))
  }

  ghost function AfterDetail(w: World, subAccounts: seq<SubAccount>, built: Option<(string, string)>, sent: bool,
      maxRetry: nat): World
    requires DetailEnabled(w, subAccounts, built, maxRetry)
  {
    var u := AfterUpdate(w, subAccounts, maxRetry);
    if built.None? then u
    else
      var b := Apply(u, WriteBuildEvent(built.value.0, built.value.1), maxRetry);
      if sent then Apply(b, WritePendingEvent, maxRetry) else b
  }

  lemma DetailSteps(w: World, subAccounts: seq<SubAccount>, built: Option<(string, string)>, sent: bool, maxRetry: nat)
    requires w.write.WriteChecked? && Apply(w, WriteStartEvent, maxRetry).write.WriteStarted?
    requires Enabled(Apply(w, WriteStartEvent, maxRetry), WriteTreeEvent(subAccounts))
    requires built.Some? ==> built.value.1 != "" && built.value.1 !in w.built
                             && forall k | 0 <= k < |w.commits| :: w.commits[k].outpoint != built.value.1
    ensures DetailEnabled(w, subAccounts, built, maxRetry)
    ensures var t, after := w.write.task, AfterDetail(w, subAccounts, built, sent, maxRetry);
            var written := MarkWriting(w.db, t);
            && after.tree == UpdateLeaves(w.tree, subAccounts) && after.info == w.info && after.commits == w.commits
            && after.db == if built.None? then written
                           else
                             var sending := SetOutpoint(written, t, built.value.0, built.value.1);
                             if sent then MarkPending(sending, t) else sending
  {
    UpdateSteps(w, subAccounts, maxRetry);
    hide UpdateLeaves, MarkWriting, SetOutpoint, MarkPending, SameRoot, AfterUpdate, Apply;
    if built.Some? {
      SendSteps(AfterUpdate(w, subAccounts, maxRetry), built.value.0, built.value.1, maxRetry);
    }
  }

  lemma TreeWriteEnabled(w: World, ids: seq<nat>, nonceOf: nat -> nat, leafOf: nat -> string, maxRetry: nat)
    requires w.write.WriteChecked? && Apply(w, WriteStartEvent, maxRetry).write.WriteStarted?
    requires forall k | 0 <= k < |ids| ::
               ids[k] in w.db.records && HasRow(w.db, w.write.task, ids[k])
               && w.db.records[ids[k]].recordType == RecordDefault
    ensures Enabled(Apply(w, WriteStartEvent, maxRetry), WriteTreeEvent(Changed(w.db.records, ids, nonceOf, leafOf)))
  {
  }

  class SmtTask {
    const dbDao: DbDao
    const maxRetry: nat
    var tree: Leaves
    /** The other service's table t_smt_info. */
    var smtInfo: map<string, SmtInfo>

    constructor (dbDao: DbDao, maxRetry: nat)
      ensures this.dbDao == dbDao && this.maxRetry == maxRetry && tree == map[] && smtInfo == map[]
    {
      this.dbDao, this.maxRetry, tree, smtInfo := dbDao, maxRetry, map[], map[];
    }

    /** The service's state is that of the world. */
    ghost predicate Shows(w: World)
      reads this, dbDao
    {
      && tree == w.tree && dbDao.Rows() == w.db && smtInfo.Keys == w.info.Keys
      && (forall a | a in w.info :: w.info[a] < |w.commits|
            && smtInfo[a] == SmtInfo(LeafOfCommit(w.commits[w.info[a]], a), w.commits[w.info[a]].blockNumber))
    }

    method GetSmtRecordListByTaskId(t: TaskId) returns (ids: seq<nat>)
      ensures RowIds(dbDao.records, t, ids)
    {
      ids := [];
      var todo := dbDao.records.Keys;
      while todo != {}
        invariant todo <= dbDao.records.Keys
        invariant forall i :: i in ids <==> i in dbDao.records && i !in todo && Of(dbDao.records[i], t)
        invariant forall j, k | 0 <= j < k < |ids| :: ids[j] != ids[k]
      {
        var i :| i in todo;
        todo := todo - {i};
        if Of(dbDao.records[i], t) {
          ids := ids + [i];
        }
      }
    }

    method UpdateSmt(smtKv: seq<SmtKv>)
      modifies this`tree
      ensures tree == ApplyKvs(old(tree), smtKv)
    {
      for i := 0 to |smtKv|
        invariant tree == ApplyKvs(old(tree), smtKv[..i])
      {
        assert smtKv[..i + 1][..i] == smtKv[..i];
        tree := tree[smtKv[i].key := smtKv[i].value];
      }
      assert smtKv[..|smtKv|] == smtKv;
    }

    /** The leaves to write back: the row of t_smt_info if there is one, the zero leaf otherwise. */
    method RollbackKvs(subAccountIds: seq<string>, subAccountValueMap: map<string, string>) returns (smtKv: seq<SmtKv>)
      ensures |smtKv| == |subAccountIds|
      ensures forall k | 0 <= k < |smtKv| ::
              smtKv[k] == SmtKv(subAccountIds[k], LeafAt(subAccountValueMap, subAccountIds[k]))
    {
      smtKv := [];
      for i := 0 to |subAccountIds|
        invariant |smtKv| == i
        invariant forall k | 0 <= k < i ::
                  smtKv[k] == SmtKv(subAccountIds[k], LeafAt(subAccountValueMap, subAccountIds[k]))
      {
        var v, value := subAccountIds[i], "";
        if v in subAccountValueMap {
          value := subAccountValueMap[v];
        }
        smtKv := smtKv + [SmtKv(v, value)];
      }
    }

    /** The rows of t_smt_info for the accounts, as a map from account to leaf. */
    method GetSmtValues(subAccountIds: seq<string>) returns (values: map<string, string>)
      ensures values == map a | a in smtInfo && a in subAccountIds :: smtInfo[a].leafDataHash
    {
      values := map[];
      for i := 0 to |subAccountIds|
        invariant values == map a | a in smtInfo && a in subAccountIds[..i] :: smtInfo[a].leafDataHash
      {
        if subAccountIds[i] in smtInfo {
          values := values[subAccountIds[i] := smtInfo[subAccountIds[i]].leafDataHash];
        }
      }
      assert subAccountIds[..|subAccountIds|] == subAccountIds;
    }

    method RecordsAt(ids: seq<nat>) returns (records: seq<Record>, subAccountIds: seq<string>)
      requires forall k | 0 <= k < |ids| :: ids[k] in dbDao.records
      ensures |records| == |subAccountIds| == |ids|
      ensures forall k | 0 <= k < |ids| ::
              records[k] == dbDao.records[ids[k]] && subAccountIds[k] == records[k].accountId
    {
      records, subAccountIds := [], [];
      for i := 0 to |ids|
        invariant |records| == |subAccountIds| == i
        invariant forall k | 0 <= k < i ::
                  records[k] == dbDao.records[ids[k]] && subAccountIds[k] == records[k].accountId
      {
        records := records + [dbDao.records[ids[i]]];
        subAccountIds := subAccountIds + [dbDao.records[ids[i]].accountId];
      }
    }

    /** The last statement of a rollback: retry or close. */
    method RetryOrClose(t: TaskId, records: seq<Record>)
      requires t in dbDao.tasks
      modifies dbDao
      ensures dbDao.Rows() == FinishRollback(old(dbDao.Rows()), t, SetOf(records), maxRetry)
    {
      hide CloseTask, MarkRetry;
      var task := dbDao.tasks[t];
      if task.taskType == TaskDelegate && task.retry < maxRetry {
        dbDao.UpdateSmtRecordToNeedToWrite(t, task.retry + 1);
      } else {
        var ok := dbDao.UpdateSmtRecordToRollbackComplete(t, records);
      }
    }

    /** A rollback undisturbed between its read and its end is the three steps of the rollback job. */
    method Rollback(t: TaskId, lockFree: bool, ghost w: World) returns (err: TaskError)
      requires Shows(w) && Enabled(w, RollbackReadEvent(t))
      modifies this`tree, dbDao
      ensures err == if lockFree then Done else ErrDistributedLockPreemption
      ensures if err != Done then Shows(w)
              else Shows(AfterRollback(w, t, maxRetry))
      ensures err == Done ==> InfoWritten(old(tree), tree, old(dbDao.records), t, smtInfo)
    {
      TreeWrittenBack(w, t, smtInfo);
      hide WriteBack, AccountsOf, RowsOf, Restrict, FinishRollback, Enabled, Apply, ApplyKvs, LeafOfCommit;
      RollbackSteps(w, t, maxRetry);
      hide AfterRollback;
      var records, smtKv := ReadForRollback(t, w);
      if !lockFree {
        return ErrDistributedLockPreemption;
      }
      UpdateSmt(smtKv);
      RetryOrClose(t, records);
      return Done;
    }

    /** The records of the task, and the leaves to write back, from what t_smt_info gives for their accounts. */
    method ReadForRollback(t: TaskId, ghost w: World) returns (records: seq<Record>, smtKv: seq<SmtKv>)
      requires Shows(w)
      ensures SetOf(records) == RowsOf(w.db, t)
      ensures ApplyKvs(w.tree, smtKv)
              == WriteBack(w.tree, w.commits, AccountsOf(w.db, t), Restrict(w.info, AccountsOf(w.db, t)))
    {
      hide WriteBack, AccountsOf, RowsOf, Restrict, ApplyKvs, LeafOfCommit;
      var ids := GetSmtRecordListByTaskId(t);
      assert forall k | 0 <= k < |ids| :: ids[k] in ids && ids[k] in dbDao.records;
      hide RowIds;
      var subAccountIds: seq<string>;
      records, subAccountIds := RecordsAt(ids);
      var subAccountValueMap := GetSmtValues(subAccountIds);
      smtKv := RollbackKvs(subAccountIds, subAccountValueMap);
      RollbackReads(w, t, ids, records, subAccountIds, smtKv);
    }

    /** No two records for an account, a row of t_smt_info for each, none older than the task's block. */
    method BlockIsSync(t: TaskId, subAccountIds: seq<string>, found: set<string>) returns (sync: bool)
      requires t in dbDao.tasks && found <= smtInfo.Keys
      ensures sync <==> |subAccountIds| == |found| && forall a | a in found ::
              smtInfo[a].blockNumber >= dbDao.tasks[t].blockNumber
    {
      if |subAccountIds| != |found| {
        return false;
      }
      var todo := found;
      while todo != {}
        invariant todo <= found && forall a | a in found - todo :: smtInfo[a].blockNumber >= dbDao.tasks[t].blockNumber
      {
        var a :| a in todo;
        todo := todo - {a};
        if smtInfo[a].blockNumber < dbDao.tasks[t].blockNumber {
          return false;
        }
      }
      return true;
    }

    method ConfirmKvs(found: set<string>) returns (smtKv: seq<SmtKv>)
      requires found <= smtInfo.Keys
      ensures Keys(smtKv) == found && forall kv | kv in smtKv ::
              kv.key in smtInfo && kv.value == smtInfo[kv.key].leafDataHash
    {
      smtKv := [];
      var todo := found;
      while todo != {}
        invariant todo <= found && Keys(smtKv) == found - todo
        invariant forall kv | kv in smtKv :: kv.key in smtInfo && kv.value == smtInfo[kv.key].leafDataHash
      {
        var a :| a in todo;
        var kv := SmtKv(a, smtInfo[a].leafDataHash);
        assert Keys(smtKv + [kv]) == Keys(smtKv) + {a};
        smtKv := smtKv + [kv];
        todo := todo - {a};
      }
    }

    /**
      A confirmation undisturbed between its read and its end is the three steps of the confirm job. `liveCell` is
      whether the query found the cell on the chain, from a transaction to be confirmed, and `rootsEqual` the
      comparison with its root; a query that fails is not told from one that finds nothing.
     */
    method ConfirmOtherTx(t: TaskId, lockFree: bool, liveCell: bool, rootsEqual: bool, ghost w: World)
        returns (err: TaskError)
      requires Shows(w) && w.confirm.NoConfirm? && TaskAt(w.db, t, NeedToWrite, Committed)
      requires forall i | HasRow(w.db, t, i) :: w.db.records[i].recordType == RecordChain
      requires (liveCell ==> LiveCellToConfirm(w.db, w.commits)) && rootsEqual == SameRoot(w.tree, w.commits)
      modifies this`tree, dbDao
      ensures err == if !SyncCheck(w, t) then ErrBlockNotSync else if !lockFree then ErrDistributedLockPreemption
              else Done
      ensures if err == Done then Shows(AfterConfirm(w, t, liveCell, maxRetry)) else Shows(w)
      ensures err == Done && !(liveCell && rootsEqual) ==>
                InfoWritten(old(tree), tree, old(dbDao.records), t, smtInfo)
      ensures err != Done || (liveCell && rootsEqual) ==> tree == old(tree)
    {
      TreeWrittenBack(w, t, smtInfo);
      hide LiveCellToConfirm, SameRoot, SyncCheck, WriteBack, AccountsOf, Restrict, LeafOfCommit;
      var sync, found := CheckSync(t, w);
      if !sync {
        return ErrBlockNotSync;
      }
      if !lockFree {
        return ErrDistributedLockPreemption;
      }
      ConfirmSteps(w, t, liveCell, maxRetry);
      hide AfterConfirm, Enabled, Apply;
      var isUpdate := true;
      if liveCell && rootsEqual {
        isUpdate := false;
      }
      WriteConfirmed(t, found, isUpdate, w);
      return Done;
    }

    /** The task's accounts, and whether t_smt_info has come far enough for them. */
    method CheckSync(t: TaskId, ghost w: World) returns (sync: bool, found: set<string>)
      requires Shows(w) && t in w.db.tasks && forall i | HasRow(w.db, t, i) :: w.db.records[i].recordType == RecordChain
      ensures sync <==> SyncCheck(w, t)
      ensures sync ==> found == AccountsOf(w.db, t) && found <= smtInfo.Keys
    {
      hide SyncCheck, AccountsOf, LeafOfCommit;
      var ids := GetSmtRecordListByTaskId(t);
      assert forall k | 0 <= k < |ids| :: ids[k] in ids && ids[k] in dbDao.records;
      var records, subAccountIds := RecordsAt(ids);
      found := set a | a in subAccountIds && a in smtInfo;
      SyncIff(w, t, ids, subAccountIds, set a | a in subAccountIds && a in w.info);
      hide RowIds;
      sync := BlockIsSync(t, subAccountIds, found);
    }

    /** The update of the tree, if the roots differ, and of the task. */
    method WriteConfirmed(t: TaskId, found: set<string>, isUpdate: bool, ghost w: World)
      requires Shows(w) && SyncCheck(w, t) && found == AccountsOf(w.db, t) && found <= smtInfo.Keys
      modifies this`tree, dbDao
      ensures dbDao.Rows() == MarkWriteComplete(w.db, t)
      ensures tree == if isUpdate
              then WriteBack(w.tree, w.commits, AccountsOf(w.db, t), Restrict(w.info, AccountsOf(w.db, t))) else w.tree
    {
      hide SyncCheck, WriteBack, AccountsOf, Restrict, LeafOfCommit;
      var smtKv: seq<SmtKv> := [];
      if isUpdate {
        smtKv := ConfirmKvs(found);
      }
      ConfirmTree(w, t, smtKv, isUpdate);
      if |smtKv| > 0 {
        UpdateSmt(smtKv);
      }
      dbDao.UpdateSmtStatusToWriteComplete(t);
    }

    /** The waiting records of the tasks, task by task, and their accounts. */
    method GetTaskMap(taskIdList: seq<TaskId>) returns (taskMap: map<TaskId, seq<nat>>, subAccountIds: seq<string>)
      ensures forall t, i :: (t in taskMap && i in taskMap[t]) <==>
                t in taskIdList && HasRow(dbDao.Rows(), t, i) && dbDao.records[i].recordType == RecordDefault
      ensures forall t | t in taskMap :: taskMap[t] != []
      ensures forall a :: a in subAccountIds <==> exists t, i ::
              t in taskMap && i in taskMap[t] && i in dbDao.records && dbDao.records[i].accountId == a
    {
      taskMap, subAccountIds := map[], [];
      var todo := dbDao.records.Keys;
      while todo != {}
        invariant todo <= dbDao.records.Keys
        invariant forall t, i :: (t in taskMap && i in taskMap[t]) <==>
                    i !in todo && t in taskIdList && HasRow(dbDao.Rows(), t, i)
                      && dbDao.records[i].recordType == RecordDefault
        invariant forall t | t in taskMap :: taskMap[t] != []
        invariant forall a :: a in subAccountIds <==>
                    exists t, i ::
                           t in taskMap && i in taskMap[t] && i in dbDao.records && dbDao.records[i].accountId == a
      {
        var i :| i in todo;
        todo := todo - {i};
        var record := dbDao.records[i];
        if record.recordType == RecordDefault && record.taskId.Some? && record.taskId.value in taskIdList {
          var t := record.taskId.value;
          ghost var before := taskMap;
          taskMap := taskMap[t := (if t in taskMap then taskMap[t] else []) + [i]];
          subAccountIds := subAccountIds + [record.accountId];
          assert forall u, j ::
                 (u in taskMap && j in taskMap[u]) <==> (u in before && j in before[u]) || (u == t && j == i);
        }
      }
    }

    /** updateSmt: the task is marked as being written, then its accounts' new leaves are set. */
    method UpdateTaskSmt(t: TaskId, ids: seq<nat>, ghost nonceOf: nat -> nat, leafOf: nat -> string)
      requires forall k | 0 <= k < |ids| :: ids[k] in dbDao.records
      modifies this`tree, dbDao
      ensures dbDao.Rows() == MarkWriting(old(dbDao.Rows()), t)
      ensures tree == UpdateLeaves(old(tree), Changed(old(dbDao.records), ids, nonceOf, leafOf))
      ensures LeavesSet(old(tree), tree, old(dbDao.records), ids, leafOf)
    {
      dbDao.UpdateSmtStatus(t);
      ghost var subAccounts := Changed(dbDao.records, ids, nonceOf, leafOf);
      var smtKv: seq<SmtKv> := [];
      for i := 0 to |ids|
        invariant |smtKv| == i && dbDao.Rows() == MarkWriting(old(dbDao.Rows()), t) && tree == old(tree)
        invariant forall k | 0 <= k < i :: smtKv[k] == SmtKv(subAccounts[k].accountId, subAccounts[k].leaf)
      {
        smtKv := smtKv + [SmtKv(dbDao.records[ids[i]].accountId, leafOf(ids[i]))];
      }
      ApplyKvsUpdates(tree, smtKv, subAccounts);
      ChangedSetsLeaves(tree, old(dbDao.records), ids, nonceOf, leafOf);
      if |smtKv| > 0 {
        UpdateSmt(smtKv);
      }
    }

    /**
      doTaskDetail for a checked task: `oldRead` is whether the accounts' history is found, `rootsEqual` the comparison
      with the cell seen by the check, `nonceOf` and `leafOf` what a record's action makes of its account, `prepared`
      whether the signatures and prices are found before the tree is written, `built` the outpoints of the transaction
      if building it gets that far, `sent` whether the node takes it.
     */
    method DoTaskDetail(t: TaskId, ids: seq<nat>, ghost nonceOf: nat -> nat, leafOf: nat -> string, lockFree: bool,
        oldRead: bool, rootsEqual: bool, prepared: bool, built: Option<(string, string)>, sent: bool, ghost w: World)
      returns (err: TaskError)
      requires Shows(w) && w.write.WriteChecked? && t == w.write.task
      requires rootsEqual == Apply(w, WriteStartEvent, maxRetry).write.WriteStarted?
      requires forall k | 0 <= k < |ids| ::
               ids[k] in w.db.records && HasRow(w.db, t, ids[k]) && w.db.records[ids[k]].recordType == RecordDefault
      requires built.Some? ==> built.value.1 != "" && built.value.1 !in w.built
                               && forall k | 0 <= k < |w.commits| :: w.commits[k].outpoint != built.value.1
      modifies this`tree, dbDao
      ensures err == if !lockFree then ErrDistributedLockPreemption else if !oldRead then ErrOldSubAccount
                     else if !rootsEqual then ErrSmtRootDiff else if !prepared then ErrPrepare
                     else if built.None? then ErrBuild else if !sent then ErrSend else Done
      ensures err in {ErrDistributedLockPreemption, ErrOldSubAccount, ErrSmtRootDiff, ErrPrepare} ==> Shows(w)
      ensures err in {ErrBuild, ErrSend, Done} ==> LeavesSet(w.tree, tree, w.db.records, ids, leafOf)
      ensures err in {ErrBuild, ErrSend, Done} ==>
                var subAccounts := Changed(w.db.records, ids, nonceOf, leafOf);
                DetailEnabled(w, subAccounts, built, maxRetry)
                && Shows(AfterDetail(w, subAccounts, built, sent, maxRetry))
    {
      hide LeafOfCommit, SameRoot, MarkWriting, SetOutpoint, MarkPending, UpdateLeaves, LeavesSet, Changed;
      if !lockFree {
        return ErrDistributedLockPreemption;
      }
      if !oldRead {
        return ErrOldSubAccount;
      }
      if !rootsEqual {
        return ErrSmtRootDiff;
      }
      if !prepared {
        return ErrPrepare;
      }
      TreeWriteEnabled(w, ids, nonceOf, leafOf, maxRetry);
      DetailSteps(w, Changed(w.db.records, ids, nonceOf, leafOf), built, sent, maxRetry);
      hide AfterDetail, DetailEnabled, Enabled, Apply;
      UpdateTaskSmt(t, ids, nonceOf, leafOf);
      if built.None? {
        return ErrBuild;
      }
      dbDao.UpdateSmtRecordOutpoint(t, built.value.0, built.value.1);
      if !sent {
        return ErrSend;
      }
      dbDao.UpdateTaskTxStatusToPending(t);
      return Done;
    }

    /**
      The rows of one task that its accounts have overtaken: a create of an existing account, or a nonce already used.
     */
    method DiffNonces(ids: seq<nat>, creates: set<nat>, accounts: map<string, nat>) returns (diffNonceList: seq<nat>)
      requires forall k | 0 <= k < |ids| :: ids[k] in dbDao.records
      ensures forall i :: i in diffNonceList <==>
              i in ids && i in dbDao.records && Overtaken(dbDao.records[i], i in creates, accounts)
      ensures |diffNonceList| <= |ids|
      ensures |diffNonceList| == |ids| <==> forall k | 0 <= k < |ids| ::
              Overtaken(dbDao.records[ids[k]], ids[k] in creates, accounts)
    {
      diffNonceList := [];
      for k := 0 to |ids|
        invariant forall i :: i in diffNonceList <==>
                  i in ids[..k] && i in dbDao.records && Overtaken(dbDao.records[i], i in creates, accounts)
        invariant |diffNonceList| <= k
        invariant |diffNonceList| == k <==> forall j | 0 <= j < k ::
                  Overtaken(dbDao.records[ids[j]], ids[j] in creates, accounts)
      {
        var v := dbDao.records[ids[k]];
        var ok := v.accountId in accounts;
        if ids[k] in creates && ok {
          diffNonceList := diffNonceList + [ids[k]];
        } else if ok && accounts[v.accountId] >= v.nonce {
          diffNonceList := diffNonceList + [ids[k]];
        }
      }
      assert ids[..|ids|] == ids;
    }

    /** doCheckNonceNew for one task of the map: its overtaken rows are closed, and the task if that is all of them. */
    method CheckNonce(t: TaskId, ids: seq<nat>, creates: set<nat>, accounts: map<string, nat>, ghost w: World)
        returns (hasDiffNonce: bool)
      requires Shows(w) && ids != [] && w.write.NoWrite? && DelegateAt(w.db, t, NeedToWrite, UnSend)
      requires forall k | 0 <= k < |ids| ::
               ids[k] in w.db.records && HasRow(w.db, t, ids[k]) && w.db.records[ids[k]].recordType == RecordDefault
      modifies dbDao
      ensures TablesInv(w.db) ==> NonceChecked(w.db.records, dbDao.records, ids, creates, accounts)
      ensures var diff := OvertakenIds(w.db.records, ids, creates, accounts);
              var e := NonceCloseEvent(t, diff, diff == SetOf(ids));
              hasDiffNonce == (diff != {}) && Enabled(w, e) && Shows(Apply(w, e, maxRetry))
    {
      hide CloseRecords, LeafOfCommit, OvertakenIds, NonceChecked, TablesInv, HasRow, Enabled, Apply;
      ghost var diff := OvertakenIds(w.db.records, ids, creates, accounts);
      var diffNonceList := DiffNonces(ids, creates, accounts);
      hasDiffNonce := |diffNonceList| > 0;
      DiffListed(w.db.records, ids, diffNonceList, creates, accounts);
      if TablesInv(w.db) {
        OvertakenClosed(w.db, t, ids, creates, accounts, diff == SetOf(ids));
      }
      NonceCloseEnabled(w, t, ids, diff, maxRetry);
      var ok := dbDao.UpdateRecordsToClosed(t, diffNonceList, |diffNonceList| == |ids|);
    }
  }

  function OvertakenIds(records: map<nat, Record>, ids: seq<nat>, creates: set<nat>,
      accounts: map<string, nat>): set<nat>
  {
    set i | i in ids && i in records && Overtaken(records[i], i in creates, accounts)
  }

  lemma DiffListed(records: map<nat, Record>, ids: seq<nat>, list: seq<nat>, creates: set<nat>,
      accounts: map<string, nat>)
    requires forall k | 0 <= k < |ids| :: ids[k] in records
    requires forall i :: i in list <==> i in ids && i in records && Overtaken(records[i], i in creates, accounts)
    requires |list| == |ids| <==> forall k | 0 <= k < |ids| :: Overtaken(records[ids[k]], ids[k] in creates, accounts)
    ensures var diff := OvertakenIds(records, ids, creates, accounts);
            && diff == SetOf(list) && (diff == SetOf(ids) <==> |list| == |ids|) && (diff != {} <==> |list| > 0)
            && (forall i | i in diff :: i in ids && i in records) && forall k | 0 <= k < |list| :: list[k] in diff
  {
    hide Overtaken;
    var diff := OvertakenIds(records, ids, creates, accounts);
    assert forall k | 0 <= k < |ids| :: ids[k] in SetOf(ids);
    assert |list| > 0 ==> list[0] in diff;
    assert forall k | 0 <= k < |list| :: list[k] in list;
  }

  lemma NonceCloseEnabled(w: World, t: TaskId, ids: seq<nat>, diff: set<nat>, maxRetry: nat)
    requires w.write.NoWrite? && DelegateAt(w.db, t, NeedToWrite, UnSend) && forall i | i in diff :: i in ids
    requires forall k | 0 <= k < |ids| ::
               ids[k] in w.db.records && HasRow(w.db, t, ids[k]) && w.db.records[ids[k]].recordType == RecordDefault
    ensures Enabled(w, NonceCloseEvent(t, diff, diff == SetOf(ids)))
    ensures Apply(w, NonceCloseEvent(t, diff, diff == SetOf(ids)), maxRetry)
            == w.(db := OrKeep(CloseRecords(w.db, t, diff, diff == SetOf(ids)), w.db))
  {
    hide CloseRecords;
  }

  /**
    The rows closed are those of accounts that exist already or have used the nonce; a row one past its account waits.
   */
  ghost predicate NonceChecked(before: map<nat, Record>, after: map<nat, Record>, ids: seq<nat>, creates: set<nat>,
      accounts: map<string, nat>)
    requires forall k | 0 <= k < |ids| :: ids[k] in before
  {
    forall k | 0 <= k < |ids| ::
      var v := before[ids[k]];
      && ids[k] in after
      && after[ids[k]].recordType ==
           if v.accountId in accounts && (ids[k] in creates || v.nonce <= accounts[v.accountId]) then RecordClosed
           else RecordDefault
  }

  lemma OvertakenClosed(db: Db, t: TaskId, ids: seq<nat>, creates: set<nat>, accounts: map<string, nat>, closed: bool)
    requires TablesInv(db) && t in db.tasks && db.tasks[t].taskType != TaskChain
    requires forall k | 0 <= k < |ids| ::
             ids[k] in db.records && HasRow(db, t, ids[k]) && db.records[ids[k]].recordType == RecordDefault
    ensures var r := CloseRecords(db, t, OvertakenIds(db.records, ids, creates, accounts), closed);
            r.Some? && NonceChecked(db.records, r.value.records, ids, creates, accounts)
  {
    var diff := OvertakenIds(db.records, ids, creates, accounts);
    CloseRecordsKeepsTables(db, t, diff, closed);
    hide TablesInv, UniqueKeys;
    assert forall k | 0 <= k < |ids| :: ids[k] in ids;
  }

  predicate Overtaken(v: Record, create: bool, accounts: map<string, nat>) {
    v.accountId in accounts && (create || accounts[v.accountId] >= v.nonce)
  }

  /** The batch takes the first task of each parent account. */
  method GroupByParentAccountIdNew(list: seq<(string, TaskId)>) returns (mapTaskList: map<string, seq<TaskId>>)
    ensures forall p :: p in mapTaskList <==> exists k :: 0 <= k < |list| && list[k].0 == p
    ensures forall p | p in mapTaskList :: exists k ::
            0 <= k < |list| && list[k].0 == p && mapTaskList[p] == [list[k].1]
                                             && forall j | 0 <= j < k :: list[j].0 != p
  {
    var maxTaskCount := 1;
    mapTaskList := map[];
    for i := 0 to |list|
      invariant forall p :: p in mapTaskList <==> exists k :: 0 <= k < i && list[k].0 == p
      invariant forall p | p in mapTaskList :: exists k :: 0 <= k < i && list[k].0 == p && mapTaskList[p] == [list[k].1]
                                                 && forall j | 0 <= j < k :: list[j].0 != p
    {
      var v := list[i];
      var tasks := if v.0 in mapTaskList then mapTaskList[v.0] else [];
      if |tasks| >= maxTaskCount {
        continue;
      }
      mapTaskList := mapTaskList[v.0 := tasks + [v.1]];
    }
  }

  lemma ConfirmTree(w: World, t: TaskId, smtKv: seq<SmtKv>, isUpdate: bool)
    requires SyncCheck(w, t) && forall a | a in w.info :: w.info[a] < |w.commits|
    requires isUpdate ==> Keys(smtKv) == AccountsOf(w.db, t)
    requires !isUpdate ==> smtKv == []
    requires forall kv | kv in smtKv :: kv.key in w.info && kv.value == LeafOfCommit(w.commits[w.info[kv.key]], kv.key)
    ensures ApplyKvs(w.tree, smtKv)
         == if isUpdate then WriteBack(w.tree, w.commits, AccountsOf(w.db, t), Restrict(w.info, AccountsOf(w.db, t)))
           else w.tree
  {
    if isUpdate {
      forall kv | kv in smtKv ensures kv.key in AccountsOf(w.db, t) {
        assert kv.key in Keys(smtKv);
      }
      ApplyKvsWritesBack(w.tree, smtKv, w.commits, Restrict(w.info, AccountsOf(w.db, t)));
    }
  }

  /** What the loops of a rollback read and build, against the rollback job's own reading. */
  lemma {:induction false} RollbackReads(w: World, t: TaskId, ids: seq<nat>, records: seq<Record>,
      subAccountIds: seq<string>, smtKv: seq<SmtKv>)
    requires RowIds(w.db.records, t, ids) && forall a | a in w.info :: w.info[a] < |w.commits|
    requires |records| == |subAccountIds| == |smtKv| == |ids|
    requires forall k | 0 <= k < |ids| ::
             ids[k] in w.db.records && records[k] == w.db.records[ids[k]] && subAccountIds[k] == records[k].accountId
    requires forall k | 0 <= k < |ids| ::
               smtKv[k] == SmtKv(subAccountIds[k], if subAccountIds[k] in w.info
                 then LeafOfCommit(w.commits[w.info[subAccountIds[k]]], subAccountIds[k]) else "")
    ensures SetOf(records) == RowsOf(w.db, t)
    ensures ApplyKvs(w.tree, smtKv)
            == WriteBack(w.tree, w.commits, AccountsOf(w.db, t), Restrict(w.info, AccountsOf(w.db, t)))
  {
    SameAccounts(w.db, t, ids, subAccountIds);
    KeysAre(smtKv, subAccountIds);
    SameRecords(w.db, t, ids, records);
    hide RowIds, AccountsOf, WriteBack, LeafOfCommit, RowsOf;
    ApplyKvsWritesBack(w.tree, smtKv, w.commits, Restrict(w.info, AccountsOf(w.db, t)));
  }

  lemma KeysAre(kvs: seq<SmtKv>, accounts: seq<string>)
    requires |kvs| == |accounts| && forall k | 0 <= k < |kvs| :: kvs[k].key == accounts[k]
    ensures Keys(kvs) == set a | a in accounts
    ensures forall kv | kv in kvs :: kv.key in accounts
  {
  }

  lemma SameRecords(db: Db, t: TaskId, ids: seq<nat>, records: seq<Record>)
    requires RowIds(db.records, t, ids) && |records| == |ids|
    requires forall k | 0 <= k < |ids| :: ids[k] in db.records && records[k] == db.records[ids[k]]
    ensures SetOf(records) == RowsOf(db, t)
  {
  }
}
