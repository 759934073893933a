/**
  A rollback that reads t_smt_info before taking the lock can write an old leaf over a confirmed one: a reachable
  state from which it does, after which nothing is in progress and the roots differ for good.
 */
module StaleRollback {
  import opened Tables
  import opened TaskStore
  import opened SmtPipeline
  import opened PipelineSafety
  import opened Reachability
  import opened Wrappers

  // ---------- the run ----------

  const OWN := TaskId("", 7)
  const FOREIGN := Commit("", "cell", 1, 1, [SubAccount("alice", 1, "leaf")])
  const DIGEST := TaskId("cell", 1)

  function OwnTask(smt: SmtStatus): Task {
    Task(TaskDelegate, "", "", 0, smt, UnSend, 0)
  }

  function OwnRow(t: Option<TaskId>): Record {
    Record("alice", 1, RecordDefault, 0, t)
  }

  function OwnDb(smt: SmtStatus): Db {
    Db(map[OWN := OwnTask(smt)], map[0 := OwnRow(Some(OWN))], 1)
  }

  function ChainRow(): Record {
    Record("alice", 1, RecordChain, 1, Some(DIGEST))
  }

  function BothDb(own: SmtStatus, foreign: SmtStatus): Db {
    Db(map[OWN := OwnTask(own), DIGEST := ChainTask(FOREIGN).(smtStatus := foreign)],
       map[0 := OwnRow(Some(OWN)), 1 := ChainRow()], 2)
  }

  ghost function Requested(): World {
    START.(db := Db(map[], map[0 := OwnRow(None)], 1))
  }

  ghost function Own(smt: SmtStatus, write: WriteJob): World {
    START.(db := OwnDb(smt), write := write)
  }

  /** The rollback has read t_smt_info: nothing there yet. */
  ghost function Read(): World {
    START.(db := OwnDb(NeedToRollback), rollback := RollbackRead(OWN, {"alice"}, map[], {OwnRow(Some(OWN))}))
  }

  ghost function Committed(): World {
    Read().(commits := [FOREIGN])
  }

  ghost function Parsed(foreign: SmtStatus, tree: Leaves, info: map<string, nat>, confirm: ConfirmJob): World {
    Committed().(parsed := 1, db := BothDb(NeedToRollback, foreign), tree := tree, info := info, confirm := confirm)
  }

  lemma Requests()
    ensures Steps(START, RecordEvent("alice", 1), Requested())
  {
  }

  lemma Distributes()
    ensures Steps(Requested(), DistributeEvent(OWN, {0}), Own(NeedToWrite, NoWrite))
  {
  }

  lemma Checks()
    ensures Steps(Own(NeedToWrite, NoWrite), WriteCheckEvent(OWN), Own(NeedToWrite, WriteChecked(OWN, 0)))
  {
  }

  lemma Starts()
    ensures Steps(Own(NeedToWrite, WriteChecked(OWN, 0)), WriteStartEvent, Own(Writing, WriteStarted(OWN)))
  {
  }

  lemma Stops()
    ensures Steps(Own(Writing, WriteStarted(OWN)), WriteAbort, Own(Writing, NoWrite))
  {
  }

  lemma Marks()
    ensures Steps(Own(Writing, NoWrite), MarkRollbackEvent({OWN}), Own(NeedToRollback, NoWrite))
  {
  }

  lemma Reads()
    ensures Steps(Own(NeedToRollback, NoWrite), RollbackReadEvent(OWN), Read())
  {
    var db := OwnDb(NeedToRollback);
    assert db.records[0] == OwnRow(Some(OWN));
    assert AccountsOf(db, OWN) == {"alice"} && RowsOf(db, OWN) == {OwnRow(Some(OWN))};
    assert Restrict(START.info, {"alice"}) == map[];
  }

  lemma Commits()
    ensures Steps(Read(), CommitEvent(FOREIGN), Committed())
  {
  }

  lemma Parses()
    ensures Steps(Committed(), ParseEvent(0, None), Parsed(NeedToWrite, map[], map[], NoConfirm))
  {
  }

  lemma Syncs()
    ensures Steps(Parsed(NeedToWrite, map[], map[], NoConfirm), SyncEvent("alice", 0),
                  Parsed(NeedToWrite, map[], map["alice" := 0], NoConfirm))
  {
  }

  lemma ConfirmReads()
    ensures Steps(Parsed(NeedToWrite, map[], map["alice" := 0], NoConfirm), ConfirmReadEvent(DIGEST),
                  Parsed(NeedToWrite, map[], map["alice" := 0], ConfirmChecked(DIGEST, map["alice" := 0])))
  {
    var db := BothDb(NeedToRollback, NeedToWrite);
    OneChainRow();
    assert Restrict(map["alice" := 0], {"alice"}) == map["alice" := 0];
    hide AccountsOf, Restrict;
  }

  lemma OneChainRow()
    ensures var db := BothDb(NeedToRollback, NeedToWrite);
            AccountsOf(db, DIGEST) == {"alice"} && forall i :: HasRow(db, DIGEST, i) <==> i == 1
  {
    var db := BothDb(NeedToRollback, NeedToWrite);
    assert db.records[1] == ChainRow();
  }

  lemma ConfirmWrites()
    ensures Steps(Parsed(NeedToWrite, map[], map["alice" := 0], ConfirmChecked(DIGEST, map["alice" := 0])),
            ConfirmWriteEvent(true),
                  Parsed(NeedToWrite, map["alice" := "leaf"], map["alice" := 0], ConfirmWrote(DIGEST)))
  {
    assert LeafIn(FOREIGN.subAccounts, "alice") == Some("leaf");
    assert LastTouch([FOREIGN], "alice") == Some(0);
    assert LeafAt(map[], "alice") != ChainLeaf([FOREIGN], "alice");
    assert WriteBack(map[], [FOREIGN], {"alice"}, map["alice" := 0]) == map["alice" := "leaf"];
  }

  lemma ConfirmFinishes()
    ensures Steps(Parsed(NeedToWrite, map["alice" := "leaf"], map["alice" := 0], ConfirmWrote(DIGEST)),
            ConfirmFinishEvent,
                  Parsed(WriteComplete, map["alice" := "leaf"], map["alice" := 0], NoConfirm))
  {
    assert MarkWriteComplete(BothDb(NeedToRollback, NeedToWrite), DIGEST) == BothDb(NeedToRollback, WriteComplete);
  }

  lemma Reached()
    ensures Reachable(Parsed(WriteComplete, map["alice" := "leaf"], map["alice" := 0], NoConfirm))
  {
    StartReached();
    hide Reachable, Steps;
    Requests(); ReachesNext(START, RecordEvent("alice", 1), Requested());
    Distributes(); ReachesNext(Requested(), DistributeEvent(OWN, {0}), Own(NeedToWrite, NoWrite));
    Checks(); ReachesNext(Own(NeedToWrite, NoWrite), WriteCheckEvent(OWN), Own(NeedToWrite, WriteChecked(OWN, 0)));
    Starts(); ReachesNext(Own(NeedToWrite, WriteChecked(OWN, 0)), WriteStartEvent, Own(Writing, WriteStarted(OWN)));
    Stops(); ReachesNext(Own(Writing, WriteStarted(OWN)), WriteAbort, Own(Writing, NoWrite));
    Marks(); ReachesNext(Own(Writing, NoWrite), MarkRollbackEvent({OWN}), Own(NeedToRollback, NoWrite));
    Reads(); ReachesNext(Own(NeedToRollback, NoWrite), RollbackReadEvent(OWN), Read());
    Commits(); ReachesNext(Read(), CommitEvent(FOREIGN), Committed());
    Parses(); ReachesNext(Committed(), ParseEvent(0, None), Parsed(NeedToWrite, map[], map[], NoConfirm));
    var synced := Parsed(NeedToWrite, map[], map["alice" := 0], NoConfirm);
    Syncs(); ReachesNext(Parsed(NeedToWrite, map[], map[], NoConfirm), SyncEvent("alice", 0), synced);
    var checked := synced.(confirm := ConfirmChecked(DIGEST, map["alice" := 0]));
    ConfirmReads(); ReachesNext(synced, ConfirmReadEvent(DIGEST), checked);
    var wrote := Parsed(NeedToWrite, map["alice" := "leaf"], map["alice" := 0], ConfirmWrote(DIGEST));
    ConfirmWrites(); ReachesNext(checked, ConfirmWriteEvent(true), wrote);
    ConfirmFinishes(); ReachesNext(wrote, ConfirmFinishEvent,
      Parsed(WriteComplete, map["alice" := "leaf"], map["alice" := 0], NoConfirm));
  }

  /**
    An account's task is abandoned before it reaches the tree; its rollback reads t_smt_info; a foreign commit to the
    account is parsed, synced and confirmed; then the rollback writes the zero leaf it had read. Nothing is in progress,
    the cell on the chain is known, and the roots differ.
   */
  lemma StaleRollbackLosesLeaf() returns (w: World, v: World, u: World)
    ensures Reachable(w) && Enabled(w, RollbackWriteEvent) && v == Apply(w, RollbackWriteEvent, MAX_RETRY)
    ensures Enabled(v, RollbackFinishEvent) && u == Apply(v, RollbackFinishEvent, MAX_RETRY)
    ensures NothingInProgress(u.db) && LiveCellKnown(u) && !SameRoot(u.tree, u.commits)
  {
    Reached();
    hide Reachable;
    w := Parsed(WriteComplete, map["alice" := "leaf"], map["alice" := 0], NoConfirm);
    v := w.(tree := map["alice" := ""], rollback := RollbackWrote(OWN, {OwnRow(Some(OWN))}));
    u := w.(tree := map["alice" := ""], db := Ended(), rollback := NoRollback);
    OldLeafWritten(w, v);
    RetriedAfter(v, u);
    RootsDiffer(u);
  }

  function Ended(): Db {
    BothDb(NeedToWrite, WriteComplete).(tasks := map[OWN := OwnTask(NeedToWrite).(retry := 1),
                                                     DIGEST := ChainTask(FOREIGN).(smtStatus := WriteComplete)])
  }

  lemma OldLeafWritten(w: World, v: World)
    requires w == Parsed(WriteComplete, map["alice" := "leaf"], map["alice" := 0], NoConfirm)
    requires v == w.(tree := map["alice" := ""], rollback := RollbackWrote(OWN, {OwnRow(Some(OWN))}))
    ensures Enabled(w, RollbackWriteEvent) && Apply(w, RollbackWriteEvent, MAX_RETRY) == v
  {
  }

  lemma RetriedAfter(v: World, u: World)
    requires v.rollback == RollbackWrote(OWN, {OwnRow(Some(OWN))}) && v.db == BothDb(NeedToRollback, WriteComplete)
    requires u == v.(db := Ended(), rollback := NoRollback)
    ensures Enabled(v, RollbackFinishEvent) && Apply(v, RollbackFinishEvent, MAX_RETRY) == u
  {
    hide CloseTask;
    assert MarkRetry(v.db, OWN, 1) == Ended();
  }

  lemma RootsDiffer(u: World)
    requires u.db == Ended() && u.commits == [FOREIGN] && u.parsed == 1 && u.tree == map["alice" := ""]
    ensures NothingInProgress(u.db) && LiveCellKnown(u) && !SameRoot(u.tree, u.commits)
  {
    assert LeafIn(FOREIGN.subAccounts, "alice") == Some("leaf") && LastTouch([FOREIGN], "alice") == Some(0);
    assert LeafAt(u.tree, "alice") != ChainLeaf(u.commits, "alice");
  }
}
