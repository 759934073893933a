/**
  Two transactions of a parent in one block, both changing an account. While t_smt_info is at the first, the sync check
  of the second's task passes, because it compares block numbers only: the first leaf is confirmed twice, and the
  second is lost.
 */
module SameBlock {
  import opened Tables
  import opened TaskStore
  import opened SmtPipeline
  import opened PipelineSafety
  import opened Reachability
  import opened Wrappers

  const FIRST := Commit("", "first", 1, 1, [SubAccount("alice", 1, "one")])
  const SECOND := Commit("first", "second", 1, 2, [SubAccount("alice", 2, "two")])
  const ONE := TaskId("first", 1)
  const TWO := TaskId("second", 2)

  ghost function Committed(): World {
    START.(commits := [FIRST, SECOND])
  }

  function RowOne(): Record {
    Record("alice", 1, RecordChain, 1, Some(ONE))
  }

  function RowTwo(): Record {
    Record("alice", 2, RecordChain, 1, Some(TWO))
  }

  function BothTables(one: SmtStatus, two: SmtStatus): Db {
    Db(map[ONE := ChainTask(FIRST).(smtStatus := one), TWO := ChainTask(SECOND).(smtStatus := two)],
       map[0 := RowOne(), 1 := RowTwo()], 2)
  }

  ghost function Synced(one: SmtStatus, two: SmtStatus, tree: Leaves, confirm: ConfirmJob): World {
    Committed().(parsed := 2, db := BothTables(one, two), info := map["alice" := 0], tree := tree, confirm := confirm)
  }

  lemma Commits()
    ensures Steps(START, CommitEvent(FIRST), START.(commits := [FIRST]))
    ensures Steps(START.(commits := [FIRST]), CommitEvent(SECOND), Committed())
  {
  }

  ghost function ParsedOne(): World {
    Committed().(parsed := 1, db := Db(map[ONE := ChainTask(FIRST)], map[0 := RowOne()], 1))
  }

  ghost function ParsedTwo(): World {
    Committed().(parsed := 2, db := BothTables(NeedToWrite, NeedToWrite))
  }

  lemma ParsesOne()
    ensures Steps(Committed(), ParseEvent(0, None), ParsedOne())
  {
  }

  lemma ParsesTwo()
    ensures Steps(ParsedOne(), ParseEvent(1, None), ParsedTwo())
  {
  }

  lemma Syncs()
    ensures Steps(ParsedTwo(), SyncEvent("alice", 0), Synced(NeedToWrite, NeedToWrite, map[], NoConfirm))
  {
  }

  /** The leaves of alice in the two commits. */
  lemma Touched()
    ensures LeafIn(FIRST.subAccounts, "alice") == Some("one") && LeafIn(SECOND.subAccounts, "alice") == Some("two")
    ensures LastTouch([FIRST, SECOND], "alice") == Some(1) && ChainLeaf([FIRST, SECOND], "alice") == "two"
  {
  }

  lemma Rows(one: SmtStatus, two: SmtStatus)
    ensures AccountsOf(BothTables(one, two), ONE) == {"alice"} && AccountsOf(BothTables(one, two), TWO) == {"alice"}
    ensures forall i ::
            (HasRow(BothTables(one, two), ONE, i) <==> i == 0) && (HasRow(BothTables(one, two), TWO, i) <==> i == 1)
  {
    assert BothTables(one, two).records[0] == RowOne() && BothTables(one, two).records[1] == RowTwo();
  }

  lemma Reads(t: TaskId, one: SmtStatus, tree: Leaves)
    requires (t == ONE && one == NeedToWrite) || t == TWO
    ensures Steps(Synced(one, NeedToWrite, tree, NoConfirm), ConfirmReadEvent(t),
                  Synced(one, NeedToWrite, tree, ConfirmChecked(t, map["alice" := 0])))
  {
    Rows(one, NeedToWrite);
    assert Restrict(map["alice" := 0], {"alice"}) == map["alice" := 0];
    hide AccountsOf, Restrict;
  }

  lemma Writes(t: TaskId, one: SmtStatus, tree: Leaves, answered: bool)
    requires LeafAt(tree, "alice") != "two" && tree.Keys <= {"alice"}
    ensures var w := Synced(one, NeedToWrite, tree, ConfirmChecked(t, map["alice" := 0]));
            !ConfirmSkips(w, answered)
              && ApplyConfirmWrite(w, answered) == Synced(one, NeedToWrite, map["alice" := "one"], ConfirmWrote(t))
  {
    Touched();
    assert WriteBack(tree, [FIRST, SECOND], {"alice"}, map["alice" := 0]) == map["alice" := "one"];
    hide LeafIn, LastTouch, ChainLeaf;
  }

  /** The first confirmation is safe: the other task is still to confirm the last commit. */
  lemma FirstIsSafe()
    ensures Safe(Synced(NeedToWrite, NeedToWrite, map[], ConfirmChecked(ONE, map["alice" := 0])),
            ConfirmWriteEvent(true))
  {
    var w := Synced(NeedToWrite, NeedToWrite, map[], ConfirmChecked(ONE, map["alice" := 0]));
    Touched();
    Rows(NeedToWrite, NeedToWrite);
    hide AccountsOf, LeafIn, LastTouch, ChainLeaf;
    assert Covers(w, TWO, 1);
  }

  lemma Finishes(t: TaskId, one: SmtStatus, two: SmtStatus)
    requires (t == ONE && one == WriteComplete && two == NeedToWrite) || (t == TWO && one == two == WriteComplete)
    ensures Steps(Synced(if t == ONE then NeedToWrite else one, NeedToWrite, map["alice" := "one"], ConfirmWrote(t)),
            ConfirmFinishEvent,
                  Synced(one, two, map["alice" := "one"], NoConfirm))
  {
    assert MarkWriteComplete(BothTables(if t == ONE then NeedToWrite else one, NeedToWrite), t) == BothTables(one, two);
  }

  lemma FirstWrites()
    ensures Steps(Synced(NeedToWrite, NeedToWrite, map[], ConfirmChecked(ONE, map["alice" := 0])),
            ConfirmWriteEvent(true),
                  Synced(NeedToWrite, NeedToWrite, map["alice" := "one"], ConfirmWrote(ONE)))
  {
    FirstIsSafe();
    Writes(ONE, NeedToWrite, map[], true);
    hide ConfirmSkips, InfoEndsBlocks, RowsEndBlocks, ApplyConfirmWrite;
  }

  lemma Reached()
    ensures Reachable(Synced(WriteComplete, NeedToWrite, map["alice" := "one"], ConfirmChecked(TWO, map["alice" := 0])))
  {
    hide *;
    StartReached();
    Commits();
    ReachesNext(START, CommitEvent(FIRST), START.(commits := [FIRST]));
    ReachesNext(START.(commits := [FIRST]), CommitEvent(SECOND), Committed());
    ParsesOne();
    ReachesNext(Committed(), ParseEvent(0, None), ParsedOne());
    ParsesTwo();
    ReachesNext(ParsedOne(), ParseEvent(1, None), ParsedTwo());
    Syncs();
    var synced := Synced(NeedToWrite, NeedToWrite, map[], NoConfirm);
    ReachesNext(ParsedTwo(), SyncEvent("alice", 0), synced);
    Reads(ONE, NeedToWrite, map[]);
    var checked := Synced(NeedToWrite, NeedToWrite, map[], ConfirmChecked(ONE, map["alice" := 0]));
    ReachesNext(synced, ConfirmReadEvent(ONE), checked);
    FirstWrites();
    var wrote := Synced(NeedToWrite, NeedToWrite, map["alice" := "one"], ConfirmWrote(ONE));
    ReachesNext(checked, ConfirmWriteEvent(true), wrote);
    Finishes(ONE, WriteComplete, NeedToWrite);
    var again := Synced(WriteComplete, NeedToWrite, map["alice" := "one"], NoConfirm);
    ReachesNext(wrote, ConfirmFinishEvent, again);
    Reads(TWO, WriteComplete, map["alice" := "one"]);
    ReachesNext(again, ConfirmReadEvent(TWO),
      Synced(WriteComplete, NeedToWrite, map["alice" := "one"], ConfirmChecked(TWO, map["alice" := 0])));
  }

  lemma RootsDiffer(u: World)
    requires u == Synced(WriteComplete, WriteComplete, map["alice" := "one"], NoConfirm)
    ensures NothingInProgress(u.db) && LiveCellKnown(u) && !SameRoot(u.tree, u.commits)
  {
    Touched();
    hide LeafIn, LastTouch, ChainLeaf;
    assert LeafAt(u.tree, "alice") != ChainLeaf(u.commits, "alice");
  }

  /**
    Both tasks are confirmed with the first leaf. Nothing is in progress, the cell on the chain is known, and the roots
    differ.
   */
  lemma SecondLeafIsLost() returns (w: World, v: World, u: World)
    ensures Reachable(w) && Enabled(w, ConfirmWriteEvent(true)) && v == Apply(w, ConfirmWriteEvent(true), MAX_RETRY)
    ensures Enabled(v, ConfirmFinishEvent) && u == Apply(v, ConfirmFinishEvent, MAX_RETRY)
    ensures NothingInProgress(u.db) && LiveCellKnown(u) && !SameRoot(u.tree, u.commits)
  {
    w := Synced(WriteComplete, NeedToWrite, map["alice" := "one"], ConfirmChecked(TWO, map["alice" := 0]));
    v := Synced(WriteComplete, NeedToWrite, map["alice" := "one"], ConfirmWrote(TWO));
    u := Synced(WriteComplete, WriteComplete, map["alice" := "one"], NoConfirm);
    Reached();
    RootsDiffer(u);
    Writes(TWO, WriteComplete, map["alice" := "one"], true);
    assert v == Apply(w, ConfirmWriteEvent(true), MAX_RETRY) by {
      hide Reachable, ApplyConfirmWrite, ConfirmSkips, NothingInProgress, LiveCellKnown, SameRoot;
    }
    hide *;
    Finishes(TWO, WriteComplete, WriteComplete);
    StepsTo(v, ConfirmFinishEvent, u);
  }

  lemma StepsTo(w: World, e: Event, v: World)
    requires Steps(w, e, v)
    ensures Enabled(w, e) && v == Apply(w, e, MAX_RETRY)
  {
  }

  // ---------- a failed query ----------

  /** The second leaf is in the tree and in t_smt_info, but its task read the first. */
  ghost function UpToDate(): World {
    Synced(WriteComplete, NeedToWrite, map["alice" := "two"],
      ConfirmChecked(TWO, map["alice" := 0])).(info := map["alice" := 1])
  }

  lemma UpToDateTables()
    ensures TablesInv(UpToDate().db) && Statuses(UpToDate().db)
  {
    var db := BothTables(WriteComplete, NeedToWrite);
    assert db.records[0] == RowOne() && db.records[1] == RowTwo();
    assert RowMatches(db.tasks, RowOne()) && RowMatches(db.tasks, RowTwo());
  }

  lemma UpToDateChain()
    ensures ChainOk(UpToDate())
  {
    Touched();
    hide LeafIn, LastTouch;
  }

  lemma UpToDateOrigins()
    ensures TaskOrigins(UpToDate())
  {
    var w := UpToDate();
    assert TaskOfCommit(w, ONE, 0) && TaskOfCommit(w, TWO, 1);
    forall t | t in w.db.tasks ensures OriginOk(w, t) {
      assert t == ONE || t == TWO;
      hide TaskOfCommit;
    }
  }

  lemma UpToDateJobs()
    ensures DigestsPresent(UpToDate()) && PendingOk(UpToDate()) && WriteOk(UpToDate()) && RollbackOk(UpToDate())
    ensures ConfirmOk(UpToDate())
  {
    var w := UpToDate();
    Touched();
    Rows(WriteComplete, NeedToWrite);
    assert w.db.records[0].Key() == ChainKey(FIRST, FIRST.subAccounts[0]);
    assert w.db.records[1].Key() == ChainKey(SECOND, SECOND.subAccounts[0]);
  }

  lemma OnlyAlice(a: string)
    requires a != "alice"
    ensures LastTouch([FIRST, SECOND], a) == None
  {
  }

  lemma UpToDateAccounted()
    ensures AllFresh(UpToDate()) && AllAccounted(UpToDate()) && SameRoot(UpToDate().tree, UpToDate().commits)
  {
    var w := UpToDate();
    Touched();
    Rows(WriteComplete, NeedToWrite);
    assert Covers(w, TWO, 1);
    hide LeafIn, LastTouch, AccountsOf;
    forall a ensures LeafAt(w.tree, a) == ChainLeaf(w.commits, a) && Fresh(w, a, InfoOf(w.info, a)) {
      if a != "alice" {
        OnlyAlice(a);
      }
    }
    assert ToConfirm(w, "alice", 1);
  }

  /**
    The roots are equal, and a confirmation whose query for the cell on the chain is answered leaves them so. One whose
    query fails writes the leaf it read, and the second is lost.
   */
  lemma FailedQueryLosesLeaf() returns (w: World, v: World)
    ensures Inv(w) && Enabled(w, ConfirmWriteEvent(true)) && Safe(w, ConfirmWriteEvent(true))
            && SameRoot(w.tree, w.commits)
    ensures Enabled(w, ConfirmWriteEvent(false)) && v == Apply(w, ConfirmWriteEvent(false), MAX_RETRY)
    ensures !SameRoot(v.tree, v.commits)
  {
    w := UpToDate();
    v := FailedWrite();
    hide *;
    UpToDateTables();
    UpToDateChain();
    UpToDateOrigins();
    UpToDateJobs();
    UpToDateAccounted();
    SafeIfAnswered();
    InvOf(w);
  }

  lemma FailedWrite() returns (v: World)
    ensures Enabled(UpToDate(), ConfirmWriteEvent(false)) && v == Apply(UpToDate(), ConfirmWriteEvent(false), MAX_RETRY)
    ensures !SameRoot(v.tree, v.commits)
  {
    v := ApplyConfirmWrite(UpToDate(), false);
    OldLeafWritten(UpToDate(), v);
    hide ApplyConfirmWrite, SameRoot;
  }

  lemma InvOf(w: World)
    requires TablesInv(w.db) && Statuses(w.db) && ChainOk(w) && TaskOrigins(w) && DigestsPresent(w)
    requires PendingOk(w) && WriteOk(w) && RollbackOk(w) && ConfirmOk(w) && AllFresh(w) && AllAccounted(w)
    ensures Inv(w)
  {
  }

  lemma SafeIfAnswered()
    ensures Enabled(UpToDate(), ConfirmWriteEvent(true)) && Safe(UpToDate(), ConfirmWriteEvent(true))
  {
    var w := UpToDate();
    UpToDateAccounted();
    Rows(WriteComplete, NeedToWrite);
    hide SameRoot, AllFresh, AllAccounted, AccountsOf, Touches;
    assert LiveCellToConfirm(w.db, w.commits) by {
      assert w.db.tasks[TWO].outpoint == "second";
    }
  }

  lemma OldLeafWritten(w: World, v: World)
    requires w == UpToDate() && v == ApplyConfirmWrite(w, false)
    ensures !SameRoot(v.tree, v.commits)
  {
    Touched();
    WriteBackAt(w.tree, w.commits, {"alice"}, map["alice" := 0], "alice");
    assert w.confirm.values.Keys == {"alice"};
    hide LeafIn, LastTouch, ChainLeaf, WriteBack, LeafAt;
    assert LeafAt(v.tree, "alice") != ChainLeaf(v.commits, "alice");
  }
}
