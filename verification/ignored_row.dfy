/**
  A task of the service whose record has another nonce than the chain gave its account. The row it becomes has the key
  of a row of the next transaction in the block, which is then ignored: that transaction's task has no record, and
  its leaf is never written.
 */
module IgnoredRow {
  import opened Tables
  import opened TaskStore
  import opened SmtPipeline
  import opened PipelineSafety
  import opened Reachability
  import opened Wrappers

  const OWN := TaskId("", 7)
  const CHANGE := [SubAccount("alice", 1, "one")]
  const FIRST := Commit("", "first", 1, 1, CHANGE)
  const SECOND := Commit("first", "second", 1, 2, [SubAccount("alice", 2, "two")])
  const TWO := TaskId("second", 2)

  function OwnTask(smt: SmtStatus, tx: TxStatus, outpoint: string): Task {
    Task(TaskDelegate, "", outpoint, 0, smt, tx, 0)
  }

  /**
    The request asked for nonce 2, one past the nonce the account table showed then. That table is filled by another
    service, and can show a nonce from a block that is later reorganised away; the check of nonces before the write
    only closes records whose nonce is not past the table's.
   */
  function OwnRow(t: Option<TaskId>): Record {
    Record("alice", 2, RecordDefault, 0, t)
  }

  ghost function Own(task: Task, write: WriteJob, tree: Leaves, built: map<string, seq<SubAccount>>): World {
    START.(db := Db(map[OWN := task], map[0 := OwnRow(Some(OWN))], 1), write := write, tree := tree, built := built)
  }

  ghost function Requested(): World {
    START.(db := Db(map[], map[0 := OwnRow(None)], 1))
  }

  ghost function Distributed(): World {
    Own(OwnTask(NeedToWrite, UnSend, ""), NoWrite, map[], map[])
  }

  ghost function Checked(): World {
    Own(OwnTask(NeedToWrite, UnSend, ""), WriteChecked(OWN, 0), map[], map[])
  }

  ghost function Started(): World {
    Own(OwnTask(Writing, UnSend, ""), WriteStarted(OWN), map[], map[])
  }

  ghost function Written(): World {
    Own(OwnTask(Writing, UnSend, ""), WriteTree(OWN, CHANGE), map["alice" := "one"], map[])
  }

  ghost function Built(): World {
    Own(OwnTask(Writing, UnSend, "first"), WriteBuilt(OWN, "first"), map["alice" := "one"], map["first" := CHANGE])
  }

  ghost function Sent(commits: seq<Commit>): World {
    Own(OwnTask(WriteComplete, TxPending, "first"), NoWrite, map["alice" := "one"],
      map["first" := CHANGE]).(commits := commits)
  }

  function ChainRow(): Record {
    Record("alice", 2, RecordChain, 1, Some(OWN))
  }

  function OwnDone(smt: SmtStatus): Task {
    Task(TaskChain, "", "first", 1, smt, Committed, 0)
  }

  ghost function ParsedOwn(): World {
    Sent([FIRST, SECOND]).(parsed := 1, db := Db(map[OWN := OwnDone(NeedToWrite)], map[0 := ChainRow()], 1))
  }

  function BothTasks(own: SmtStatus, two: SmtStatus): Db {
    Db(map[OWN := OwnDone(own), TWO := ChainTask(SECOND).(smtStatus := two)], map[0 := ChainRow()], 1)
  }

  ghost function ParsedBoth(own: SmtStatus, two: SmtStatus, info: map<string, nat>, confirm: ConfirmJob): World {
    Sent([FIRST, SECOND]).(parsed := 2, db := BothTasks(own, two), info := info, confirm := confirm)
  }

  lemma Requests()
    ensures Steps(START, RecordEvent("alice", 2), Requested())
    ensures Steps(Requested(), DistributeEvent(OWN, {0}), Distributed())
  {
  }

  lemma Checks()
    ensures Steps(Distributed(), WriteCheckEvent(OWN), Checked())
  {
  }

  lemma Starts()
    ensures Steps(Checked(), WriteStartEvent, Started())
  {
  }

  lemma Writes()
    ensures Steps(Started(), WriteTreeEvent(CHANGE), Written())
  {
    assert HasRow(Started().db, OWN, 0) && HasDefault(Started().db, OWN, "alice");
  }

  lemma Builds()
    ensures Steps(Written(), WriteBuildEvent("", "first"), Built())
    ensures Steps(Built(), WritePendingEvent, Sent([]))
  {
  }

  lemma Commits()
    ensures Steps(Sent([]), CommitEvent(FIRST), Sent([FIRST]))
            && Steps(Sent([FIRST]), CommitEvent(SECOND), Sent([FIRST, SECOND]))
  {
  }

  lemma ParsesOwn()
    ensures Steps(Sent([FIRST, SECOND]), ParseEvent(0, Some(OWN)), ParsedOwn())
  {
    assert OWN in Awaiting(Sent([FIRST, SECOND]).db.tasks, FIRST);
    OneRowToChain(Sent([FIRST, SECOND]).db, ParsedOwn().db);
  }

  lemma OneRowToChain(db: Db, after: Db)
    requires db.records == map[0 := OwnRow(Some(OWN))] && after.records == map[0 := ChainRow()]
    requires after.nextId == db.nextId
    requires db.tasks == map[OWN := OwnTask(WriteComplete, TxPending, "first")]
    requires after.tasks == map[OWN := OwnDone(NeedToWrite)]
    ensures UpdateToChainTask(db, OWN, 1) == Some(after)
  {
    assert db.records[0].(recordType := RecordChain, recordBN := 1) == after.records[0];
    assert db.tasks[OWN].(taskType := TaskChain, smtStatus := NeedToWrite, txStatus := Committed, blockNumber := 1)
           == after.tasks[OWN];
    RowsToChain(db, after);
  }

  lemma RowsToChain(db: Db, after: Db)
    requires UniqueKeys(after.records) && after.records.Keys == db.records.Keys
    requires after.nextId == db.nextId && OWN in db.tasks
    requires after.tasks == db.tasks[OWN := db.tasks[OWN].(taskType := TaskChain, smtStatus := NeedToWrite,
                                                           txStatus := Committed, blockNumber := 1)]
    requires forall i | i in db.records ::
               after.records[i] ==
                 if Of(db.records[i], OWN)
                 then db.records[i].(recordType := RecordChain, recordBN := 1) else db.records[i]
    ensures UpdateToChainTask(db, OWN, 1) == Some(after)
  {
    var chained := map i | i in db.records ::
        if Of(db.records[i], OWN) then db.records[i].(recordType := RecordChain, recordBN := 1) else db.records[i];
    assert chained == after.records;
    assert UpdateToChainTask(db, OWN, 1) == IfUnique(Db(after.tasks, chained, db.nextId));
  }

  lemma BuiltReached()
    ensures Reachable(Built())
  {
    hide *;
    StartReached();
    Requests();
    ReachesNext(START, RecordEvent("alice", 2), Requested());
    ReachesNext(Requested(), DistributeEvent(OWN, {0}), Distributed());
    Checks();
    ReachesNext(Distributed(), WriteCheckEvent(OWN), Checked());
    Starts();
    ReachesNext(Checked(), WriteStartEvent, Started());
    Writes();
    ReachesNext(Started(), WriteTreeEvent(CHANGE), Written());
    Builds();
    ReachesNext(Written(), WriteBuildEvent("", "first"), Built());
  }

  lemma Reached()
    ensures Reachable(ParsedOwn())
  {
    hide *;
    BuiltReached();
    Builds();
    ReachesNext(Built(), WritePendingEvent, Sent([]));
    Commits();
    ReachesNext(Sent([]), CommitEvent(FIRST), Sent([FIRST]));
    ReachesNext(Sent([FIRST]), CommitEvent(SECOND), Sent([FIRST, SECOND]));
    ParsesOwn();
    ReachesNext(Sent([FIRST, SECOND]), ParseEvent(0, Some(OWN)), ParsedOwn());
  }

  lemma ParsesSecond()
    ensures Enabled(ParsedOwn(), ParseEvent(1, None))
    ensures Apply(ParsedOwn(), ParseEvent(1, None), MAX_RETRY) == ParsedBoth(NeedToWrite, NeedToWrite, map[], NoConfirm)
  {
    assert ParsedOwn().db.records[0].Key() == ChainKey(SECOND, SECOND.subAccounts[0]);
    assert KeyUsed(ParsedOwn().db.records, ChainKey(SECOND, SECOND.subAccounts[0]));
    assert Awaiting(ParsedOwn().db.tasks, SECOND) == {};
    assert InsertIgnore(ParsedOwn().db, SECOND, 1) == ParsedOwn().db;
  }

  // ---------- and then ----------

  ghost predicate Goes(w: World, e: Event, v: World) {
    Enabled(w, e) && Apply(w, e, MAX_RETRY) == v
  }

  lemma Onward(w: World, e: Event, v: World, rest: seq<Event>)
    requires Goes(w, e, v) && ValidRun(v, rest, MAX_RETRY)
    ensures ValidRun(w, [e] + rest, MAX_RETRY) && Run(w, [e] + rest, MAX_RETRY) == Run(v, rest, MAX_RETRY)
  {
    assert ([e] + rest)[0] == e && ([e] + rest)[1..] == rest;
    hide Enabled, Apply;
  }

  const READ := map["alice" := 0]

  lemma Rows(own: SmtStatus, two: SmtStatus)
    ensures AccountsOf(BothTasks(own, two), OWN) == {"alice"} && forall i ::
            HasRow(BothTasks(own, two), OWN, i) <==> i == 0
    ensures AccountsOf(BothTasks(own, two), TWO) == {}
  {
    assert BothTasks(own, two).records[0] == ChainRow();
  }

  lemma Touched()
    ensures LeafIn(FIRST.subAccounts, "alice") == Some("one") && LeafIn(SECOND.subAccounts, "alice") == Some("two")
    ensures ChainLeaf([FIRST, SECOND], "alice") == "two"
  {
    assert LastTouch([FIRST, SECOND], "alice") == Some(1);
  }

  lemma Syncs()
    ensures Goes(ParsedBoth(NeedToWrite, NeedToWrite, map[], NoConfirm), SyncEvent("alice", 0),
                 ParsedBoth(NeedToWrite, NeedToWrite, READ, NoConfirm))
  {
    Touched();
  }

  lemma Reads()
    ensures Goes(ParsedBoth(NeedToWrite, NeedToWrite, READ, NoConfirm), ConfirmReadEvent(OWN),
                 ParsedBoth(NeedToWrite, NeedToWrite, READ, ConfirmChecked(OWN, READ)))
  {
    Rows(NeedToWrite, NeedToWrite);
    assert Restrict(READ, {"alice"}) == READ;
    hide AccountsOf, Restrict;
  }

  lemma Confirms()
    ensures Goes(ParsedBoth(NeedToWrite, NeedToWrite, READ, ConfirmChecked(OWN, READ)), ConfirmWriteEvent(true),
                 ParsedBoth(NeedToWrite, NeedToWrite, READ, ConfirmWrote(OWN)))
  {
    Touched();
    assert WriteBack(map["alice" := "one"], [FIRST, SECOND], {"alice"}, READ) == map["alice" := "one"];
    hide LeafIn, LastTouch, ChainLeaf, LiveCellToConfirm, SameRoot;
  }

  lemma Finishes()
    ensures Goes(ParsedBoth(NeedToWrite, NeedToWrite, READ, ConfirmWrote(OWN)), ConfirmFinishEvent,
                 ParsedBoth(WriteComplete, NeedToWrite, READ, NoConfirm))
    ensures Goes(ParsedBoth(WriteComplete, NeedToWrite, READ, ConfirmWrote(TWO)), ConfirmFinishEvent,
                 ParsedBoth(WriteComplete, WriteComplete, READ, NoConfirm))
  {
    assert MarkWriteComplete(BothTasks(NeedToWrite, NeedToWrite), OWN) == BothTasks(WriteComplete, NeedToWrite);
    assert MarkWriteComplete(BothTasks(WriteComplete, NeedToWrite), TWO) == BothTasks(WriteComplete, WriteComplete);
  }

  lemma ReadsNothing()
    ensures Goes(ParsedBoth(WriteComplete, NeedToWrite, READ, NoConfirm), ConfirmReadEvent(TWO),
                 ParsedBoth(WriteComplete, NeedToWrite, READ, ConfirmChecked(TWO, map[])))
  {
    Rows(WriteComplete, NeedToWrite);
    hide AccountsOf, Restrict, SyncCheck;
    RecordlessRead(ParsedBoth(WriteComplete, NeedToWrite, READ, NoConfirm), TWO, MAX_RETRY);
  }

  lemma WritesNothing()
    ensures Goes(ParsedBoth(WriteComplete, NeedToWrite, READ, ConfirmChecked(TWO, map[])), ConfirmWriteEvent(true),
                 ParsedBoth(WriteComplete, NeedToWrite, READ, ConfirmWrote(TWO)))
  {
    var w := ParsedBoth(WriteComplete, NeedToWrite, READ, NoConfirm);
    hide WriteBack, LiveCellToConfirm, SameRoot, BothTasks;
    WriteNothingBack(w.tree, w.commits);
    var empty: map<string, nat> := map[];
    assert empty.Keys == {};
  }

  lemma RootsDiffer(u: World)
    requires u == ParsedBoth(WriteComplete, WriteComplete, READ, NoConfirm)
    ensures NothingInProgress(u.db) && LiveCellKnown(u) && !SameRoot(u.tree, u.commits)
  {
    Touched();
    hide LeafIn, LastTouch, ChainLeaf;
    assert LeafAt(u.tree, "alice") != ChainLeaf(u.commits, "alice");
  }

  /**
    After the second transaction's rows were ignored, both tasks are confirmed, nothing is in progress, the cell on the
    chain is known, and the roots differ.
   */
  lemma IgnoredRowLosesLeaf() returns (w: World, v: World, events: seq<Event>)
    ensures Reachable(w) && Enabled(w, ParseEvent(1, None)) && v == Apply(w, ParseEvent(1, None), MAX_RETRY)
    ensures ValidRun(v, events, MAX_RETRY)
    ensures var u := Run(v, events, MAX_RETRY);
            NothingInProgress(u.db) && LiveCellKnown(u) && !SameRoot(u.tree, u.commits)
  {
    Reached();
    ParsesSecond();
    w, v := ParsedOwn(), ParsedBoth(NeedToWrite, NeedToWrite, map[], NoConfirm);
    events := Ending();
    RootsDiffer(ParsedBoth(WriteComplete, WriteComplete, READ, NoConfirm));
  }

  lemma Ending() returns (events: seq<Event>)
    ensures ValidRun(ParsedBoth(NeedToWrite, NeedToWrite, map[], NoConfirm), events, MAX_RETRY)
    ensures Run(ParsedBoth(NeedToWrite, NeedToWrite, map[], NoConfirm), events, MAX_RETRY)
         == ParsedBoth(WriteComplete, WriteComplete, READ, NoConfirm)
  {
    var end := ParsedBoth(WriteComplete, WriteComplete, READ, NoConfirm);
    events := [];
    assert ValidRun(end, events, MAX_RETRY) && Run(end, events, MAX_RETRY) == end;
    hide *;
    Syncs(); Reads(); Confirms(); Finishes(); ReadsNothing(); WritesNothing();
    Onward(ParsedBoth(WriteComplete, NeedToWrite, READ, ConfirmWrote(TWO)), ConfirmFinishEvent, end, events);
    events := [ConfirmFinishEvent] + events;
    Onward(ParsedBoth(WriteComplete, NeedToWrite, READ, ConfirmChecked(TWO, map[])), ConfirmWriteEvent(true),
           ParsedBoth(WriteComplete, NeedToWrite, READ, ConfirmWrote(TWO)), events);
    events := [ConfirmWriteEvent(true)] + events;
    var confirmed := ParsedBoth(WriteComplete, NeedToWrite, READ, NoConfirm);
    Onward(confirmed, ConfirmReadEvent(TWO), ParsedBoth(WriteComplete, NeedToWrite, READ, ConfirmChecked(TWO, map[])),
      events);
    events := [ConfirmReadEvent(TWO)] + events;
    Onward(ParsedBoth(NeedToWrite, NeedToWrite, READ, ConfirmWrote(OWN)), ConfirmFinishEvent, confirmed, events);
    events := [ConfirmFinishEvent] + events;
    Onward(ParsedBoth(NeedToWrite, NeedToWrite, READ, ConfirmChecked(OWN, READ)), ConfirmWriteEvent(true),
           ParsedBoth(NeedToWrite, NeedToWrite, READ, ConfirmWrote(OWN)), events);
    events := [ConfirmWriteEvent(true)] + events;
    var synced := ParsedBoth(NeedToWrite, NeedToWrite, READ, NoConfirm);
    Onward(synced, ConfirmReadEvent(OWN), ParsedBoth(NeedToWrite, NeedToWrite, READ, ConfirmChecked(OWN, READ)),
      events);
    events := [ConfirmReadEvent(OWN)] + events;
    Onward(ParsedBoth(NeedToWrite, NeedToWrite, map[], NoConfirm), SyncEvent("alice", 0), synced, events);
    events := [SyncEvent("alice", 0)] + events;
  }
}
