/**
  A task whose transaction is on the chain and parsed before the task is marked as sent. The commit was taken in as
  somebody else's; once the task is marked, parsing the block again finds it waiting, and adds its rows.
 */
module LateMark {
  import opened Tables
  import opened TaskStore
  import opened Reparse
  import opened SmtPipeline
  import opened PipelineSafety
  import opened Reachability
  import opened IgnoredRow
  import opened Wrappers

  const DIGEST := TaskId("first", 1)

  ghost function Committed(): World {
    Built().(commits := [FIRST])
  }

  function DigestRow(): Record {
    Record("alice", 1, RecordChain, 1, Some(DIGEST))
  }

  ghost function Parsed(own: Task, write: WriteJob): World {
    Committed().(parsed := 1, write := write,
                 db := Db(map[OWN := own, DIGEST := ChainTask(FIRST)], map[0 := OwnRow(Some(OWN)), 1 := DigestRow()],
                   2))
  }

  ghost function ParsedFirst(): World {
    Parsed(OwnTask(Writing, UnSend, "first"), WriteBuilt(OWN, "first"))
  }

  ghost function Marked(): World {
    Parsed(OwnTask(WriteComplete, TxPending, "first"), NoWrite)
  }

  lemma Commits()
    ensures Steps(Built(), CommitEvent(FIRST), Committed())
  {
  }

  lemma Parses()
    ensures Steps(Committed(), ParseEvent(0, None), ParsedFirst())
  {
    assert Awaiting(Committed().db.tasks, FIRST) == {};
  }

  lemma ParsedIngested()
    ensures Ingested(ParsedFirst().db, FIRST)
  {
    assert ParsedFirst().db.records[1].Key() == ChainKey(FIRST, FIRST.subAccounts[0]);
  }

  lemma Marks()
    ensures Enabled(ParsedFirst(), WritePendingEvent) && Apply(ParsedFirst(), WritePendingEvent, MAX_RETRY) == Marked()
  {
  }

  lemma ParsesAgain()
    ensures Awaiting(Marked().db.tasks, FIRST) == {OWN}
    ensures Parse(Marked().db, FIRST).Some? && 0 in Parse(Marked().db, FIRST).value.records
    ensures Parse(Marked().db, FIRST).value.records[0] == OwnRow(Some(OWN)).(recordType := RecordChain, recordBN := 1)
  {
    var db := Marked().db;
    assert Awaiting(db.tasks, FIRST) == {OWN};
    assert db.records[0] == OwnRow(Some(OWN)) && db.records[1] == DigestRow();
    assert Pick({OWN}) == Some(OWN);
  }

  /** The commit was ingested, and is not after the mark; parsing it again changes the records. */
  lemma LateMarkUndoesIngestion() returns (w: World, v: World)
    ensures Reachable(w) && Ingested(w.db, FIRST)
    ensures Enabled(w, WritePendingEvent) && v == Apply(w, WritePendingEvent, MAX_RETRY) && !Ingested(v.db, FIRST)
    ensures Parse(v.db, FIRST).Some? && Parse(v.db, FIRST).value.records != v.db.records
  {
    w, v := ParsedFirst(), Marked();
    assert v.db.records[0] == OwnRow(Some(OWN));
    ParsesAgain();
    ParsedIngested();
    hide Enabled, Apply, Reachable, Parse, Steps, Awaiting;
    BuiltReached();
    Commits();
    ReachesNext(Built(), CommitEvent(FIRST), Committed());
    Parses();
    ReachesNext(Committed(), ParseEvent(0, None), ParsedFirst());
    Marks();
  }
}
