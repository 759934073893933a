/** Parsing a block again after the other loops have run: what was ingested stays so, but for a late mark. */
module ReparseLater {
  import opened Tables
  import opened TaskStore
  import opened Reparse
  import opened SmtPipeline
  import opened PipelineInvariants
  import opened Wrappers

  /** The step marks a task as waiting for the commit's transaction, which it sent. */
  predicate PendsFor(w: World, e: Event, c: Commit) {
    && e.WritePendingEvent? && w.write.WriteBuilt? && w.write.task in w.db.tasks
    && w.db.tasks[w.write.task].refOutpoint == c.refOutpoint && w.db.tasks[w.write.task].outpoint == c.outpoint
  }

  lemma PendingAwaits(w: World, e: Event, maxRetry: nat, c: Commit)
    requires WriteOk(w) && Enabled(w, e) && PendsFor(w, e, c)
    ensures w.write.task in Awaiting(Apply(w, e, maxRetry).db.tasks, c)
  {
    hide DefaultsCover;
  }

  lemma OnlyPendingAwaits(w: World, e: Event, maxRetry: nat, c: Commit, t: TaskId)
    requires Core(w) && Enabled(w, e) && Awaiting(w.db.tasks, c) == {}
             && t in Awaiting(Apply(w, e, maxRetry).db.tasks, c)
    ensures PendsFor(w, e, c)
  {
    var v := Apply(w, e, maxRetry);
    hide Core, Apply, Edge;
    if t !in w.db.tasks {
      hide Enabled;
      NewTasks(w, e, maxRetry, t);
      assert false;
    } else {
      assert t !in Awaiting(w.db.tasks, c);
      TasksMove(w, e, maxRetry, t);
      OthersUntouched(w, e, maxRetry);
      assert e.WritePendingEvent? && TouchedBy(w, e) == {w.write.task};
      assert t !in TouchedBy(w, e) ==> Untouched(w.db, v.db, t);
      assert t == w.write.task;
      SentAsBuilt(w.db.tasks[t], v.db.tasks[t], maxRetry);
    }
  }

  lemma SentAsBuilt(a: Task, b: Task, maxRetry: nat)
    requires Edge(a, b, maxRetry) && b.At(WriteComplete, TxPending) && !a.At(WriteComplete, TxPending)
    ensures b.refOutpoint == a.refOutpoint && b.outpoint == a.outpoint
  {
  }

  /** A commit that was ingested stays so through a step exactly when the step is not the late mark of its task. */
  lemma StepKeepsIngestedIff(w: World, e: Event, maxRetry: nat, c: Commit)
    requires Core(w) && Enabled(w, e) && Ingested(w.db, c)
    ensures Ingested(Apply(w, e, maxRetry).db, c) <==> !PendsFor(w, e, c)
  {
    var v := Apply(w, e, maxRetry);
    assert WriteOk(w);
    hide Core, Enabled, Apply, Awaiting, PendsFor;
    if PendsFor(w, e, c) {
      PendingAwaits(w, e, maxRetry, c);
    } else {
      forall t ensures t !in Awaiting(v.db.tasks, c) {
        if t in Awaiting(v.db.tasks, c) {
          OnlyPendingAwaits(w, e, maxRetry, c, t);
        }
      }
      forall s | s in c.subAccounts ensures KeyUsed(v.db.records, ChainKey(c, s)) {
        ChainKeyStays(w, e, maxRetry, ChainKey(c, s));
      }
    }
  }

  /** No step of the run is the late mark of a task for the commit. */
  ghost predicate NonePends(w: World, events: seq<Event>, maxRetry: nat, c: Commit)
    requires ValidRun(w, events, maxRetry)
    decreases |events|
  {
    events == [] || (!PendsFor(w, events[0], c) && NonePends(Apply(w, events[0], maxRetry), events[1..], maxRetry, c))
  }

  lemma {:induction false} RunKeepsIngested(w: World, events: seq<Event>, maxRetry: nat, c: Commit)
    requires Core(w) && ValidRun(w, events, maxRetry) && Ingested(w.db, c) && NonePends(w, events, maxRetry, c)
    ensures Ingested(Run(w, events, maxRetry).db, c)
    decreases |events|
  {
    if events != [] {
      hide Core, Enabled, Apply, Ingested, PendsFor;
      StepKeepsCore(w, events[0], maxRetry);
      StepKeepsIngestedIff(w, events[0], maxRetry, c);
      RunKeepsIngested(Apply(w, events[0], maxRetry), events[1..], maxRetry, c);
    }
  }

  /**
    A step back to a block of which k commits had been ingested, whatever the loops have done since: parsing it again
    from its start leaves the records as going on with the others would, and brings at most one chain task, without
    records and still to be confirmed, for each of the k commits.
   */
  lemma ReparseAfterRun(w: World, events: seq<Event>, maxRetry: nat, block: seq<Commit>, k: nat)
    requires Core(w) && ValidRun(w, events, maxRetry) && k <= |block| && Distinct(block)
    requires forall i | 0 <= i < k :: Ingested(w.db, block[i]) && NonePends(w, events, maxRetry, block[i])
    ensures var db := Run(w, events, maxRetry).db;
            && (ParseBlock(db, block).Some? <==> ParseBlock(db, block[k..]).Some?)
            && (ParseBlock(db, block).Some? ==>
                  OnlyMoreTasks(ParseBlock(db, block[k..]).value, ParseBlock(db, block).value, block[..k]))
  {
    var db := Run(w, events, maxRetry).db;
    RunKeepsCore(w, events, maxRetry);
    assert RowsMatchTasks(db);
    hide Core, ValidRun, Run, Ingested;
    forall i | 0 <= i < k ensures Ingested(db, block[i]) {
      RunKeepsIngested(w, events, maxRetry, block[i]);
    }
    ReparseIngestedBlock(db, block, k);
  }
}
