/** The life of one task: its statuses, one task of the service under way at a time, and a bounded number of tries. */
module PipelineLifecycle {
  import opened Tables
  import opened TaskStore
  import opened Reparse
  import opened SmtPipeline
  import opened PipelineInvariants

  // ---------- one task under way ----------

  predicate UnderWay(task: Task) {
    task.taskType == TaskDelegate && (task.At(Writing, UnSend) || task.At(WriteComplete, TxPending))
  }

  ghost predicate OneUnderWay(w: World) {
    && (forall t, u | t in w.db.tasks && u in w.db.tasks && UnderWay(w.db.tasks[t]) && UnderWay(w.db.tasks[u]) ::
       t == u)
    && (w.write.WriteChecked? ==> forall t | t in w.db.tasks :: !UnderWay(w.db.tasks[t]))
  }

  /** A task comes under way only when the update loop starts it. */
  lemma OnlyStarted(w: World, e: Event, maxRetry: nat, t: TaskId)
    requires Core(w) && Enabled(w, e) && t in Apply(w, e, maxRetry).db.tasks
             && UnderWay(Apply(w, e, maxRetry).db.tasks[t])
    ensures (t in w.db.tasks && UnderWay(w.db.tasks[t])) || (e.WriteStartEvent? && t == w.write.task)
  {
    hide Core, Apply, TouchedBy, Edge;
    assert e.WriteStartEvent? ==> w.write.WriteChecked?;
    hide Enabled;
    if t !in w.db.tasks {
      NewTasks(w, e, maxRetry, t);
    } else if e.WriteStartEvent? && t != w.write.task {
      OthersUntouched(w, e, maxRetry);
      OnlyWriter(w, e);
      assert Untouched(w.db, Apply(w, e, maxRetry).db, t);
    } else if !e.WriteStartEvent? {
      TasksMove(w, e, maxRetry, t);
      OnlyStartsOrSends(w, e, Apply(w, e, maxRetry), t, maxRetry);
    }
  }

  lemma OnlyStartsOrSends(w: World, e: Event, v: World, t: TaskId, maxRetry: nat)
    requires Moves(w, e, v, t, maxRetry) && UnderWay(v.db.tasks[t]) && !e.WriteStartEvent?
    ensures UnderWay(w.db.tasks[t])
  {
  }

  lemma OnlyWriter(w: World, e: Event)
    requires Enabled(w, e) && e.WriteStartEvent?
    ensures TouchedBy(w, e) == {w.write.task}
  {
  }

  lemma StepKeepsOneUnderWay(w: World, e: Event, maxRetry: nat)
    requires Core(w) && OneUnderWay(w) && Enabled(w, e)
    ensures OneUnderWay(Apply(w, e, maxRetry))
  {
    var v := Apply(w, e, maxRetry);
    forall t | t in v.db.tasks && UnderWay(v.db.tasks[t])
      ensures (t in w.db.tasks && UnderWay(w.db.tasks[t])) || (e.WriteStartEvent? && t == w.write.task)
    {
      OnlyStarted(w, e, maxRetry, t);
    }
    if v.write.WriteChecked? {
      CheckedStays(w, e, maxRetry);
    }
    assert e.WriteStartEvent? ==> w.write.WriteChecked? by {
      hide Core, Apply, OneUnderWay;
    }
    hide Core, Apply, Enabled;
  }

  lemma CheckedStays(w: World, e: Event, maxRetry: nat)
    requires Enabled(w, e) && Apply(w, e, maxRetry).write.WriteChecked?
    ensures !e.WriteStartEvent? && (w.write.WriteChecked? || forall t | t in w.db.tasks :: !UnderWay(w.db.tasks[t]))
  {
    SameJobs(w, e, maxRetry);
    if !OfWriting(e) {
      hide Enabled, Apply;
    } else {
      hide SameRoot, LiveCellKnown;
    }
  }

  lemma {:induction false} RunKeepsOneUnderWay(w: World, events: seq<Event>, maxRetry: nat)
    requires Core(w) && OneUnderWay(w) && ValidRun(w, events, maxRetry)
    ensures OneUnderWay(Run(w, events, maxRetry)) && Statuses(Run(w, events, maxRetry).db)
    decreases |events|
  {
    if events != [] {
      hide Core, Enabled, Apply, OneUnderWay, Statuses;
      StepKeepsOneUnderWay(w, events[0], maxRetry);
      StepKeepsCore(w, events[0], maxRetry);
      RunKeepsOneUnderWay(Apply(w, events[0], maxRetry), events[1..], maxRetry);
    }
  }

  /**
    In every reachable state no two tasks of the service are written or waiting at once, and statuses are the nine
    pairs.
   */
  lemma OneTaskUnderWay(events: seq<Event>, maxRetry: nat)
    requires ValidRun(START, events, maxRetry)
    ensures OneUnderWay(Run(START, events, maxRetry)) && Statuses(Run(START, events, maxRetry).db)
  {
    assert Core(START) && OneUnderWay(START);
    RunKeepsOneUnderWay(START, events, maxRetry);
  }

  /** So parsing a block again needs no more than that the waiting records have the nonces of the chain. */
  lemma CommitsAreExpected(w: World, k: nat)
    requires Core(w) && OneUnderWay(w) && k < |w.commits|
    ensures Orderly(w.db)
    ensures Expected(w.db, w.commits[k]) <==>
            forall t | t in Awaiting(w.db.tasks, w.commits[k]) :: NoncesMatch(w.db.records, t, w.commits[k])
  {
    forall t | t in w.db.tasks && w.db.tasks[t].At(WriteComplete, TxPending) ensures UnderWay(w.db.tasks[t]) {
      assert StatusOk(w.db.tasks[t]);
    }
    if ChainTaskId(w.commits[k]) in w.db.tasks {
      DigestIsChain(w, k);
    }
    assert TablesInv(w.db);
    hide Core, TablesInv, NoncesMatch;
  }

  // ---------- a bounded number of tries ----------

  /** How many status changes a task can still go through. */
  function Rank(task: Task, maxRetry: nat): nat {
    var left := if task.retry < maxRetry then maxRetry - task.retry else 0;
    if task.taskType == TaskDelegate then
      if task.smtStatus == NeedToWrite then 4 * left + 4
      else if task.smtStatus == Writing then 4 * left + 3
      else if task.smtStatus == WriteComplete then 4 * left + 2
      else if task.smtStatus == NeedToRollback then 4 * left + 1
      else 0
    else if task.At(NeedToWrite, Committed) then 1
    else 0
  }

  /** How many times a task can still be written. */
  function WritesLeft(task: Task, maxRetry: nat): nat {
    var left := if task.retry < maxRetry then maxRetry - task.retry else 0;
    if task.taskType == TaskDelegate then left + (if task.At(NeedToWrite, UnSend) then 1 else 0) else 0
  }

  predicate StatusChange(a: Task, b: Task) {
    b != a.(refOutpoint := b.refOutpoint, outpoint := b.outpoint)
  }

  predicate Written(a: Task, b: Task) {
    a.smtStatus == NeedToWrite && b.smtStatus == Writing
  }

  lemma EdgeDescends(a: Task, b: Task, maxRetry: nat)
    requires StatusOk(a) && (b == a || Edge(a, b, maxRetry)) && a.retry <= maxRetry
    ensures b.retry <= maxRetry
    ensures StatusChange(a, b) ==> Rank(b, maxRetry) < Rank(a, maxRetry)
    ensures !StatusChange(a, b) ==> Rank(b, maxRetry) == Rank(a, maxRetry)
    ensures WritesLeft(b, maxRetry) + (if Written(a, b) then 1 else 0) <= WritesLeft(a, maxRetry)
  {
  }

  /** A task at the end of its life has no edge to another status; every other task has one. */
  lemma EndsIff(a: Task, maxRetry: nat)
    requires StatusOk(a) && a.retry <= maxRetry
    ensures Rank(a, maxRetry) == 0 <==>
            a.At(WriteComplete, Committed) || a.smtStatus == RollbackComplete || a.taskType == TaskClosed
    ensures Rank(a, maxRetry) == 0 <==> forall b | Edge(a, b, maxRetry) :: !StatusChange(a, b)
  {
    if Rank(a, maxRetry) > 0 {
      var b := NextStatus(a, maxRetry);
      assert Edge(a, b, maxRetry) && StatusChange(a, b);
    }
  }

  function NextStatus(a: Task, maxRetry: nat): Task {
    if a.taskType == TaskChain then a.(smtStatus := WriteComplete)
    else if a.smtStatus == NeedToWrite then a.(smtStatus := Writing)
    else if a.smtStatus == Writing then a.(smtStatus := NeedToRollback)
    else if a.smtStatus == WriteComplete then a.(smtStatus := NeedToRollback, txStatus := TxRejected)
    else if a.retry < maxRetry then a.(smtStatus := NeedToWrite, txStatus := UnSend, retry := a.retry + 1)
    else a.(smtStatus := RollbackComplete)
  }

  /** Over a run: how often the task's status changes, and how often it is written to the tree. */
  ghost function Changes(w: World, events: seq<Event>, maxRetry: nat, t: TaskId): nat
    requires ValidRun(w, events, maxRetry)
    decreases |events|
  {
    if events == [] then 0
    else
      var v := Apply(w, events[0], maxRetry);
      (if t in w.db.tasks && t in v.db.tasks && StatusChange(w.db.tasks[t], v.db.tasks[t]) then 1 else 0)
      + Changes(v, events[1..], maxRetry, t)
  }

  ghost function Writes(w: World, events: seq<Event>, maxRetry: nat, t: TaskId): nat
    requires ValidRun(w, events, maxRetry)
    decreases |events|
  {
    if events == [] then 0
    else
      var v := Apply(w, events[0], maxRetry);
      (if t in w.db.tasks && t in v.db.tasks && Written(w.db.tasks[t], v.db.tasks[t]) then 1 else 0)
      + Writes(v, events[1..], maxRetry, t)
  }

  lemma StepDescends(w: World, e: Event, maxRetry: nat, t: TaskId)
    requires Core(w) && Enabled(w, e) && t in w.db.tasks && w.db.tasks[t].retry <= maxRetry
    ensures var v := Apply(w, e, maxRetry);
            && t in v.db.tasks && v.db.tasks[t].retry <= maxRetry
            && Rank(v.db.tasks[t], maxRetry) + (if StatusChange(w.db.tasks[t], v.db.tasks[t]) then 1 else 0)
               <= Rank(w.db.tasks[t], maxRetry)
            && WritesLeft(v.db.tasks[t], maxRetry) + (if Written(w.db.tasks[t], v.db.tasks[t]) then 1 else 0)
               <= WritesLeft(w.db.tasks[t], maxRetry)
  {
    TasksMove(w, e, maxRetry, t);
    assert StatusOk(w.db.tasks[t]);
    hide Core, Enabled, Apply, Edge, Rank, WritesLeft, StatusChange, Written;
    EdgeDescends(w.db.tasks[t], Apply(w, e, maxRetry).db.tasks[t], maxRetry);
  }

  lemma {:induction false} RunDescends(w: World, events: seq<Event>, maxRetry: nat, t: TaskId)
    requires Core(w) && ValidRun(w, events, maxRetry) && t in w.db.tasks && w.db.tasks[t].retry <= maxRetry
    ensures var v := Run(w, events, maxRetry);
            && t in v.db.tasks && v.db.tasks[t].retry <= maxRetry
            && Changes(w, events, maxRetry, t) + Rank(v.db.tasks[t], maxRetry) <= Rank(w.db.tasks[t], maxRetry)
            && Writes(w, events, maxRetry, t) + WritesLeft(v.db.tasks[t], maxRetry)
               <= WritesLeft(w.db.tasks[t], maxRetry)
    decreases |events|
  {
    if events != [] {
      hide Core, Enabled, Apply, Rank, WritesLeft, StatusChange, Written;
      StepDescends(w, events[0], maxRetry, t);
      StepKeepsCore(w, events[0], maxRetry);
      RunDescends(Apply(w, events[0], maxRetry), events[1..], maxRetry, t);
    }
  }

  /**
    From its distribution a task is written at most maxRetry + 1 times and changes status at most 4 maxRetry + 4
    times, whatever happens around it.
   */
  lemma TriesAreBounded(w: World, events: seq<Event>, maxRetry: nat, t: TaskId)
    requires Core(w) && ValidRun(w, events, maxRetry)
    requires t in w.db.tasks && w.db.tasks[t] == Task(TaskDelegate, "", "", 0, NeedToWrite, UnSend, 0)
    ensures Writes(w, events, maxRetry, t) <= maxRetry + 1
    ensures Changes(w, events, maxRetry, t) <= 4 * maxRetry + 4
    ensures t in Run(w, events, maxRetry).db.tasks && Run(w, events, maxRetry).db.tasks[t].retry <= maxRetry
  {
    RunDescends(w, events, maxRetry, t);
  }
}
