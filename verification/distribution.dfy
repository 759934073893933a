/**
  Distributing waiting records into tasks: each parent's list is cut into runs, one task per run, so that
  a run fits one transaction and carries at most one mint signature per sub-action.
 */
module Distribution {
  import opened Wrappers

  datatype SmtRecord = SmtRecord(id: nat, parentAccountId: string, subAction: string, mintSignId: string,
    timestamp: int)

  datatype TaskInfo = TaskInfo(parentAccountId: string, customScriptHash: string)

  // ---------- where a run must end ----------

  /** The signature last seen for a sub-action among the first n records, or "". */
  function LastSign(records: seq<SmtRecord>, n: nat, subAction: string): string
    requires n <= |records|
  {
    if n == 0 then ""
    else if records[n - 1].subAction == subAction && records[n - 1].mintSignId != "" then records[n - 1].mintSignId
    else LastSign(records, n - 1, subAction)
  }

  /** Record i is signed differently from the last signed record of its sub-action. */
  predicate Conflicts(records: seq<SmtRecord>, i: nat)
    requires i < |records|
  {
    var last := LastSign(records, i, records[i].subAction);
    last != "" && records[i].mintSignId != "" && records[i].mintSignId != last
  }

  /** Where the run of record i starts: a run ends only when it is full or its next record conflicts. */
  function RunStart(records: seq<SmtRecord>, max: nat, i: nat): (start: nat)
    requires i < |records|
    ensures start <= i
  {
    if i == 0 || Conflicts(records, i) then i
    else
      var start := RunStart(records, max, i - 1);
      if i == start + max then i else start
  }

  /** The first n records, cut into their runs. */
  function Runs(records: seq<SmtRecord>, max: nat, n: nat): (runs: seq<seq<SmtRecord>>)
    requires n <= |records|
    ensures n > 0 ==> runs != []
  {
    if n == 0 then []
    else
      var runs := Runs(records, max, n - 1);
      if RunStart(records, max, n - 1) == n - 1 then runs + [[records[n - 1]]]
      else runs[..|runs| - 1] + [runs[|runs| - 1] + [records[n - 1]]]
  }

  function Flatten<T>(runs: seq<seq<T>>): seq<T>
    decreases |runs|
  {
    if runs == [] then [] else Flatten(runs[..|runs| - 1]) + runs[|runs| - 1]
  }

  function Ids(records: seq<SmtRecord>): seq<nat> {
    seq(|records|, i requires 0 <= i < |records| => records[i].id)
  }

  function IdsOfRuns(runs: seq<seq<SmtRecord>>): seq<seq<nat>> {
    seq(|runs|, i requires 0 <= i < |runs| => Ids(runs[i]))
  }

  /** At most one non-empty signature per sub-action. */
  ghost predicate OneSignature(records: seq<SmtRecord>) {
    forall i, j | 0 <= i < |records| && 0 <= j < |records| && records[i].subAction == records[j].subAction
                  && records[i].mintSignId != "" && records[j].mintSignId != "" ::
      records[i].mintSignId == records[j].mintSignId
  }

  // ---------- properties of the runs ----------

  lemma RunsNext(records: seq<SmtRecord>, max: nat, n: nat)
    requires 0 < n <= |records|
    ensures var runs, before, last := Runs(records, max, n), Runs(records, max, n - 1), records[n - 1];
            if RunStart(records, max, n - 1) == n - 1 then runs == before + [[last]]
            else before != [] && runs == before[..|before| - 1] + [before[|before| - 1] + [last]]
  {
  }

  lemma SliceSnoc<T>(s: seq<T>, a: nat, n: nat)
    requires a < n <= |s|
    ensures s[a..n] == s[a..n - 1] + [s[n - 1]]
  {
  }

  /** The run being filled is the slice that began at its start. */
  lemma {:induction false} LastRun(records: seq<SmtRecord>, max: nat, n: nat)
    requires 0 < n <= |records|
    ensures var runs := Runs(records, max, n);
            runs[|runs| - 1] == records[RunStart(records, max, n - 1)..n]
  {
    RunsNext(records, max, n);
    if n > 1 {
      LastRun(records, max, n - 1);
      assert RunStart(records, max, n - 1) in {n - 1, RunStart(records, max, n - 2)};
      SliceSnoc(records, RunStart(records, max, n - 1), n);
      hide Runs, Conflicts, RunStart;
    }
  }

  lemma {:induction false} RunFits(records: seq<SmtRecord>, max: nat, i: nat)
    requires max > 0 && i < |records|
    ensures i < RunStart(records, max, i) + max
    ensures forall k | RunStart(records, max, i) < k <= i :: !Conflicts(records, k)
  {
    if i > 0 {
      RunFits(records, max, i - 1);
    }
  }

  lemma {:induction false} LastSignUnchanged(records: seq<SmtRecord>, i: nat, j: nat)
    requires i < j <= |records| && records[i].mintSignId != ""
    requires forall k | i < k < j :: !Conflicts(records, k)
    ensures LastSign(records, j, records[i].subAction) == records[i].mintSignId
  {
    if i + 1 < j {
      LastSignUnchanged(records, i, j - 1);
      assert !Conflicts(records, j - 1);
    }
  }

  lemma SegmentHasOneSignature(records: seq<SmtRecord>, a: nat, n: nat)
    requires a <= n <= |records| && forall k | a < k < n :: !Conflicts(records, k)
    ensures OneSignature(records[a..n])
  {
    forall i, j | a <= i < j < n && records[i].subAction == records[j].subAction
                  && records[i].mintSignId != "" && records[j].mintSignId != ""
      ensures records[i].mintSignId == records[j].mintSignId
    {
      LastSignUnchanged(records, i, j);
      assert !Conflicts(records, j);
    }
    var run := records[a..n];
    forall i, j | 0 <= i < |run| && 0 <= j < |run| && run[i].subAction == run[j].subAction
                  && run[i].mintSignId != "" && run[j].mintSignId != ""
      ensures run[i].mintSignId == run[j].mintSignId
    {
      if i < j {
        assert records[a + i].mintSignId == records[a + j].mintSignId;
      } else if j < i {
        assert records[a + j].mintSignId == records[a + i].mintSignId;
      }
    }
  }

  ghost predicate GoodRuns(runs: seq<seq<SmtRecord>>, max: nat) {
    forall k | 0 <= k < |runs| :: 0 < |runs[k]| <= max && OneSignature(runs[k])
  }

  lemma FlattenSnoc<T>(runs: seq<seq<T>>, run: seq<T>)
    ensures Flatten(runs + [run]) == Flatten(runs) + run
  {
  }

  lemma {:induction false} RunsCover(records: seq<SmtRecord>, max: nat, n: nat)
    requires n <= |records|
    ensures Flatten(Runs(records, max, n)) == records[..n]
  {
    if n > 0 {
      RunsCover(records, max, n - 1);
      var before, last := Runs(records, max, n - 1), records[n - 1];
      assert records[..n] == records[..n - 1] + [last];
      if RunStart(records, max, n - 1) == n - 1 {
        FlattenSnoc(before, [last]);
      } else {
        var init, open := before[..|before| - 1], before[|before| - 1];
        FlattenSnoc(init, open);
        FlattenSnoc(init, open + [last]);
        assert before == init + [open];
        assert Flatten(init) + (open + [last]) == (Flatten(init) + open) + [last];
      }
    }
  }

  lemma GoodRunsSnoc(runs: seq<seq<SmtRecord>>, run: seq<SmtRecord>, max: nat)
    requires GoodRuns(runs, max) && 0 < |run| <= max && OneSignature(run)
    ensures GoodRuns(runs + [run], max)
  {
  }

  lemma {:induction false} RunsFit(records: seq<SmtRecord>, max: nat, n: nat)
    requires max > 0 && n <= |records|
    ensures GoodRuns(Runs(records, max, n), max)
  {
    if n > 0 {
      RunsFit(records, max, n - 1);
      var before, start := Runs(records, max, n - 1), RunStart(records, max, n - 1);
      LastRun(records, max, n);
      RunFits(records, max, n - 1);
      SegmentHasOneSignature(records, start, n);
      var run := records[start..n];
      if start == n - 1 {
        assert run == [records[n - 1]];
        GoodRunsSnoc(before, run, max);
      } else {
        var init, open := before[..|before| - 1], before[|before| - 1];
        assert Runs(records, max, n) == init + [open + [records[n - 1]]];
        assert open + [records[n - 1]] == run by {
          assert Runs(records, max, n)[|init|] == open + [records[n - 1]];
        }
        GoodRunsSnoc(init, run, max);
      }
    }
  }

  /**
    Every list is split into consecutive non-empty runs covering each record once, none longer than the
    maximum and none with two signatures for one sub-action.
   */
  lemma RunsAreGood(records: seq<SmtRecord>, max: nat)
    requires max > 0
    ensures Flatten(Runs(records, max, |records|)) == records
    ensures GoodRuns(Runs(records, max, |records|), max)
  {
    RunsCover(records, max, |records|);
    RunsFit(records, max, |records|);
    assert records[..|records|] == records;
  }

  /** Record i and the last record signed before it for its sub-action carry different signatures. */
  ghost predicate SignsDiffer(records: seq<SmtRecord>, i: nat)
    requires i < |records|
  {
    exists j | 0 <= j < i ::
      && records[j].subAction == records[i].subAction
      && records[j].mintSignId != "" && records[i].mintSignId != "" && records[j].mintSignId != records[i].mintSignId
      && forall k | j < k < i && records[k].subAction == records[i].subAction :: records[k].mintSignId == ""
  }

  lemma {:induction false} LastSignIs(records: seq<SmtRecord>, n: nat, subAction: string)
    requires n <= |records|
    ensures LastSign(records, n, subAction) != "" ==>
              exists j | 0 <= j < n ::
                && records[j].subAction == subAction && records[j].mintSignId == LastSign(records, n, subAction)
                && forall k | j < k < n && records[k].subAction == subAction :: records[k].mintSignId == ""
    ensures LastSign(records, n, subAction) == "" ==>
              forall k | 0 <= k < n && records[k].subAction == subAction :: records[k].mintSignId == ""
  {
    if n > 0 {
      LastSignIs(records, n - 1, subAction);
    }
  }

  lemma ConflictIs(records: seq<SmtRecord>, i: nat)
    requires i < |records|
    ensures Conflicts(records, i) <==> SignsDiffer(records, i)
  {
    LastSignIs(records, i, records[i].subAction);
    hide LastSign;
  }

  lemma CutAfter(records: seq<SmtRecord>, max: nat, n: nat)
    requires 0 < n < |records| && RunStart(records, max, n) == n
    ensures var runs := Runs(records, max, n);
            |runs[|runs| - 1]| == max || Conflicts(records, n)
  {
    LastRun(records, max, n);
    hide Conflicts, Runs;
  }

  /** The first record of each run, and the end of the last. */
  function Bound(runs: seq<seq<SmtRecord>>, k: nat): nat
    requires k <= |runs|
  {
    |Flatten(runs[..k])|
  }

  /** Runs that are closed stay as they are. */
  lemma PrefixStays(records: seq<SmtRecord>, max: nat, n: nat, k: nat)
    requires 0 < n <= |records| && k + 1 < |Runs(records, max, n)|
    ensures var runs, before := Runs(records, max, n), Runs(records, max, n - 1);
            && k < |before| && runs[k] == before[k]
            && Bound(runs, k) == Bound(before, k) && Bound(runs, k + 1) == Bound(before, k + 1)
  {
    RunsNext(records, max, n);
    var runs, before := Runs(records, max, n), Runs(records, max, n - 1);
    hide Runs, RunStart, Flatten;
    assert runs[..k] == before[..k] && runs[..k + 1] == before[..k + 1];
  }

  lemma {:induction false} RunEnds(records: seq<SmtRecord>, max: nat, n: nat, k: nat)
    requires max > 0 && n <= |records| && k + 1 < |Runs(records, max, n)|
    ensures var runs := Runs(records, max, n);
            var end := Bound(runs, k + 1);
            end < n && (|runs[k]| == max || Conflicts(records, end))
  {
    var runs, before := Runs(records, max, n), Runs(records, max, n - 1);
    RunsNext(records, max, n);
    PrefixStays(records, max, n, k);
    hide Conflicts, RunStart, Flatten, Runs;
    if k + 1 < |before| {
      RunEnds(records, max, n - 1, k);
    } else {
      assert runs[..k + 1] == before;
      RunsCover(records, max, n - 1);
      assert records[..n - 1] != [] ==> n > 1;
      CutAfter(records, max, n - 1);
    }
  }

  lemma LastRunHolds(records: seq<SmtRecord>, max: nat, n: nat, i: nat)
    requires max > 0 && 0 < n <= |records|
    requires var runs := Runs(records, max, n);
             |Flatten(runs[..|runs| - 1])| < i < |Flatten(runs)|
    ensures i < n && !Conflicts(records, i)
  {
    var runs := Runs(records, max, n);
    var init, last := runs[..|runs| - 1], runs[|runs| - 1];
    RunsCover(records, max, n);
    LastRun(records, max, n);
    RunFits(records, max, n - 1);
    hide Conflicts, RunStart, Runs;
    assert runs == init + [last];
    FlattenSnoc(init, last);
    assert |records[..n]| == n;
  }

  lemma {:induction false} RunHolds(records: seq<SmtRecord>, max: nat, n: nat, k: nat, i: nat)
    requires max > 0 && n <= |records| && k < |Runs(records, max, n)|
    requires Bound(Runs(records, max, n), k) < i < Bound(Runs(records, max, n), k + 1)
    ensures i < n && !Conflicts(records, i)
    decreases n
  {
    assert n > 0;
    hide Conflicts, Runs, Flatten;
    if k + 1 < |Runs(records, max, n)| {
      PrefixStays(records, max, n, k);
      hide Bound;
      RunHolds(records, max, n - 1, k, i);
    } else {
      var runs := Runs(records, max, n);
      assert runs[..k + 1] == runs && k == |runs| - 1;
      LastRunHolds(records, max, n, i);
    }
  }

  /**
    Runs are as long as they can be: one ends before the list does only when it is full, or when the next record is
    signed differently from the last one signed before it for its sub-action. No record inside a run is.
   */
  lemma RunsAreMaximal(records: seq<SmtRecord>, max: nat, k: nat)
    requires max > 0 && k < |Runs(records, max, |records|)|
    ensures var runs := Runs(records, max, |records|);
            var start, end := Bound(runs, k), Bound(runs, k + 1);
            && (k + 1 < |runs| ==> end < |records| && (|runs[k]| == max || SignsDiffer(records, end)))
            && end <= |records| && forall i | start < i < end :: !SignsDiffer(records, i)
  {
    var runs := Runs(records, max, |records|);
    var start, end := Bound(runs, k), Bound(runs, k + 1);
    if k + 1 < |runs| {
      RunEnds(records, max, |records|, k);
      ConflictIs(records, end);
    } else {
      RunsAreGood(records, max);
      assert runs[..k + 1] == runs;
    }
    forall i | start < i < end
      ensures !SignsDiffer(records, i)
    {
      RunHolds(records, max, |records|, k, i);
      ConflictIs(records, i);
    }
  }

  // ---------- grouping and selecting parents ----------

  type Groups = map<string, seq<SmtRecord>>

  function OfParent(list: seq<SmtRecord>, parent: string): seq<SmtRecord>
    decreases |list|
  {
    if list == [] then []
    else
      var rest, last := OfParent(list[..|list| - 1], parent), list[|list| - 1];
      if last.parentAccountId == parent then rest + [last] else rest
  }

  /** The records of one parent are those of the list that name it, in the list's order. */
  lemma {:induction false} OfParentConcat(a: seq<SmtRecord>, b: seq<SmtRecord>, v: SmtRecord, parent: string)
    ensures OfParent([v], parent) == if v.parentAccountId == parent then [v] else []
    ensures OfParent(a + b, parent) == OfParent(a, parent) + OfParent(b, parent)
    decreases |b|
  {
    assert [v][..0] == [];
    if b == [] {
      assert a + b == a;
    } else {
      OfParentConcat(a, b[..|b| - 1], v, parent);
      assert (a + b)[..|a + b| - 1] == a + b[..|b| - 1];
    }
  }

  ghost predicate GroupsOf(list: seq<SmtRecord>, groups: Groups) {
    && (forall p :: p in groups <==> OfParent(list, p) != [])
    && (forall p | p in groups :: groups[p] == OfParent(list, p))
  }

  method GroupByParent(list: seq<SmtRecord>) returns (groups: Groups)
    ensures GroupsOf(list, groups)
  {
    groups := map[];
    for i := 0 to |list|
      invariant GroupsOf(list[..i], groups)
    {
      var v := list[i];
      assert list[..i + 1][..i] == list[..i];
      var soFar := if v.parentAccountId in groups then groups[v.parentAccountId] else [];
      groups := groups[v.parentAccountId := soFar + [v]];
    }
    assert list[..|list|] == list;
  }

  /** A short list waits while more than three tasks are undone or while its first record is recent. */
  predicate Ready(records: seq<SmtRecord>, undone: nat, timestamp: int, max: nat) {
    |records| >= max || (undone <= 3 && (records != [] ==> records[0].timestamp <= timestamp))
  }

  method SelectReady(groups: Groups, undone: string -> nat, timestamp: int, max: nat) returns (ready: Groups)
    requires forall p | p in groups :: groups[p] != []
    ensures ready == map p | p in groups && Ready(groups[p], undone(p), timestamp, max) :: groups[p]
    ensures forall p | p in groups ::
              p in ready <==> |groups[p]| >= max || (undone(p) <= 3 && groups[p][0].timestamp <= timestamp)
  {
    ready := groups;
    var todo := groups.Keys;
    while todo != {}
      invariant todo <= groups.Keys
      invariant ready == map p | p in groups && (p in todo || Ready(groups[p], undone(p), timestamp, max)) :: groups[p]
    {
      var k :| k in todo;
      todo := todo - {k};
      var v := groups[k];
      if |v| < max {
        if undone(k) > 3 {
          ready := ready - {k};
        } else if timestamp < v[0].timestamp {
          ready := ready - {k};
        }
      }
    }
  }

  // ---------- building the tasks ----------

  function Repeat<T>(x: T, n: nat): seq<T> {
    seq(n, i => x)
  }

  function TasksFor(groups: Groups, hashOf: string -> string, max: nat, order: seq<string>): seq<TaskInfo>
    requires forall p | p in order :: p in groups
    decreases |order|
  {
    if order == [] then []
    else
      var p := order[|order| - 1];
      TasksFor(groups, hashOf, max, order[..|order| - 1])
      + Repeat(TaskInfo(p, hashOf(p)), |Runs(groups[p], max, |groups[p]|)|)
  }

  function RunsFor(groups: Groups, max: nat, order: seq<string>): seq<seq<SmtRecord>>
    requires forall p | p in order :: p in groups
    decreases |order|
  {
    if order == [] then []
    else
      var p := order[|order| - 1];
      RunsFor(groups, max, order[..|order| - 1]) + Runs(groups[p], max, |groups[p]|)
  }

  ghost predicate Enumerates(order: seq<string>, parents: set<string>) {
    && (forall p :: p in order <==> p in parents)
    && (forall i, j | 0 <= i < j < |order| :: order[i] != order[j])
  }

  lemma IdsOfRunsConcat(a: seq<seq<SmtRecord>>, b: seq<seq<SmtRecord>>)
    ensures IdsOfRuns(a + b) == IdsOfRuns(a) + IdsOfRuns(b)
  {
  }

  /** The loop over the parents, in the order the map yields them. */
  method DoUpdateDistribution(groups: Groups, hashOf: string -> string, maxUpdateCount: nat)
    returns (taskList: seq<TaskInfo>, idsList: seq<seq<nat>>, order: seq<string>)
    requires maxUpdateCount > 0
    ensures Enumerates(order, groups.Keys)
    ensures taskList == TasksFor(groups, hashOf, maxUpdateCount, order)
    ensures idsList == IdsOfRuns(RunsFor(groups, maxUpdateCount, order))
  {
    taskList, idsList, order := [], [], [];
    var todo := groups.Keys;
    while todo != {}
      invariant todo <= groups.Keys && Enumerates(order, groups.Keys - todo)
      invariant taskList == TasksFor(groups, hashOf, maxUpdateCount, order)
      invariant idsList == IdsOfRuns(RunsFor(groups, maxUpdateCount, order))
    {
      var k :| k in todo;
      var tasks, runs := DistributeParent(k, groups[k], hashOf(k), maxUpdateCount);
      var before := order;
      order := order + [k];
      assert order[..|order| - 1] == before;
      IdsOfRunsConcat(RunsFor(groups, maxUpdateCount, before), Runs(groups[k], maxUpdateCount, |groups[k]|));
      taskList, idsList := taskList + tasks, idsList + runs;
      todo := todo - {k};
    }
  }

  /** The ids of the closed runs, and those of the run being filled. */
  function ClosedIds(records: seq<SmtRecord>, max: nat, i: nat): seq<seq<nat>>
    requires 0 < i <= |records|
  {
    var runs := Runs(records, max, i);
    IdsOfRuns(runs[..|runs| - 1])
  }

  function OpenIds(records: seq<SmtRecord>, max: nat, i: nat): seq<nat>
    requires 0 < i <= |records|
  {
    var runs := Runs(records, max, i);
    Ids(runs[|runs| - 1])
  }

  /** The loop's map holds the last signature of every sub-action among the first i records. */
  ghost predicate Remembers(lastSigns: map<string, string>, records: seq<SmtRecord>, i: nat)
    requires i <= |records|
  {
    forall a :: LastSign(records, i, a) == if a in lastSigns then lastSigns[a] else ""
  }

  lemma RemembersNext(lastSigns: map<string, string>, records: seq<SmtRecord>, i: nat)
    requires i < |records| && Remembers(lastSigns, records, i)
    ensures var v := records[i];
            Remembers(if v.mintSignId != "" then lastSigns[v.subAction := v.mintSignId] else lastSigns, records, i + 1)
  {
  }

  /** The loop's variables after i > 0 records. */
  ghost predicate Filling(records: seq<SmtRecord>, max: nat, i: nat, count: nat, ids: seq<nat>, idsList: seq<seq<nat>>,
      tasks: nat)
    requires 0 < i <= |records|
  {
    && count == i - RunStart(records, max, i - 1)
    && ids != [] && ids == OpenIds(records, max, i)
    && idsList == ClosedIds(records, max, i)
    && tasks == |Runs(records, max, i)|
  }

  lemma FillingFirst(records: seq<SmtRecord>, max: nat)
    requires records != []
    ensures Filling(records, max, 1, 1, [records[0].id], [], 1)
  {
    assert Runs(records, max, 0) == [];
    assert Runs(records, max, 1) == [[records[0]]];
  }

  lemma FillingNext(records: seq<SmtRecord>, max: nat, i: nat, count: nat, ids: seq<nat>, idsList: seq<seq<nat>>,
      tasks: nat)
    requires max > 0 && 0 < i < |records| && Filling(records, max, i, count, ids, idsList, tasks)
    ensures if count == max || Conflicts(records, i)
            then Filling(records, max, i + 1, 1, [records[i].id], idsList + [ids], tasks + 1)
            else Filling(records, max, i + 1, count + 1, ids + [records[i].id], idsList, tasks)
  {
  }

  lemma FillingLast(records: seq<SmtRecord>, max: nat, count: nat, ids: seq<nat>, idsList: seq<seq<nat>>, tasks: nat)
    requires records != [] && Filling(records, max, |records|, count, ids, idsList, tasks)
    ensures idsList + [ids] == IdsOfRuns(Runs(records, max, |records|)) && tasks == |idsList + [ids]|
  {
  }

  lemma ConflictTest(lastSigns: map<string, string>, records: seq<SmtRecord>, i: nat)
    requires i < |records| && Remembers(lastSigns, records, i)
    ensures var v := records[i];
            Conflicts(records, i) <==>
            v.mintSignId != "" && v.subAction in lastSigns && lastSigns[v.subAction] !in {"", v.mintSignId}
  {
  }

  lemma NothingDistributed(records: seq<SmtRecord>, max: nat)
    ensures Remembers(map[], records, 0)
    ensures records == [] ==> IdsOfRuns(Runs(records, max, 0)) == []
  {
  }

  /** The inner loop over one parent's records. */
  method DistributeParent(parent: string, smtRecordList: seq<SmtRecord>, customScriptHash: string, maxUpdateCount: nat)
    returns (taskList: seq<TaskInfo>, idsList: seq<seq<nat>>)
    requires maxUpdateCount > 0
    ensures idsList == IdsOfRuns(Runs(smtRecordList, maxUpdateCount, |smtRecordList|))
    ensures taskList == Repeat(TaskInfo(parent, customScriptHash), |idsList|)
  {
    hide Filling, Remembers, Conflicts, Runs, RunStart, LastSign, IdsOfRuns;
    NothingDistributed(smtRecordList, maxUpdateCount);
    taskList, idsList := [], [];
    var count, addTask := 0, true;
    var ids: seq<nat> := [];
    var lastMintSignIdMap: map<string, string> := map[];
    for i := 0 to |smtRecordList|
      invariant Remembers(lastMintSignIdMap, smtRecordList, i)
      invariant if i == 0 then addTask && count == 0 && ids == [] && idsList == [] && taskList == []
                else !addTask && ids != [] && Filling(smtRecordList, maxUpdateCount, i, count, ids, idsList, |taskList|)
      invariant taskList == Repeat(TaskInfo(parent, customScriptHash), |taskList|)
    {
      var smtRecord := smtRecordList[i];
      var lastMintSignId := if smtRecord.subAction in lastMintSignIdMap then lastMintSignIdMap[smtRecord.subAction]
        else "";
      if i > 0 {
        FillingNext(smtRecordList, maxUpdateCount, i, count, ids, idsList, |taskList|);
      } else {
        FillingFirst(smtRecordList, maxUpdateCount);
      }
      RemembersNext(lastMintSignIdMap, smtRecordList, i);
      ConflictTest(lastMintSignIdMap, smtRecordList, i);
      assert [] + [smtRecord.id] == [smtRecord.id] && [] + [ids] == [ids];
      if count == maxUpdateCount {
        addTask := true;
        count := 0;
      } else if lastMintSignId != "" && smtRecord.mintSignId != "" && lastMintSignId != smtRecord.mintSignId {
        addTask := true;
        count := 0;
      }
      if smtRecord.mintSignId != "" {
        lastMintSignIdMap := lastMintSignIdMap[smtRecord.subAction := smtRecord.mintSignId];
      }
      count := count + 1;
      if addTask {
        taskList := taskList + [TaskInfo(parent, customScriptHash)];
        if |ids| > 0 {
          idsList := idsList + [ids];
        }
        ids := [];
        addTask := false;
      }
      ids := ids + [smtRecord.id];
    }
    if |ids| > 0 {
      FillingLast(smtRecordList, maxUpdateCount, count, ids, idsList, |taskList|);
      idsList := idsList + [ids];
    }
  }

  /** Tasks and id lists stay aligned across parents. */
  lemma {:induction false} Aligned(groups: Groups, hashOf: string -> string, max: nat, order: seq<string>)
    requires max > 0 && forall p | p in order :: p in groups
    requires forall p, i | p in groups && 0 <= i < |groups[p]| :: groups[p][i].parentAccountId == p
    ensures var tasks, runs := TasksFor(groups, hashOf, max, order), RunsFor(groups, max, order);
            && |tasks| == |runs| && GoodRuns(runs, max)
            && (forall k | 0 <= k < |tasks| :: tasks[k].customScriptHash == hashOf(tasks[k].parentAccountId))
            && forall k, r | 0 <= k < |runs| && r in runs[k] :: r.parentAccountId == tasks[k].parentAccountId
    decreases |order|
  {
    if order != [] {
      var p := order[|order| - 1];
      Aligned(groups, hashOf, max, order[..|order| - 1]);
      RunsAreGood(groups[p], max);
      forall k, r | 0 <= k < |Runs(groups[p], max, |groups[p]|)| && r in Runs(groups[p], max, |groups[p]|)[k]
        ensures r.parentAccountId == p
      {
        InFlatten(Runs(groups[p], max, |groups[p]|), k, r);
      }
    }
  }

  lemma {:induction false} InFlatten<T>(runs: seq<seq<T>>, k: nat, x: T)
    requires k < |runs| && x in runs[k]
    ensures x in Flatten(runs)
    decreases |runs|
  {
    if k < |runs| - 1 {
      InFlatten(runs[..|runs| - 1], k, x);
    }
  }

  // ---------- reading the signatures back ----------

  datatype SignError = ErrMintSignIdDifferent | ErrGetMintSignInfo

  /** getSignInfo's loop over a task's records; `known` are the stored mint_sign_ids. */
  method GetSignInfo(records: seq<SmtRecord>, known: set<string>) returns (r: Result<map<string, string>, SignError>)
    ensures OneSignature(records) ==> r != Err(ErrMintSignIdDifferent)
    ensures r.Ok? ==> OneSignature(records)
    ensures r.Ok? ==> forall i | 0 <= i < |records| && records[i].mintSignId != "" ::
              records[i].subAction in r.value && r.value[records[i].subAction] == records[i].mintSignId
    ensures r == Err(ErrGetMintSignInfo) ==> exists v :: v in records && v.mintSignId !in known
  {
    var mintSignIdMap: map<string, string> := map[];
    for i := 0 to |records|
      invariant forall a | a in mintSignIdMap :: mintSignIdMap[a] != "" &&
                  exists j :: 0 <= j < i && records[j].subAction == a && records[j].mintSignId == mintSignIdMap[a]
      invariant forall j | 0 <= j < i && records[j].mintSignId != "" ::
                  records[j].subAction in mintSignIdMap && mintSignIdMap[records[j].subAction] == records[j].mintSignId
    {
      var v := records[i];
      if v.mintSignId != "" {
        if v.subAction !in mintSignIdMap {
          mintSignIdMap := mintSignIdMap[v.subAction := v.mintSignId];
          if v.mintSignId !in known {
            return Err(ErrGetMintSignInfo);
          }
        } else if mintSignIdMap[v.subAction] != v.mintSignId {
          return Err(ErrMintSignIdDifferent);
        }
      }
    }
    return Ok(mintSignIdMap);
  }

  /**
    The records of a distributed task, in whatever order they are read back and with whichever of them
    still waiting, never have two signatures for one sub-action.
   */
  lemma SelectionHasOneSignature(run: seq<SmtRecord>, selection: seq<SmtRecord>)
    requires OneSignature(run) && forall r | r in selection :: r in run
    ensures OneSignature(selection)
  {
    forall i, j | 0 <= i < |selection| && 0 <= j < |selection| && selection[i].subAction == selection[j].subAction
                  && selection[i].mintSignId != "" && selection[j].mintSignId != ""
      ensures selection[i].mintSignId == selection[j].mintSignId
    {
      assert selection[i] in run && selection[j] in run;
    }
  }
}
