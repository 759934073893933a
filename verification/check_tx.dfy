/** Looking for rejected transactions among the pending tasks, and for those that spend their outputs. */
module CheckTx {
  import opened Tables
  import opened TaskStore
  import opened Wrappers

  datatype Pending = Pending(taskId: TaskId, refOutpoint: string, outpoint: string)

  /** What the node says of a transaction; it has no answer for an outpoint that is not in the map. */
  datatype NodeStatus = NodePending | NodeCommitted | NodeRejected

  type Node = map<string, NodeStatus>

  predicate RejectedByNode(node: Node, outpoint: string) {
    outpoint in node && node[outpoint] == NodeRejected
  }

  /** Task i spends the output of an earlier doomed task, or the node rejected its transaction. */
  predicate Doomed(list: seq<Pending>, node: Node, i: nat)
    requires i < |list|
    decreases i, 1
  {
    SpendsDoomed(list, node, i) || RejectedByNode(node, list[i].outpoint)
  }

  predicate SpendsDoomed(list: seq<Pending>, node: Node, i: nat)
    requires i < |list|
    decreases i, 0
  {
    exists j | 0 <= j < i :: list[j].outpoint == list[i].refOutpoint && Doomed(list, node, j)
  }

  function DoomedIds(list: seq<Pending>, node: Node, n: nat): set<TaskId>
    requires n <= |list|
  {
    set i | 0 <= i < n && Doomed(list, node, i) :: list[i].taskId
  }

  lemma DoomedIdsNext(list: seq<Pending>, node: Node, n: nat)
    requires n < |list|
    ensures DoomedIds(list, node, n + 1) == DoomedIds(list, node, n) + if Doomed(list, node, n) then {list[n].taskId}
            else {}
  {
  }

  /** The node is asked about a task only if its input is not doomed already. */
  predicate Unanswered(list: seq<Pending>, node: Node, i: nat)
    requires i < |list|
  {
    !SpendsDoomed(list, node, i) && list[i].outpoint !in node
  }

  datatype CheckError = ErrGetTransaction

  class SmtTask {
    var tasks: map<TaskId, Task>

    method DoCheckTx(list: seq<Pending>, node: Node) returns (r: Result<set<TaskId>, CheckError>)
      modifies this
      ensures r.Err? <==> exists i :: 0 <= i < |list| && Unanswered(list, node, i)
      ensures r.Ok? ==> r.value == DoomedIds(list, node, |list|)
      ensures tasks == if r.Ok? then MarkRejected(Db(old(tasks), map[], 0), r.value).tasks else old(tasks)
    {
      var rollbackList: set<TaskId> := {};
      var mapRejected: set<string> := {};
      for i := 0 to |list|
        invariant tasks == old(tasks) && forall j | 0 <= j < i :: !Unanswered(list, node, j)
        invariant rollbackList == DoomedIds(list, node, i)
        invariant mapRejected == set j | 0 <= j < i && Doomed(list, node, j) :: list[j].outpoint
      {
        var v := list[i];
        DoomedIdsNext(list, node, i);
        if v.refOutpoint in mapRejected {
          rollbackList := rollbackList + {v.taskId};
          mapRejected := mapRejected + {v.outpoint};
          continue;
        }
        assert !SpendsDoomed(list, node, i);
        if v.outpoint !in node {
          assert Unanswered(list, node, i);
          return Err(ErrGetTransaction);
        }
        if node[v.outpoint] == NodeRejected {
          rollbackList := rollbackList + {v.taskId};
          mapRejected := mapRejected + {v.outpoint};
        }
      }
      if rollbackList != {} {
        tasks := map t | t in tasks ::
          if t in rollbackList && tasks[t].At(WriteComplete, TxPending)
          then tasks[t].(smtStatus := NeedToRollback, txStatus := TxRejected) else tasks[t];
      }
      return Ok(rollbackList);
    }
  }

  // ---------- what doomed means ----------

  /** A chain of spends from a transaction the node rejected. */
  ghost predicate SpendChain(list: seq<Pending>, node: Node, path: seq<nat>) {
    && path != [] && (forall k | 0 <= k < |path| :: path[k] < |list|)
    && RejectedByNode(node, list[path[0]].outpoint)
    && (forall k | 0 < k < |path| :: list[path[k]].refOutpoint == list[path[k - 1]].outpoint)
  }

  /** Every task is listed after the task whose output it spends. */
  ghost predicate ParentsFirst(list: seq<Pending>) {
    forall i, j | 0 <= i < |list| && 0 <= j < |list| && list[i].refOutpoint == list[j].outpoint :: j < i
  }

  lemma {:induction false} ChainIsDoomed(list: seq<Pending>, node: Node, path: seq<nat>)
    requires ParentsFirst(list) && SpendChain(list, node, path)
    ensures Doomed(list, node, path[|path| - 1])
    decreases |path|
  {
    if |path| > 1 {
      ChainIsDoomed(list, node, path[..|path| - 1]);
      var i, j := path[|path| - 1], path[|path| - 2];
      assert list[i].refOutpoint == list[j].outpoint && j < i;
    }
  }

  lemma {:induction false} DoomedHasChain(list: seq<Pending>, node: Node, i: nat) returns (path: seq<nat>)
    requires i < |list| && Doomed(list, node, i)
    ensures SpendChain(list, node, path) && path[|path| - 1] == i
  {
    if RejectedByNode(node, list[i].outpoint) {
      path := [i];
    } else {
      var j: nat :| j < i && list[j].outpoint == list[i].refOutpoint && Doomed(list, node, j);
      var before := DoomedHasChain(list, node, j);
      path := before + [i];
    }
  }

  /**
    With parents listed first, exactly the tasks at the end of a chain of spends from a rejected transaction are
    doomed.
   */
  lemma DoomedIff(list: seq<Pending>, node: Node, i: nat)
    requires ParentsFirst(list) && i < |list|
    ensures Doomed(list, node, i) <==> exists path :: SpendChain(list, node, path) && path[|path| - 1] == i
  {
    if Doomed(list, node, i) {
      var path := DoomedHasChain(list, node, i);
    }
    if path :| SpendChain(list, node, path) && path[|path| - 1] == i {
      ChainIsDoomed(list, node, path);
    }
  }
}
